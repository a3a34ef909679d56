/** Reading the untruncated demand report as JSON gives back what it reports. */
module DemandProofs {
  import opened Numerals
  import opened Json
  import opened Demand

  // ===== the report as a JSON value =====

  function RangeMembers(d: Demand): seq<Member> {
    if d.size != 0 then
      [Member("base-address", Str("0x" + Hex(RoundDown(d.base)))), Member("pages-count", Num(Pages(d)))]
    else [Member("pages-count", Num(0))]
  }

  function IrqJson(irq: nat): Json { Obj([Member("id", Num(irq))]) }

  function IrqJsons(irqs: seq<nat>): (r: seq<Json>)
    ensures |r| == |irqs|
  {
    if irqs == [] then [] else IrqJsons(irqs[..|irqs|-1]) + [IrqJson(irqs[|irqs|-1])]
  }

  function NumJsons(ns: seq<nat>): (r: seq<Json>)
    ensures |r| == |ns|
  {
    if ns == [] then [] else NumJsons(ns[..|ns|-1]) + [Num(ns[|ns|-1])]
  }

  function IrqMembers(d: Demand): seq<Member>
    requires WellSized(d)
  {
    if d.nrIrqs != 0 then [Member("interrupts", Arr(IrqJsons(Irqs(d))))] else []
  }

  function StreamMembers(d: Demand): seq<Member>
    requires WellSized(d)
  {
    if d.nrStreams != 0 then [Member("smmu-id", Num(d.smmuId)), Member("stream-ids", Arr(NumJsons(Streams(d))))] else []
  }

  function RegionMembers(name: string, d: Demand): seq<Member>
    requires WellSized(d)
  {
    [Member("description", Str(name))]
    + (RangeMembers(d) + ([Member("attributes", Str("0x" + Hex(d.attributes)))] + (IrqMembers(d) + StreamMembers(d))))
  }

  ghost function RegionJsons(devs: seq<Device>): seq<Json>
    requires AllSized(devs)
  {
    if devs == [] then []
    else
      var init, dev := devs[..|devs|-1], devs[|devs|-1];
      RegionJsons(init) + if dev.demand.Some? then [Obj(RegionMembers(dev.name, dev.demand.value))] else []
  }

  ghost function ReportJson(devs: seq<Device>): Json
    requires AllSized(devs)
  {
    Obj([Member("format", Str("kdal-demand/1")),
         Member("vocabulary", Str("FF-A partition manifest binding")),
         Member("device-regions", Arr(RegionJsons(devs)))])
  }

  // ===== a region's text is the printed object =====

  /** Members after the first. */
  function TailText(ms: seq<Member>): string {
    if ms == [] then "" else ", " + ShowMember(ms[0]) + TailText(ms[1..])
  }

  lemma {:induction false} ShowWithTail(m: Member, ms: seq<Member>)
    ensures ShowMembers([m] + ms) == ShowMember(m) + TailText(ms)
    decreases |ms|
  {
    hide ShowMember;
    assert ([m] + ms)[1..] == ms;
    if ms == [] {
      assert ShowMember(m) + "" == ShowMember(m);
    } else {
      ShowWithTail(ms[0], ms[1..]);
      assert [ms[0]] + ms[1..] == ms;
      assert ", " + (ShowMember(ms[0]) + TailText(ms[1..])) == TailText(ms);
    }
  }

  lemma {:induction false} TailAppend(a: seq<Member>, b: seq<Member>)
    ensures TailText(a + b) == TailText(a) + TailText(b)
  {
    hide ShowMember;
    if a == [] {
      assert a + b == b && "" + TailText(b) == TailText(b);
    } else {
      TailAppend(a[1..], b);
      assert (a + b)[1..] == a[1..] + b;
      var h := ", " + ShowMember(a[0]);
      assert h + (TailText(a[1..]) + TailText(b)) == h + TailText(a[1..]) + TailText(b);
    }
  }

  lemma TailOne(m: Member)
    ensures TailText([m]) == ", " + ShowMember(m)
  {
    hide ShowMember;
    assert TailText([m]) == ", " + ShowMember(m) + TailText([]);
    assert ", " + ShowMember(m) + "" == ", " + ShowMember(m);
  }

  lemma FieldIsMember(key: string, j: Json)
    ensures ShowMember(Member(key, j)) == Field(key, Show(j))
  {
    hide Quoted;
  }

  lemma RangeIsTail(d: Demand)
    ensures RangeText(d) == TailText(RangeMembers(d))
  {
    hide ShowMember, Field, Pages, TailText, Numerals.Decimal, Numerals.Hex, Quoted;
    var p := Member("pages-count", Num(if d.size != 0 then Pages(d) else 0));
    TailOne(p);
    if d.size != 0 {
      var b := Member("base-address", Str("0x" + Hex(RoundDown(d.base))));
      FieldIsMember("base-address", b.val);
      FieldIsMember("pages-count", Num(Pages(d)));
      TailOne(b);
      TailAppend([b], [p]);
      assert RangeMembers(d) == [b] + [p];
    } else {
      FieldIsMember("pages-count", Num(0));
      assert Decimal(0) == "0" by { DecimalZero(); }
    }
  }

  lemma DecimalZero()
    ensures Decimal(0) == "0"
  {
  }

  lemma {:induction false} ItemsSnoc(xs: seq<Json>, x: Json)
    ensures ShowItems(xs + [x]) == ShowItems(xs) + ((if xs != [] then ", " else "") + Show(x))
  {
    hide Show;
    if xs == [] {
      assert xs + [x] == [x] && "" + ("" + Show(x)) == Show(x);
    } else if |xs| == 1 {
      assert (xs + [x])[1..] == [x] && (xs + [x])[0] == xs[0];
    } else {
      ItemsSnoc(xs[1..], x);
      assert (xs + [x])[1..] == xs[1..] + [x];
      assert (xs + [x])[0] == xs[0];
      var a, b, c := Show(xs[0]), ShowItems(xs[1..]), ", " + Show(x);
      assert a + (", " + (b + c)) == a + (", " + b) + c;
    }
  }

  lemma {:induction false} IrqsAreItems(irqs: seq<nat>)
    ensures IrqsText(irqs) == ShowItems(IrqJsons(irqs))
  {
    hide IrqText, Numerals.Decimal, Show;
    if irqs != [] {
      var init, last := irqs[..|irqs|-1], irqs[|irqs|-1];
      IrqsAreItems(init);
      ItemsSnoc(IrqJsons(init), IrqJson(last));
      IrqIsItem(last);
    }
  }

  lemma IrqIsItem(irq: nat)
    ensures IrqText(irq) == Show(IrqJson(irq))
  {
    hide Numerals.Decimal, Quoted;
    var m := Member("id", Num(irq));
    FieldIsMember("id", Num(irq));
    ShowNum(irq);
    assert ShowMembers([m]) == ShowMember(m);
  }

  lemma {:induction false} StreamsAreItems(ns: seq<nat>)
    ensures StreamsText(ns) == ShowItems(NumJsons(ns))
  {
    hide Numerals.Decimal;
    if ns != [] {
      var init := ns[..|ns|-1];
      StreamsAreItems(init);
      ItemsSnoc(NumJsons(init), Num(ns[|ns|-1]));
    }
  }

  /** `, "key": [items]`. */
  lemma ArrayIsTail(key: string, items: seq<Json>)
    ensures TailText([Member(key, Arr(items))]) == ", " + (Quoted(key) + (": " + "[")) + ShowItems(items) + "]"
  {
    hide Quoted, ShowItems, TailText;
    var m := Member(key, Arr(items));
    TailOne(m);
    var q, t := Quoted(key), ShowItems(items);
    assert ShowMember(m) == q + (": " + ("[" + (t + "]")));
    assert ", " + (q + (": " + ("[" + (t + "]")))) == ", " + (q + (": " + "[")) + t + "]";
  }

  lemma IrqPartIsTail(d: Demand)
    requires WellSized(d)
    ensures IrqPart(d) == TailText(IrqMembers(d))
  {
    hide Quoted, ShowItems, IrqsText;
    if d.nrIrqs != 0 {
      IrqsAreItems(Irqs(d));
      ArrayIsTail("interrupts", IrqJsons(Irqs(d)));
    }
  }

  lemma StreamPartIsTail(d: Demand)
    requires WellSized(d)
    ensures StreamPart(d) == TailText(StreamMembers(d))
  {
    hide Quoted, ShowItems, StreamsText, Field, TailText, ShowMember;
    if d.nrStreams != 0 {
      var a := Member("smmu-id", Num(d.smmuId));
      var b := Member("stream-ids", Arr(NumJsons(Streams(d))));
      StreamsAreItems(Streams(d));
      ArrayIsTail("stream-ids", NumJsons(Streams(d)));
      FieldIsMember("smmu-id", Num(d.smmuId));
      ShowNum(d.smmuId);
      TailOne(a);
      TailAppend([a], [b]);
      assert StreamMembers(d) == [a] + [b];
      var f, open, t := Field("smmu-id", Decimal(d.smmuId)), Quoted("stream-ids") + (": " + "["), StreamsText(Streams(d));
      assert ", " + (f + (", " + open)) + t + "]" == (", " + f) + (", " + open + t + "]");
    } else {
      TailEmpty();
    }
  }

  lemma TailEmpty()
    ensures TailText([]) == ""
  {
  }

  /** The text of a region is its separator, a line break and the printed object. */
  lemma RegionIsShown(name: string, d: Demand, count: nat)
    requires WellSized(d)
    ensures RegionText(name, d, count)
         == (if count > 0 then "," else "") + ("\n" + (" " + (" " + Show(Obj(RegionMembers(name, d))))))
  {
    hide Quoted, Field, RangeText, IrqPart, StreamPart, TailText, ShowMember, ShowMembers, HexText, RangeMembers, IrqMembers,
         StreamMembers;
    var m := Member("description", Str(name));
    var a := Member("attributes", Str("0x" + Hex(d.attributes)));
    RangeIsTail(d);
    IrqPartIsTail(d);
    StreamPartIsTail(d);
    AttributesIsTail(d);
    var r, i, s := RangeMembers(d), IrqMembers(d), StreamMembers(d);
    TailAppend(i, s);
    TailAppend([a], i + s);
    TailAppend(r, [a] + (i + s));
    ShowWithTail(m, r + ([a] + (i + s)));
    FieldIsMember("description", Str(name));
    ShowStr(name);
    RegionPieces((if count > 0 then "," else ""), ShowMember(m), TailText(r), TailText([a]), TailText(i), TailText(s));
    assert Show(Obj(RegionMembers(name, d)))
        == "{" + ((ShowMember(m) + (TailText(r) + (TailText([a]) + (TailText(i) + TailText(s))))) + "}");
  }

  lemma AttributesIsTail(d: Demand)
    ensures ", " + Field("attributes", HexText(d.attributes))
         == TailText([Member("attributes", Str("0x" + Hex(d.attributes)))])
  {
    hide Quoted, Field, TailText, ShowMember;
    FieldIsMember("attributes", Str("0x" + Hex(d.attributes)));
    ShowStr("0x" + Hex(d.attributes));
    TailOne(Member("attributes", Str("0x" + Hex(d.attributes))));
  }

  lemma RegionPieces(sep: string, m: string, r: string, a: string, i: string, s: string)
    ensures (sep + ("\n  {" + m)) + r + a + i + s + "}"
         == sep + ("\n" + (" " + (" " + ("{" + ((m + (r + (a + (i + s)))) + "}")))))
  {
    assert "\n  {" == "\n" + (" " + (" " + "{"));
    assert ("\n  {" + m) == "\n" + (" " + (" " + ("{" + m)));
  }

  // ===== reading the array of regions =====

  /** Items on lines of their own. */
  function Lines(js: seq<Json>): string
  {
    if js == [] then ""
    else Lines(js[..|js|-1]) + ((if |js| > 1 then "," else "") + ("\n" + (" " + (" " + Show(js[|js|-1])))))
  }

  lemma {:induction false} CountsJsons(devs: seq<Device>)
    requires AllSized(devs)
    ensures |RegionJsons(devs)| == Count(devs)
  {
    if devs != [] {
      CountsJsons(devs[..|devs|-1]);
    }
  }

  lemma {:induction false} RegionsAreLines(devs: seq<Device>)
    requires AllSized(devs)
    ensures RegionsText(devs) == Lines(RegionJsons(devs))
  {
    hide RegionText, Show, RegionMembers;
    if devs != [] {
      var init, dev := devs[..|devs|-1], devs[|devs|-1];
      RegionsAreLines(init);
      CountsJsons(init);
      if dev.demand.Some? {
        RegionIsShown(dev.name, dev.demand.value, Count(init));
        var j := Obj(RegionMembers(dev.name, dev.demand.value));
        assert RegionJsons(devs) == RegionJsons(init) + [j];
      } else {
        assert RegionsText(init) + "" == RegionsText(init) && RegionJsons(init) + [] == RegionJsons(init);
      }
    }
  }

  /** The lines, item by item from the front. */
  function Rest(js: seq<Json>): string
    requires js != []
  {
    "\n" + (" " + (" " + (Show(js[0]) + if |js| > 1 then "," + Rest(js[1..]) else "")))
  }

  lemma {:induction false} RestSnoc(js: seq<Json>, j: Json)
    requires js != []
    ensures Rest(js + [j]) == Rest(js) + ("," + ("\n" + (" " + (" " + Show(j)))))
  {
    hide Show;
    var ks := js + [j];
    var last := "\n" + (" " + (" " + Show(j)));
    assert ks[0] == js[0] && ks[1..] == js[1..] + [j];
    if |js| == 1 {
      assert ks[1..] == [j];
      assert Rest([j]) == last by { assert Show(j) + "" == Show(j); }
      assert Show(js[0]) + "" + ("," + last) == Show(js[0]) + ("," + Rest(ks[1..]));
      LineAppend(Show(js[0]) + "", "," + last);
    } else {
      RestSnoc(js[1..], j);
      assert Show(js[0]) + ("," + (Rest(js[1..]) + ("," + last))) == Show(js[0]) + ("," + Rest(js[1..])) + ("," + last);
      LineAppend(Show(js[0]) + ("," + Rest(js[1..])), "," + last);
    }
  }

  lemma LineAppend(a: string, b: string)
    ensures "\n" + (" " + (" " + (a + b))) == "\n" + (" " + (" " + a)) + b
  {
  }

  lemma {:induction false} LinesAreRest(js: seq<Json>)
    requires js != []
    ensures Lines(js) == Rest(js)
  {
    hide Show;
    var init, last := js[..|js|-1], js[|js|-1];
    assert js == init + [last];
    if init == [] {
      assert js == [last] && Lines([]) == "";
      assert Show(last) + "" == Show(last);
    } else {
      LinesAreRest(init);
      RestSnoc(init, last);
    }
  }

  lemma {:induction false} ReadLines(js: seq<Json>, rest: string)
    requires js != [] && PlainItems(js)
    ensures ReadItems(Rest(js) + ("\n" + ("]" + rest))) == Ok(js, rest)
    decreases |js|
  {
    hide ReadValue, ReadItems, Show, Plain;
    var v := js[0];
    var end := "\n" + ("]" + rest);
    if |js| == 1 {
      var tail := "\n" + ("]" + rest);
      assert Rest(js) + end == "\n" + (" " + (" " + (Show(v) + tail)));
      ThreeSkips(Show(v) + tail);
      ReadShown(v, tail);
      SkipOne("]" + rest);
      SkipNone("]" + rest);
      ItemsStep(Show(v) + tail, v, tail, [], rest);
      assert js == [v];
    } else {
      var more := Rest(js[1..]) + end;
      var tail := "," + more;
      ReadLines(js[1..], rest);
      assert Rest(js) + end == "\n" + (" " + (" " + (Show(v) + tail)));
      ThreeSkips(Show(v) + tail);
      ReadShown(v, tail);
      SkipNone(tail);
      ItemsStep(Show(v) + tail, v, tail, js[1..], rest);
      assert js == [v] + js[1..];
    }
  }

  lemma ThreeSkips(s: string)
    ensures ReadItems("\n" + (" " + (" " + s))) == ReadItems(s)
  {
    hide ReadItems;
    ItemsSkip(s);
    ItemsSkip(" " + s);
    ItemsSkip(" " + (" " + s));
  }

  // ===== the whole report =====

  /** Names that need no escaping. */
  ghost predicate PlainNames(devs: seq<Device>) {
    forall dev :: dev in devs && dev.demand.Some? ==> IsPlain(dev.name)
  }

  lemma HexIsPlain(n: nat)
    ensures IsPlain("0x" + Hex(n))
  {
    hide Numerals.Hex;
    var h := Hex(n);
    forall i | 0 <= i < |"0x" + h|
      ensures IsPlainChar(("0x" + h)[i])
    {
      if i >= 2 {
        assert ("0x" + h)[i] == h[i-2] && h[i-2] in h;
      }
    }
  }

  lemma {:induction false} PlainAppend(a: seq<Member>, b: seq<Member>)
    ensures PlainMembers(a + b) <==> PlainMembers(a) && PlainMembers(b)
  {
    hide Plain;
    if a == [] {
      assert a + b == b;
    } else {
      PlainAppend(a[1..], b);
      assert (a + b)[1..] == a[1..] + b;
    }
  }

  lemma {:induction false} IrqsArePlain(irqs: seq<nat>)
    ensures PlainItems(IrqJsons(irqs))
  {
    if irqs != [] {
      IrqsArePlain(irqs[..|irqs|-1]);
      assert IsPlain("id");
      PlainOne(Member("id", Num(irqs[|irqs|-1])));
      PlainSnoc(IrqJsons(irqs[..|irqs|-1]), IrqJson(irqs[|irqs|-1]));
    }
  }

  lemma {:induction false} NumsArePlain(ns: seq<nat>)
    ensures PlainItems(NumJsons(ns))
  {
    if ns != [] {
      NumsArePlain(ns[..|ns|-1]);
      PlainSnoc(NumJsons(ns[..|ns|-1]), Num(ns[|ns|-1]));
    }
  }

  lemma {:induction false} PlainSnoc(js: seq<Json>, j: Json)
    requires PlainItems(js) && Plain(j)
    ensures PlainItems(js + [j])
  {
    hide Plain;
    if js == [] {
      assert js + [j] == [j] && [j][1..] == [];
    } else {
      PlainSnoc(js[1..], j);
      assert (js + [j])[1..] == js[1..] + [j];
    }
  }

  lemma PlainOne(m: Member)
    requires IsPlain(m.key) && Plain(m.val)
    ensures PlainMembers([m])
  {
    hide Plain, IsPlain;
    assert [m][1..] == [];
  }

  lemma RegionIsPlain(name: string, d: Demand)
    requires WellSized(d) && IsPlain(name)
    ensures Plain(Obj(RegionMembers(name, d)))
  {
    hide PlainMembers, Numerals.Hex, Pages, IrqJsons, NumJsons, PlainItems;
    HexIsPlain(RoundDown(d.base));
    HexIsPlain(d.attributes);
    IrqsArePlain(Irqs(d));
    NumsArePlain(Streams(d));
    var desc, attr := Member("description", Str(name)), Member("attributes", Str("0x" + Hex(d.attributes)));
    var base, pages := Member("base-address", Str("0x" + Hex(RoundDown(d.base)))), Member("pages-count", Num(Pages(d)));
    var none := Member("pages-count", Num(0));
    var ints := Member("interrupts", Arr(IrqJsons(Irqs(d))));
    var smmu, ids := Member("smmu-id", Num(d.smmuId)), Member("stream-ids", Arr(NumJsons(Streams(d))));
    PlainOne(desc);
    PlainOne(attr);
    PlainOne(base);
    PlainOne(pages);
    PlainOne(none);
    PlainOne(ints);
    PlainOne(smmu);
    PlainOne(ids);
    PlainAppend([base], [pages]);
    PlainAppend([smmu], [ids]);
    assert [base] + [pages] == [base, pages] && [smmu] + [ids] == [smmu, ids];
    PlainNone();
    var r, i, s := RangeMembers(d), IrqMembers(d), StreamMembers(d);
    PlainAppend(i, s);
    PlainAppend([attr], i + s);
    PlainAppend(r, [attr] + (i + s));
    PlainAppend([desc], r + ([attr] + (i + s)));
  }

  lemma PlainNone()
    ensures PlainMembers([])
  {
  }

  lemma {:induction false} RegionsArePlain(devs: seq<Device>)
    requires AllSized(devs) && PlainNames(devs)
    ensures PlainItems(RegionJsons(devs))
  {
    hide Plain, RegionMembers;
    if devs != [] {
      var init, dev := devs[..|devs|-1], devs[|devs|-1];
      assert dev in devs;
      RegionsArePlain(init);
      if dev.demand.Some? {
        RegionIsPlain(dev.name, dev.demand.value);
        PlainSnoc(RegionJsons(init), Obj(RegionMembers(dev.name, dev.demand.value)));
      } else {
        assert RegionJsons(init) + [] == RegionJsons(init);
      }
    }
  }

  /** The array: `[` regions, a line break if there are any, `]`. */
  lemma ReadRegionArray(js: seq<Json>, rest: string)
    requires PlainItems(js)
    ensures ReadValue("[" + (Lines(js) + ((if |js| > 0 then "\n" else "") + ("]" + rest)))) == Ok(Arr(js), rest)
  {
    hide ReadItems, Lines, PlainItems;
    if js == [] {
      LinesNone();
      ReadEmptyArr(rest);
      ShowEmptyArr(rest);
      assert "" + ("" + ("]" + rest)) == "]" + rest;
    } else {
      LinesAreRest(js);
      ReadLines(js, rest);
      var body := Rest(js) + ("\n" + ("]" + rest));
      var s := "[" + body;
      assert s[1..] == body;
      SkipNone(s);
      RestStarts(js, "\n" + ("]" + rest));
    }
  }

  lemma LinesNone()
    ensures Lines([]) == ""
  {
  }

  lemma ShowEmptyArr(rest: string)
    ensures Show(Arr([])) + rest == "[" + ("]" + rest)
  {
  }

  lemma RestStarts(js: seq<Json>, tail: string)
    requires js != []
    ensures SkipWs(Rest(js) + tail) != "" && SkipWs(Rest(js) + tail)[0] != ']'
  {
    hide Show, SkipWs;
    var more := if |js| > 1 then "," + Rest(js[1..]) else "";
    var s := Show(js[0]) + more + tail;
    assert Rest(js) + tail == "\n" + (" " + (" " + s));
    SkipOne(s);
    SkipOne(" " + s);
    SkipOne(" " + (" " + s));
    ShowStarts(js[0]);
    assert s[0] == Show(js[0])[0];
    SkipNone(s);
  }

  lemma MemberText(key: string, v: string, j: Json, rest: string)
    requires IsPlain(key) && ReadValue(v + rest) == Ok(j, rest)
    ensures ReadMember(Quoted(key) + (": " + (v + rest))) == Ok(Member(key, j), rest)
  {
    hide ReadValue;
    var t := v + rest;
    var c := ":" + (" " + t);
    var s := Quoted(key) + (": " + t);
    assert s == "\"" + (key + ("\"" + c));
    assert s[1..] == key + ("\"" + c);
    SkipNone(s);
    ReadsString(key, c);
    SkipNone(c);
    assert c[1..] == " " + t;
    ValueSkip(t);
  }

  lemma ReportPieces(f: string, v: string, k: string, lines: string, nl: string)
    ensures ("{" + (f + (", " + (v + (", " + (k + (": " + "["))))))) + lines + (nl + "]}\n")
         == "{" + (f + ("," + (" " + (v + ("," + (" " + (k + (": " + ("[" + (lines + (nl + ("]" + ("}" + "\n")))))))))))))
  {
    var a := "]}\n";
    assert a == "]" + ("}" + "\n");
    assert ", " == "," + " ";
    var arr := "[" + (lines + (nl + a));
    var m3 := k + (": " + arr);
    assert (k + (": " + "[")) + lines + (nl + a) == m3;
    var m2 := v + ("," + (" " + m3));
    assert (v + (", " + (k + (": " + "[")))) + lines + (nl + a) == m2;
    assert (f + (", " + (v + (", " + (k + (": " + "[")))))) + lines + (nl + a) == f + ("," + (" " + m2));
  }

  lemma KeysArePlain()
    ensures IsPlain("format") && IsPlain("vocabulary") && IsPlain("device-regions")
    ensures IsPlain("kdal-demand/1") && IsPlain("FF-A partition manifest binding")
  {
  }

  /** Reading the whole report gives its JSON value and leaves the final line break. */
  lemma ReadReport(devs: seq<Device>)
    requires AllSized(devs) && PlainNames(devs)
    ensures ReadValue(Report(devs)) == Ok(ReportJson(devs), "\n")
  {
    hide ReadMember, ReadMembers, Lines, RegionsText, RegionJsons, PlainItems, IsPlain, Quoted, Show, ShowMember;
    var js := RegionJsons(devs);
    RegionsAreLines(devs);
    CountsJsons(devs);
    RegionsArePlain(devs);
    KeysArePlain();
    var nl := if Count(devs) > 0 then "\n" else "";
    var f, v, k := Field("format", Quoted("kdal-demand/1")),
                   Field("vocabulary", Quoted("FF-A partition manifest binding")), Quoted("device-regions");
    ReportPieces(f, v, k, Lines(js), nl);
    var end := "}" + "\n";
    var arr := "[" + (Lines(js) + (nl + "]"));
    ReadRegionArray(js, end);
    assert arr + end == "[" + (Lines(js) + (nl + ("]" + end)));
    var m1, m2, m3 := Member("format", Str("kdal-demand/1")),
                      Member("vocabulary", Str("FF-A partition manifest binding")), Member("device-regions", Arr(js));
    MemberText("device-regions", arr, Arr(js), end);
    var t3 := k + (": " + (arr + end));
    MembersEnd(t3, m3, "\n");
    ReadTextMember("vocabulary", "FF-A partition manifest binding", "," + (" " + t3));
    MembersMore(v + ("," + (" " + t3)), m2, t3, [m3], "\n");
    var t2 := v + ("," + (" " + t3));
    ReadTextMember("format", "kdal-demand/1", "," + (" " + t2));
    MembersMore(f + ("," + (" " + t2)), m1, t2, [m2] + [m3], "\n");
    var t1 := f + ("," + (" " + t2));
    assert Report(devs) == "{" + t1;
    ObjOf(t1, [m1] + ([m2] + [m3]), "\n");
    assert [m1] + ([m2] + [m3]) == [m1, m2, m3];
  }

  lemma ReadTextMember(key: string, w: string, rest: string)
    requires IsPlain(key) && IsPlain(w)
    ensures ReadMember(Field(key, Quoted(w)) + rest) == Ok(Member(key, Str(w)), rest)
  {
    hide ReadMember, Quoted, IsPlain;
    ReadStrValue(w, rest);
    MemberText(key, Quoted(w), Str(w), rest);
    assert Field(key, Quoted(w)) + rest == Quoted(key) + (": " + (Quoted(w) + rest));
  }

  lemma MembersEnd(s: string, m: Member, end: string)
    requires ReadMember(s) == Ok(m, "}" + end)
    ensures ReadMembers(s) == Ok([m], end)
  {
    hide ReadMember, ReadMembers;
    SkipNone("}" + end);
    MembersStep(s, m, "}" + end, [], end);
  }

  lemma MembersMore(s: string, m: Member, more: string, ms: seq<Member>, end: string)
    requires ReadMember(s) == Ok(m, "," + (" " + more)) && ReadMembers(more) == Ok(ms, end)
    ensures ReadMembers(s) == Ok([m] + ms, end)
  {
    hide ReadMember, ReadMembers;
    SkipNone("," + (" " + more));
    MembersSkip(more);
    MembersStep(s, m, "," + (" " + more), ms, end);
  }

  lemma ObjOf(s: string, ms: seq<Member>, end: string)
    requires ReadMembers(s) == Ok(ms, end)
    ensures ReadValue("{" + s) == Ok(Obj(ms), end)
  {
    hide ReadMembers;
    SkipNone("{" + s);
    assert ("{" + s)[1..] == s;
  }
}
