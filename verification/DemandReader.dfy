/** A reader of the report: from its text to the regions it describes. */
module DemandReader {
  import opened Wrappers
  import opened Numerals
  import opened Json
  import opened Demand
  import opened DemandProofs

  /** One region of the report. */
  datatype Region = Region(name: string, base: Option<nat>, pages: nat, attributes: nat,
                           irqs: seq<nat>, smmu: Option<nat>, streams: seq<nat>)

  // ===== what a reader makes of the JSON value =====

  function Get(ms: seq<Member>, key: string): Option<Json> {
    if ms == [] then None else if ms[0].key == key then Some(ms[0].val) else Get(ms[1..], key)
  }

  function NumOf(j: Option<Json>): Option<nat> {
    if j.Some? && j.value.Num? then Some(j.value.n) else None
  }

  function HexOf(j: Option<Json>): Option<nat> {
    if j.Some? && j.value.Str? && |j.value.s| > 2 && j.value.s[..2] == "0x" then Some(DigitsValue(j.value.s[2..], 16))
    else None
  }

  function NumsOf(items: seq<Json>): seq<nat> {
    if items == [] then [] else NumsOf(items[..|items|-1]) + if items[|items|-1].Num? then [items[|items|-1].n] else []
  }

  /** The interrupt numbers: objects with an "id". */
  function IdsOf(items: seq<Json>): seq<nat> {
    if items == [] then []
    else
      var last := items[|items|-1];
      IdsOf(items[..|items|-1])
      + if last.Obj? && NumOf(Get(last.members, "id")).Some? then [NumOf(Get(last.members, "id")).value] else []
  }

  function ItemsOf(j: Option<Json>): seq<Json> {
    if j.Some? && j.value.Arr? then j.value.items else []
  }

  function RegionOfJson(j: Json): Option<Region> {
    if !j.Obj? then None
    else
      var name := Get(j.members, "description");
      var pages, attributes := NumOf(Get(j.members, "pages-count")), HexOf(Get(j.members, "attributes"));
      if name.Some? && name.value.Str? && pages.Some? && attributes.Some? then
        Some(Region(name.value.s, HexOf(Get(j.members, "base-address")), pages.value, attributes.value,
                    IdsOf(ItemsOf(Get(j.members, "interrupts"))), NumOf(Get(j.members, "smmu-id")),
                    NumsOf(ItemsOf(Get(j.members, "stream-ids")))))
      else None
  }

  function RegionsOfJson(items: seq<Json>): Option<seq<Region>> {
    if items == [] then Some([])
    else
      var init, last := RegionsOfJson(items[..|items|-1]), RegionOfJson(items[|items|-1]);
      if init.Some? && last.Some? then Some(init.value + [last.value]) else None
  }

  /** The regions in the text of a report. */
  function ReadRegions(text: string): Option<seq<Region>> {
    var r := ReadValue(text);
    if r.Ok? && SkipWs(r.rest) == "" && r.val.Obj? && Get(r.val.members, "device-regions").Some?
       && Get(r.val.members, "device-regions").value.Arr?
    then RegionsOfJson(Get(r.val.members, "device-regions").value.items)
    else None
  }

  // ===== what the report is about =====

  /** The region of a demand: its pages, its first four interrupts and stream ids. */
  function RegionOf(name: string, d: Demand): Region
    requires WellSized(d)
  {
    Region(name, if d.size != 0 then Some(RoundDown(d.base)) else None, if d.size != 0 then Pages(d) else 0, d.attributes,
           Irqs(d), if d.nrStreams != 0 then Some(d.smmuId) else None, Streams(d))
  }

  /** One region for each registered device that has a demand, in list order. */
  ghost function RegionsOf(devs: seq<Device>): seq<Region>
    requires AllSized(devs)
  {
    if devs == [] then []
    else
      var init, dev := devs[..|devs|-1], devs[|devs|-1];
      RegionsOf(init) + if dev.demand.Some? then [RegionOf(dev.name, dev.demand.value)] else []
  }

  // ===== the reader undoes the report =====

  lemma {:induction false} GetAppend(a: seq<Member>, b: seq<Member>, key: string)
    ensures Get(a + b, key) == if Get(a, key).Some? then Get(a, key) else Get(b, key)
  {
    if a == [] {
      assert a + b == b;
    } else {
      GetAppend(a[1..], b, key);
      assert (a + b)[1..] == a[1..] + b;
    }
  }

  lemma GetOne(m: Member, key: string)
    ensures Get([m], key) == if m.key == key then Some(m.val) else None
  {
    assert [m][1..] == [];
    assert Get([], key) == None;
  }

  /** The member keys of a region, by first character and length. */
  lemma KeysDiffer()
    ensures |"description"| == 11 && "description"[0] == 'd'
    ensures |"base-address"| == 12
    ensures |"pages-count"| == 11 && "pages-count"[0] == 'p'
    ensures |"attributes"| == 10 && "attributes"[0] == 'a'
    ensures |"interrupts"| == 10 && "interrupts"[0] == 'i'
    ensures |"smmu-id"| == 7
    ensures |"stream-ids"| == 10 && "stream-ids"[0] == 's'
  {
  }

  /** A key occurs in the part of the members that can hold it. */
  lemma GetInRegion(name: string, d: Demand, key: string)
    requires WellSized(d)
    ensures Get(RegionMembers(name, d), key)
         == if key == "description" then Some(Str(name))
            else if Get(RangeMembers(d), key).Some? then Get(RangeMembers(d), key)
            else if key == "attributes" then Some(Str("0x" + Hex(d.attributes)))
            else if Get(IrqMembers(d), key).Some? then Get(IrqMembers(d), key)
            else Get(StreamMembers(d), key)
  {
    hide Get, RangeMembers, IrqMembers, StreamMembers;
    var desc, attr := Member("description", Str(name)), Member("attributes", Str("0x" + Hex(d.attributes)));
    var r, i, s := RangeMembers(d), IrqMembers(d), StreamMembers(d);
    GetOne(desc, key);
    GetOne(attr, key);
    GetAppend([desc], r + ([attr] + (i + s)), key);
    GetAppend(r, [attr] + (i + s), key);
    GetAppend([attr], i + s, key);
    GetAppend(i, s, key);
  }

  lemma GetInRange(d: Demand, key: string)
    ensures Get(RangeMembers(d), key)
         == if key == "base-address" && d.size != 0 then Some(Str("0x" + Hex(RoundDown(d.base))))
            else if key == "pages-count" then Some(Num(if d.size != 0 then Pages(d) else 0))
            else None
  {
    hide Get, Pages;
    KeysDiffer();
    var b := Member("base-address", Str("0x" + Hex(RoundDown(d.base))));
    var p := Member("pages-count", Num(if d.size != 0 then Pages(d) else 0));
    GetOne(b, key);
    GetOne(p, key);
    GetAppend([b], [p], key);
    assert [b] + [p] == [b, p];
  }

  lemma GetInIrqs(d: Demand, key: string)
    requires WellSized(d)
    ensures Get(IrqMembers(d), key)
         == if key == "interrupts" && d.nrIrqs != 0 then Some(Arr(IrqJsons(Irqs(d)))) else None
  {
    GetOne(Member("interrupts", Arr(IrqJsons(Irqs(d)))), key);
  }

  lemma GetInStreams(d: Demand, key: string)
    requires WellSized(d)
    ensures Get(StreamMembers(d), key)
         == if d.nrStreams == 0 then None
            else if key == "smmu-id" then Some(Num(d.smmuId))
            else if key == "stream-ids" then Some(Arr(NumJsons(Streams(d))))
            else None
  {
    hide Get;
    KeysDiffer();
    var a, b := Member("smmu-id", Num(d.smmuId)), Member("stream-ids", Arr(NumJsons(Streams(d))));
    GetOne(a, key);
    GetOne(b, key);
    GetAppend([a], [b], key);
    assert [a] + [b] == [a, b];
    assert d.nrStreams == 0 ==> Get(StreamMembers(d), key) == None by { GetNone(key); }
  }

  lemma GetNone(key: string)
    ensures Get([], key) == None
  {
  }

  lemma {:induction false} IdsUndo(irqs: seq<nat>)
    ensures IdsOf(IrqJsons(irqs)) == irqs
  {
    hide Get;
    if irqs != [] {
      var init, last := irqs[..|irqs|-1], irqs[|irqs|-1];
      IdsUndo(init);
      GetOne(Member("id", Num(last)), "id");
      assert IrqJsons(irqs)[..|irqs|-1] == IrqJsons(init);
      assert init + [last] == irqs;
    }
  }

  lemma {:induction false} NumsUndo(ns: seq<nat>)
    ensures NumsOf(NumJsons(ns)) == ns
  {
    if ns != [] {
      var init, last := ns[..|ns|-1], ns[|ns|-1];
      NumsUndo(init);
      assert NumJsons(ns)[..|ns|-1] == NumJsons(init);
      assert init + [last] == ns;
    }
  }

  lemma HexUndo(n: nat)
    ensures HexOf(Some(Str("0x" + Hex(n)))) == Some(n)
  {
    hide Numerals.Hex, Numerals.DigitsValue;
    HexValue(n);
    assert ("0x" + Hex(n))[..2] == "0x" && ("0x" + Hex(n))[2..] == Hex(n);
  }

  lemma RegionGet(name: string, d: Demand, key: string)
    requires WellSized(d)
    ensures Get(RegionMembers(name, d), key)
         == if key == "description" then Some(Str(name))
            else if key == "base-address" && d.size != 0 then Some(Str("0x" + Hex(RoundDown(d.base))))
            else if key == "pages-count" then Some(Num(if d.size != 0 then Pages(d) else 0))
            else if key == "attributes" then Some(Str("0x" + Hex(d.attributes)))
            else if key == "interrupts" && d.nrIrqs != 0 then Some(Arr(IrqJsons(Irqs(d))))
            else if key == "smmu-id" && d.nrStreams != 0 then Some(Num(d.smmuId))
            else if key == "stream-ids" && d.nrStreams != 0 then Some(Arr(NumJsons(Streams(d))))
            else None
  {
    hide Get, Numerals.Hex, Pages, RegionMembers, RangeMembers, IrqMembers, StreamMembers;
    KeysDiffer();
    GetInRegion(name, d, key);
    GetInRange(d, key);
    GetInIrqs(d, key);
    GetInStreams(d, key);
  }

  lemma RegionUndo(name: string, d: Demand)
    requires WellSized(d)
    ensures RegionOfJson(Obj(RegionMembers(name, d))) == Some(RegionOf(name, d))
  {
    hide Get, Numerals.Hex, HexOf, Pages, RegionMembers, RangeMembers, IrqMembers, StreamMembers, IdsOf, NumsOf, IrqJsons,
         NumJsons, RoundDown;
    KeysDiffer();
    RegionGet(name, d, "description");
    RegionGet(name, d, "base-address");
    RegionGet(name, d, "pages-count");
    RegionGet(name, d, "attributes");
    RegionGet(name, d, "interrupts");
    RegionGet(name, d, "smmu-id");
    RegionGet(name, d, "stream-ids");
    HexUndo(RoundDown(d.base));
    HexUndo(d.attributes);
    IdsUndo(Irqs(d));
    NumsUndo(Streams(d));
    NoItems();
  }

  lemma NoItems()
    ensures HexOf(None) == None && IdsOf([]) == [] && NumsOf([]) == []
  {
  }

  lemma {:induction false} RegionsUndo(devs: seq<Device>)
    requires AllSized(devs)
    ensures RegionsOfJson(RegionJsons(devs)) == Some(RegionsOf(devs))
  {
    hide RegionOfJson, RegionMembers, RegionOf;
    if devs != [] {
      var init, dev := devs[..|devs|-1], devs[|devs|-1];
      RegionsUndo(init);
      if dev.demand.Some? {
        RegionUndo(dev.name, dev.demand.value);
        var j := Obj(RegionMembers(dev.name, dev.demand.value));
        assert RegionJsons(devs) == RegionJsons(init) + [j];
        assert RegionJsons(devs)[..|RegionJsons(devs)|-1] == RegionJsons(init);
      } else {
        assert RegionJsons(devs) == RegionJsons(init) && RegionsOf(devs) == RegionsOf(init);
      }
    }
  }

  /** Reading the untruncated report gives exactly the regions of the registered devices,
      in list order, for names that need no escaping. */
  lemma ReportReadsBack(devs: seq<Device>)
    requires AllSized(devs) && PlainNames(devs)
    ensures ReadRegions(Report(devs)) == Some(RegionsOf(devs))
  {
    hide ReadValue, Report, RegionsOf, RegionJsons, RegionsOfJson, Get;
    ReadReport(devs);
    RegionsUndo(devs);
    var f, v := Member("format", Str("kdal-demand/1")), Member("vocabulary", Str("FF-A partition manifest binding"));
    var a := Member("device-regions", Arr(RegionJsons(devs)));
    GetOne(f, "device-regions");
    GetOne(v, "device-regions");
    GetOne(a, "device-regions");
    GetAppend([v], [a], "device-regions");
    GetAppend([f], [v] + [a], "device-regions");
    assert [f] + ([v] + [a]) == [f, v, a];
    assert |"device-regions"| == 14 && |"format"| == 6 && |"vocabulary"| == 10;
    SkipOne("");
    assert "\n" + "" == "\n";
  }
}
