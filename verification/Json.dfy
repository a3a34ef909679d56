/** A reader and a printer for the part of JSON (RFC 8259, sections 4 to 7) that the
    demand report uses: objects, arrays, unescaped strings and natural numbers. */
module Json {
  import opened Numerals

  datatype Json = Str(s: string) | Num(n: nat) | Arr(items: seq<Json>) | Obj(members: seq<Member>)
  datatype Member = Member(key: string, val: Json)

  // ===== reader =====

  predicate IsWs(c: char) { c == ' ' || c == '\t' || c == '\n' || c == '\r' }

  function SkipWs(s: string): (r: string)
    ensures |r| <= |s|
  {
    if s != "" && IsWs(s[0]) then SkipWs(s[1..]) else s
  }

  /** Characters a string may hold without escaping. */
  predicate IsPlainChar(c: char) { c != '"' && c != '\\' && c >= ' ' }

  predicate IsPlain(s: string) { forall i :: 0 <= i < |s| ==> IsPlainChar(s[i]) }

  /** What was read, and the text after it. */
  datatype Read<+T> = Fail | Ok(val: T, rest: string)

  /** The rest of a string after its opening quote. */
  function ReadString(s: string): (r: Read<string>)
    ensures r.Ok? ==> |r.rest| < |s|
  {
    if s == "" then Fail
    else if s[0] == '"' then Ok("", s[1..])
    else if !IsPlainChar(s[0]) then Fail
    else
      match ReadString(s[1..])
      case Fail => Fail
      case Ok(w, rest) => Ok([s[0]] + w, rest)
  }

  function DigitCount(s: string): (n: nat)
    ensures n <= |s|
  {
    if s != "" && IsDigit(s[0]) then 1 + DigitCount(s[1..]) else 0
  }

  function ReadValue(s: string): (r: Read<Json>)
    ensures r.Ok? ==> |r.rest| < |s|
    decreases |s|, 0
  {
    var w := SkipWs(s);
    if w == "" then Fail
    else if w[0] == '"' then
      match ReadString(w[1..])
      case Fail => Fail
      case Ok(v, rest) => Ok(Str(v), rest)
    else if IsDigit(w[0]) then
      Ok(Num(DigitsValue(w[..DigitCount(w)], 10)), w[DigitCount(w)..])
    else if w[0] == '[' then
      if SkipWs(w[1..]) != "" && SkipWs(w[1..])[0] == ']' then Ok(Arr([]), SkipWs(w[1..])[1..])
      else
        match ReadItems(w[1..])
        case Fail => Fail
        case Ok(vs, rest) => Ok(Arr(vs), rest)
    else if w[0] == '{' then
      match ReadMembers(w[1..])
      case Fail => Fail
      case Ok(ms, rest) => Ok(Obj(ms), rest)
    else Fail
  }

  /** One or more comma-separated values and the closing bracket. */
  function ReadItems(s: string): (r: Read<seq<Json>>)
    ensures r.Ok? ==> |r.rest| < |s|
    decreases |s|, 1
  {
    match ReadValue(s)
    case Fail => Fail
    case Ok(v, rest) =>
      var w := SkipWs(rest);
      if w == "" then Fail
      else if w[0] == ']' then Ok([v], w[1..])
      else if w[0] == ',' then
        match ReadItems(w[1..])
        case Fail => Fail
        case Ok(vs, rest') => Ok([v] + vs, rest')
      else Fail
  }

  function ReadMember(s: string): (r: Read<Member>)
    ensures r.Ok? ==> |r.rest| < |s|
    decreases |s|, 1
  {
    var w := SkipWs(s);
    if w == "" || w[0] != '"' then Fail
    else
      match ReadString(w[1..])
      case Fail => Fail
      case Ok(key, rest) =>
        var c := SkipWs(rest);
        if c == "" || c[0] != ':' then Fail
        else
          match ReadValue(c[1..])
          case Fail => Fail
          case Ok(v, rest') => Ok(Member(key, v), rest')
  }

  function ReadMembers(s: string): (r: Read<seq<Member>>)
    ensures r.Ok? ==> |r.rest| < |s|
    decreases |s|, 2
  {
    match ReadMember(s)
    case Fail => Fail
    case Ok(m, rest) =>
      var w := SkipWs(rest);
      if w == "" then Fail
      else if w[0] == '}' then Ok([m], w[1..])
      else if w[0] == ',' then
        match ReadMembers(w[1..])
        case Fail => Fail
        case Ok(ms, rest') => Ok([m] + ms, rest')
      else Fail
  }

  // ===== printer =====

  function Quoted(s: string): string { "\"" + (s + "\"") }

  function Show(j: Json): string
    decreases j, 0
  {
    match j
    case Str(s) => Quoted(s)
    case Num(n) => Decimal(n)
    case Arr(items) => "[" + (ShowItems(items) + "]")
    case Obj(members) => "{" + (ShowMembers(members) + "}")
  }

  function ShowItems(items: seq<Json>): string
    decreases items, 1
  {
    if items == [] then ""
    else if |items| == 1 then Show(items[0])
    else Show(items[0]) + (", " + ShowItems(items[1..]))
  }

  function ShowMember(m: Member): string
    decreases m, 1
  {
    Quoted(m.key) + (": " + Show(m.val))
  }

  function ShowMembers(members: seq<Member>): string
    decreases members, 2
  {
    if members == [] then ""
    else if |members| == 1 then ShowMember(members[0])
    else ShowMember(members[0]) + (", " + ShowMembers(members[1..]))
  }

  /** Values whose strings need no escaping; objects have at least one member. */
  predicate Plain(j: Json)
    decreases j, 0
  {
    match j
    case Str(s) => IsPlain(s)
    case Num(_) => true
    case Arr(items) => PlainItems(items)
    case Obj(members) => members != [] && PlainMembers(members)
  }

  predicate PlainItems(items: seq<Json>)
    decreases items, 1
  {
    items == [] || (Plain(items[0]) && PlainItems(items[1..]))
  }

  predicate PlainMembers(members: seq<Member>)
    decreases members, 1
  {
    members == [] || (IsPlain(members[0].key) && Plain(members[0].val) && PlainMembers(members[1..]))
  }

  // ===== reading undoes printing =====

  lemma {:induction false} ReadsString(w: string, rest: string)
    requires IsPlain(w)
    ensures ReadString(w + ("\"" + rest)) == Ok(w, rest)
  {
    if w == "" {
      assert w + ("\"" + rest) == "\"" + rest;
      assert ("\"" + rest)[1..] == rest;
    } else {
      ReadsString(w[1..], rest);
      assert [w[0]] + w[1..] == w;
      assert (w + ("\"" + rest))[1..] == w[1..] + ("\"" + rest);
    }
  }

  lemma {:induction false} CountsDigits(w: string, rest: string)
    requires (forall c :: c in w ==> IsDigit(c)) && (rest == "" || !IsDigit(rest[0]))
    ensures DigitCount(w + rest) == |w|
  {
    if w == "" {
      assert w + rest == rest;
    } else {
      CountsDigits(w[1..], rest);
      assert (w + rest)[1..] == w[1..] + rest;
      assert w[0] in w;
    }
  }

  /** Text that does not run on a number before it. */
  predicate Ends(rest: string) { rest == "" || !IsDigit(rest[0]) }

  lemma SkipNone(s: string)
    requires s != "" && !IsWs(s[0])
    ensures SkipWs(s) == s
  {
  }

  lemma SkipOne(s: string)
    ensures SkipWs(" " + s) == SkipWs(s) && SkipWs("\n" + s) == SkipWs(s)
  {
    assert (" " + s)[1..] == s && ("\n" + s)[1..] == s;
  }

  lemma ReadStrValue(w: string, rest: string)
    requires IsPlain(w)
    ensures ReadValue(Quoted(w) + rest) == Ok(Str(w), rest)
  {
    var s := Quoted(w) + rest;
    ReadsString(w, rest);
    assert s[1..] == w + ("\"" + rest);
    SkipNone(s);
  }

  lemma ReadNumValue(n: nat, rest: string)
    requires Ends(rest)
    ensures ReadValue(Decimal(n) + rest) == Ok(Num(n), rest)
  {
    hide Numerals.Decimal, Numerals.DigitsValue;
    var w := Decimal(n);
    var s := w + rest;
    assert s[0] == w[0] && w[0] in w;
    CountsDigits(w, rest);
    DecimalValue(n);
    assert s[..|w|] == w && s[|w|..] == rest;
    SkipNone(s);
  }

  /** A printed value starts with a character that is no white space and no bracket end. */
  lemma ShowStarts(j: Json)
    ensures Show(j) != "" && !IsWs(Show(j)[0]) && Show(j)[0] != ']'
  {
    if j.Num? {
      assert Decimal(j.n)[0] in Decimal(j.n);
    }
  }

  lemma {:induction false} ReadShown(j: Json, rest: string)
    requires Plain(j) && Ends(rest)
    ensures ReadValue(Show(j) + rest) == Ok(j, rest)
    decreases j, 0
  {
    hide ReadValue, Show, Numerals.Decimal;
    match j
    case Str(w) =>
      ShowStr(w);
      ReadStrValue(w, rest);
    case Num(n) =>
      ShowNum(n);
      ReadNumValue(n, rest);
    case Arr(items) =>
      if items == [] {
        ReadEmptyArr(rest);
      } else {
        ReadShownItems(items, rest);
        ReadArr(items, rest);
      }
    case Obj(members) =>
      ReadShownMembers(members, rest);
      ReadObj(members, rest);
  }

  lemma ShowStr(w: string)
    ensures Show(Str(w)) == Quoted(w)
  {
  }

  lemma ShowNum(n: nat)
    ensures Show(Num(n)) == Decimal(n)
  {
  }

  lemma ReadEmptyArr(rest: string)
    ensures ReadValue(Show(Arr([])) + rest) == Ok(Arr([]), rest)
  {
    var s := Show(Arr([])) + rest;
    assert s == "[" + ("]" + rest);
    assert s[1..] == "]" + rest;
    SkipNone(s);
    SkipNone(s[1..]);
    assert s[1..][1..] == rest;
  }

  lemma ReadArr(items: seq<Json>, rest: string)
    requires items != [] && ReadItems(ShowItems(items) + ("]" + rest)) == Ok(items, rest)
    ensures ReadValue(Show(Arr(items)) + rest) == Ok(Arr(items), rest)
  {
    hide ReadItems;
    var s := Show(Arr(items)) + rest;
    var body := ShowItems(items) + ("]" + rest);
    assert s == "[" + body && s[1..] == body;
    SkipNone(s);
    ShowStarts(items[0]);
    assert body[0] == Show(items[0])[0];
    SkipNone(body);
  }

  lemma ReadObj(members: seq<Member>, rest: string)
    requires members != [] && ReadMembers(ShowMembers(members) + ("}" + rest)) == Ok(members, rest)
    ensures ReadValue(Show(Obj(members)) + rest) == Ok(Obj(members), rest)
  {
    hide ReadMembers;
    var s := Show(Obj(members)) + rest;
    assert s == "{" + (ShowMembers(members) + ("}" + rest));
    assert s[1..] == ShowMembers(members) + ("}" + rest);
    SkipNone(s);
  }

  /** One item followed by the closing bracket, or by a comma and more items. */
  lemma ItemsStep(s: string, v: Json, rest: string, vs: seq<Json>, end: string)
    requires ReadValue(s) == Ok(v, rest)
    ensures SkipWs(rest) == "]" + end ==> ReadItems(s) == Ok([v], end)
    ensures forall more :: SkipWs(rest) == "," + more && ReadItems(more) == Ok(vs, end)
              ==> ReadItems(s) == Ok([v] + vs, end)
  {
    hide ReadValue;
    assert ("]" + end)[1..] == end;
    forall more | SkipWs(rest) == "," + more && ReadItems(more) == Ok(vs, end)
      ensures ReadItems(s) == Ok([v] + vs, end)
    {
      assert ("," + more)[1..] == more;
    }
  }

  lemma ItemsSkip(s: string)
    ensures ReadItems(" " + s) == ReadItems(s) && ReadItems("\n" + s) == ReadItems(s)
  {
    hide ReadItems;
    ValueSkip(s);
    ItemsByValue(" " + s, s);
    ItemsByValue("\n" + s, s);
  }

  lemma ItemsByValue(s: string, t: string)
    requires ReadValue(s) == ReadValue(t)
    ensures ReadItems(s) == ReadItems(t)
  {
    hide ReadValue;
  }

  lemma ValueSkip(s: string)
    ensures ReadValue(" " + s) == ReadValue(s) && ReadValue("\n" + s) == ReadValue(s)
  {
    hide SkipWs, ReadItems, ReadMembers;
    SkipOne(s);
  }

  lemma {:induction false} ReadShownItems(items: seq<Json>, rest: string)
    requires items != [] && PlainItems(items)
    ensures ReadItems(ShowItems(items) + ("]" + rest)) == Ok(items, rest)
    decreases items, 1
  {
    hide ReadValue, ReadItems, Plain, Show;
    var v := items[0];
    if |items| == 1 {
      var tail := "]" + rest;
      ReadShown(v, tail);
      SkipNone(tail);
      ItemsStep(Show(v) + tail, v, tail, [], rest);
      assert items == [v];
    } else {
      var more := ShowItems(items[1..]) + ("]" + rest);
      var tail := "," + (" " + more);
      ReadShownItems(items[1..], rest);
      ItemsSkip(more);
      ReadShown(v, tail);
      SkipNone(tail);
      ItemsStep(Show(v) + tail, v, tail, items[1..], rest);
      assert ShowItems(items) + ("]" + rest) == Show(v) + tail;
      assert items == [v] + items[1..];
    }
  }

  lemma ReadOneMember(m: Member, rest: string)
    requires IsPlain(m.key) && ReadValue(Show(m.val) + rest) == Ok(m.val, rest)
    ensures ReadMember(ShowMember(m) + rest) == Ok(m, rest)
  {
    hide ReadValue, Show;
    var v := Show(m.val) + rest;
    var c := ":" + (" " + v);
    var s := ShowMember(m) + rest;
    assert s == "\"" + (m.key + ("\"" + c));
    assert s[1..] == m.key + ("\"" + c);
    SkipNone(s);
    ReadsString(m.key, c);
    SkipNone(c);
    assert c[1..] == " " + v;
    ValueSkip(v);
  }

  lemma MembersStep(s: string, m: Member, rest: string, ms: seq<Member>, end: string)
    requires ReadMember(s) == Ok(m, rest)
    ensures SkipWs(rest) == "}" + end ==> ReadMembers(s) == Ok([m], end)
    ensures forall more :: SkipWs(rest) == "," + more && ReadMembers(more) == Ok(ms, end)
              ==> ReadMembers(s) == Ok([m] + ms, end)
  {
    hide ReadMember;
    assert ("}" + end)[1..] == end;
    forall more | SkipWs(rest) == "," + more && ReadMembers(more) == Ok(ms, end)
      ensures ReadMembers(s) == Ok([m] + ms, end)
    {
      assert ("," + more)[1..] == more;
    }
  }

  lemma MembersSkip(s: string)
    ensures ReadMembers(" " + s) == ReadMembers(s)
  {
    hide ReadMembers;
    MemberSkip(s);
    MembersByMember(" " + s, s);
  }

  lemma MembersByMember(s: string, t: string)
    requires ReadMember(s) == ReadMember(t)
    ensures ReadMembers(s) == ReadMembers(t)
  {
    hide ReadMember;
  }

  lemma MemberSkip(s: string)
    ensures ReadMember(" " + s) == ReadMember(s)
  {
    hide SkipWs, ReadValue;
    SkipOne(s);
  }

  lemma {:induction false} ReadShownMembers(members: seq<Member>, rest: string)
    requires members != [] && PlainMembers(members)
    ensures ReadMembers(ShowMembers(members) + ("}" + rest)) == Ok(members, rest)
    decreases members, 1
  {
    hide ReadValue, ReadMembers, ReadMember, Plain, Show, ShowMember;
    var m := members[0];
    if |members| == 1 {
      var tail := "}" + rest;
      ReadShown(m.val, tail);
      ReadOneMember(m, tail);
      SkipNone(tail);
      MembersStep(ShowMember(m) + tail, m, tail, [], rest);
      assert members == [m];
    } else {
      var more := ShowMembers(members[1..]) + ("}" + rest);
      var tail := "," + (" " + more);
      ReadShownMembers(members[1..], rest);
      MembersSkip(more);
      ReadShown(m.val, tail);
      ReadOneMember(m, tail);
      SkipNone(tail);
      MembersStep(ShowMember(m) + tail, m, tail, members[1..], rest);
      assert ShowMembers(members) + ("}" + rest) == ShowMember(m) + tail;
      assert members == [m] + members[1..];
    }
  }
}
