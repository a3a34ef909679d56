/** What a parsed file says about its tokens. */
module DeclProofs {
  import opened Wrappers
  import opened Tokens
  import opened ParseSpec
  import opened StmtSpec
  import opened Grammar
  import opened StmtGrammar
  import opened DeclSpec
  import opened Sema
  import opened SemaProofs
  import A = Ast
  import Bodies
  import StmtProofs

  predicate Climbing(cs: seq<Cursor>) {
    forall i, j :: 0 <= i < j < |cs| ==> cs[i].pos < cs[j].pos
  }

  // ===== registers =====

  /** The cursors at which the register block declares something, in order. */
  function RegisterStarts(t: seq<Lexeme>, c: Cursor, simplified: bool): (cs: seq<Cursor>)
    requires In(t, c)
    ensures forall i :: 0 <= i < |cs| ==> c.pos <= cs[i].pos < |t| && Kind(t, cs[i]).Ident?
    decreases |t| - c.pos
  {
    hide DeclSpec.RegisterAt, DeclSpec.Skip;
    if EndsList(Kind(t, c)) then []
    else if !Kind(t, c).Ident? then RegisterStarts(t, Skip(t, c), simplified)
    else
      var rest := RegisterStarts(t, RegisterAt(t, c, simplified).next, simplified);
      assert forall i :: 0 < i < |rest| + 1 ==> ([c] + rest)[i] == rest[i-1];
      [c] + rest
  }

  /** The register is what the declaration at the cursor says: its name, the access its
      qualifier names, its width, and the members of a bitfield. */
  predicate DeclaredAt(t: seq<Lexeme>, c: Cursor, simplified: bool, reg: Register)
    requires In(t, c)
  {
    && reg.name == t[c.pos].text
    && reg.access == AccessOf(Kind(t, AccessAt(t, c, simplified)))
    && reg.isBitfield == IsBitfield(t, c, simplified)
    && reg.width == (if IsCompact(t, c, simplified) then 32
                     else if reg.isBitfield then 0 else WidthOf(Kind(t, TypeAt(t, c))))
    && reg.members == if reg.isBitfield then MembersAt(t, c, simplified).val else []
  }

  /** A register block is its declarations, each at its own place, in order. */
  lemma {:induction false} RegistersAreDeclared(t: seq<Lexeme>, c: Cursor, simplified: bool)
    requires In(t, c)
    ensures var cs, regs := RegisterStarts(t, c, simplified), Registers(t, c, simplified).val;
            && |regs| == |cs| && Climbing(cs)
            && forall i :: 0 <= i < |cs| ==> DeclaredAt(t, cs[i], simplified, regs[i])
    decreases |t| - c.pos
  {
    hide DeclSpec.RegisterAt, DeclaredAt, DeclSpec.Skip;
    if !EndsList(Kind(t, c)) {
      if Kind(t, c).Ident? {
        var next := RegisterAt(t, c, simplified).next;
        RegistersAreDeclared(t, next, simplified);
        RegisterIsDeclared(t, c, simplified);
        var cs := RegisterStarts(t, next, simplified);
        assert forall i :: 0 < i < |cs| + 1 ==> ([c] + cs)[i] == cs[i-1];
      } else {
        RegistersAreDeclared(t, Skip(t, c), simplified);
      }
    }
  }

  lemma RegisterIsDeclared(t: seq<Lexeme>, c: Cursor, simplified: bool)
    requires In(t, c) && Kind(t, c).Ident?
    ensures DeclaredAt(t, c, simplified, RegisterAt(t, c, simplified).val)
  {
    hide DeclSpec.Skip, DeclSpec.AccessAt, DeclSpec.MembersAt, DeclSpec.TypeAt, DeclSpec.IsCompact;
  }

  // ===== the parts of a device =====

  function PartEnd(t: seq<Lexeme>, c: Cursor): (d: Cursor)
    requires In(t, c) && !Kind(t, c).EOF?
    ensures Onward(t, c, d) && c.pos < d.pos
  {
    DevicePart(t, c, NO_DEVICE).next
  }

  /** The cursors at which the parts of a device begin. */
  ghost function DeviceParts(t: seq<Lexeme>, c: Cursor): (cs: seq<Cursor>)
    requires In(t, c)
    ensures Inside(t, cs)
    decreases |t| - c.pos
  {
    hide PartEnd;
    if EndsList(Kind(t, c)) then [] else [c] + DeviceParts(t, PartEnd(t, c))
  }

  ghost predicate Inside(t: seq<Lexeme>, cs: seq<Cursor>) {
    forall i :: 0 <= i < |cs| ==> In(t, cs[i]) && !EndsList(Kind(t, cs[i]))
  }

  /** The index of the last cursor at a token of that sort, or -1. */
  ghost function LastOf(t: seq<Lexeme>, cs: seq<Cursor>, f: Lexeme -> bool): (i: int)
    requires Inside(t, cs)
    ensures -1 <= i < |cs| && (i >= 0 ==> f(t[cs[i].pos]))
    ensures forall j :: i < j < |cs| ==> !f(t[cs[j].pos])
  {
    if cs == [] then -1
    else if f(t[cs[|cs|-1].pos]) then |cs| - 1 else LastOf(t, cs[..|cs|-1], f)
  }

  lemma LastOfMore(t: seq<Lexeme>, c: Cursor, rest: seq<Cursor>, f: Lexeme -> bool)
    requires In(t, c) && Inside(t, [c] + rest) && Inside(t, rest)
    ensures LastOf(t, [c] + rest, f)
         == if LastOf(t, rest, f) >= 0 then LastOf(t, rest, f) + 1 else if f(t[c.pos]) then 0 else -1
  {
    hide LastOf, In, Inside;
    var cs := [c] + rest;
    var i, k := LastOf(t, rest, f), LastOf(t, cs, f);
    forall j | 0 <= j < |rest|
      ensures cs[j+1] == rest[j]
    {
    }
    assert cs[0] == c;
    assert k > 0 ==> cs[k] == rest[k-1];
    assert i >= 0 ==> cs[i+1] == rest[i];
  }

  lemma PartDoesNotDepend(t: seq<Lexeme>, c: Cursor, dev: Device)
    requires In(t, c) && !Kind(t, c).EOF?
    ensures DevicePart(t, c, dev).next == PartEnd(t, c)
    ensures DevicePart(t, c, dev).val.registers
         == if IsRegisters(t[c.pos]) then RegisterBlock(t, c).val else dev.registers
  {
    hide DeclSpec.Skip, DeclSpec.Want, DeclSpec.RegisterBlock, DeclSpec.NamedBlock, DeclSpec.PastClause;
  }

  /** The registers of a device are those of its last register block, and none if it has no
      such block. */
  lemma {:induction false} LastBlockWins(t: seq<Lexeme>, c: Cursor, dev: Device)
    requires In(t, c)
    ensures var cs := DeviceParts(t, c);
            var i := LastOf(t, cs, IsRegisters);
            DeviceBody(t, c, dev).val.registers == if i >= 0 then RegisterBlock(t, cs[i]).val else dev.registers
    decreases |t| - c.pos
  {
    hide DeclSpec.DevicePart, DeclSpec.RegisterBlock, IsRegisters, PartEnd, LastOf;
    if !EndsList(Kind(t, c)) {
      var r := DevicePart(t, c, dev);
      PartDoesNotDepend(t, c, dev);
      LastBlockWins(t, r.next, r.val);
      LastOfMore(t, c, DeviceParts(t, r.next), IsRegisters);
    }
  }

  // ===== the parts of a driver =====

  predicate IsProbe(l: Lexeme) { l.kind == Kw("probe") }
  predicate IsRemove(l: Lexeme) { l.kind == Kw("remove") }
  predicate IsHandler(l: Lexeme) { l.kind == Kw("on") }

  function DriverPartEnd(t: seq<Lexeme>, c: Cursor): (d: Cursor)
    requires In(t, c) && !Kind(t, c).EOF?
    ensures Onward(t, c, d) && c.pos < d.pos
  {
    DriverPart(t, c, NO_DRIVER).next
  }

  /** The cursors at which the parts of a driver begin. */
  ghost function DriverParts(t: seq<Lexeme>, c: Cursor): (cs: seq<Cursor>)
    requires In(t, c)
    ensures Inside(t, cs)
    decreases |t| - c.pos
  {
    hide DriverPartEnd;
    if EndsList(Kind(t, c)) then [] else [c] + DriverParts(t, DriverPartEnd(t, c))
  }

  /** The handlers of the parts that are handlers, in order. */
  ghost function HandlersOf(t: seq<Lexeme>, cs: seq<Cursor>): seq<Handler>
    requires Inside(t, cs)
  {
    hide DeclSpec.Braces, DeclSpec.HandlerBraces, IsHandler;
    if cs == [] then []
    else
      (if IsHandler(t[cs[0].pos]) then [Handler(Braces(t, HandlerBraces(t, cs[0])).val)] else [])
      + HandlersOf(t, cs[1..])
  }

  /** The body behind the keyword of the last such part. */
  ghost function LastBody(t: seq<Lexeme>, cs: seq<Cursor>, f: Lexeme -> bool, before: Option<seq<A.Node>>): Option<seq<A.Node>>
    requires Inside(t, cs)
  {
    var i := LastOf(t, cs, f);
    if i >= 0 then Some(Braces(t, Skip(t, cs[i])).val) else before
  }

  lemma LastBodyMore(t: seq<Lexeme>, c: Cursor, rest: seq<Cursor>, f: Lexeme -> bool, before: Option<seq<A.Node>>)
    requires In(t, c) && Inside(t, [c] + rest) && Inside(t, rest)
    ensures LastBody(t, [c] + rest, f, before)
         == LastBody(t, rest, f, if f(t[c.pos]) then Some(Braces(t, Skip(t, c)).val) else before)
  {
    hide DeclSpec.Braces, DeclSpec.Skip, LastOf;
    LastOfMore(t, c, rest, f);
    assert forall i :: 0 <= i < |rest| ==> ([c] + rest)[i+1] == rest[i];
  }

  lemma DriverPartIs(t: seq<Lexeme>, c: Cursor, drv: Driver)
    requires In(t, c) && !Kind(t, c).EOF?
    ensures DriverPart(t, c, drv).next == DriverPartEnd(t, c)
    ensures var d, l := DriverPart(t, c, drv).val, t[c.pos];
            && d.probe == (if IsProbe(l) then Some(Braces(t, Skip(t, c)).val) else drv.probe)
            && d.remove == (if IsRemove(l) then Some(Braces(t, Skip(t, c)).val) else drv.remove)
            && d.handlers == drv.handlers + if IsHandler(l) then [Handler(Braces(t, HandlerBraces(t, c)).val)] else []
  {
    hide DeclSpec.Skip, DeclSpec.Want, DeclSpec.Braces, DeclSpec.PastNext, DeclSpec.HandlerBraces;
  }

  lemma NoBody(t: seq<Lexeme>, drv: Driver)
    ensures LastBody(t, [], IsProbe, drv.probe) == drv.probe && LastBody(t, [], IsRemove, drv.remove) == drv.remove
  {
  }

  /** Probe and remove are the bodies behind their last keywords; the handlers are those of
      all `on` parts, in order. */
  lemma {:induction false} DriverIsItsParts(t: seq<Lexeme>, c: Cursor, drv: Driver)
    requires In(t, c)
    ensures var cs, d := DriverParts(t, c), DriverBody(t, c, drv).val;
            && d.probe == LastBody(t, cs, IsProbe, drv.probe)
            && d.remove == LastBody(t, cs, IsRemove, drv.remove)
            && d.handlers == drv.handlers + HandlersOf(t, cs)
    decreases |t| - c.pos
  {
    hide DeclSpec.DriverPart, DeclSpec.Braces, DeclSpec.HandlerBraces, DeclSpec.Skip, IsProbe, IsRemove, IsHandler, DriverPartEnd,
         LastOf, LastBody;
    if !EndsList(Kind(t, c)) {
      var r := DriverPart(t, c, drv);
      DriverPartIs(t, c, drv);
      DriverIsItsParts(t, r.next, r.val);
      var rest := DriverParts(t, r.next);
      LastBodyMore(t, c, rest, IsProbe, drv.probe);
      LastBodyMore(t, c, rest, IsRemove, drv.remove);
      assert ([c] + rest)[1..] == rest;
    } else {
      NoBody(t, drv);
    }
  }

  // ===== where the bodies are =====

  /** The body is spelled between the brace at `p` and its partner. */
  ghost predicate BodyAt(t: seq<Lexeme>, p: nat, ss: seq<Stm>, body: seq<A.Node>) {
    && p < |t| && t[p].kind.LBrace? && SpellsList(ss, t, p + 1)
    && p + 1 + ListLen(ss) < |t| && t[p + 1 + ListLen(ss)].kind.RBrace?
    && GoodList(ss) && body == FlattenList(ss)
  }

  /** Braces parsed without an error hold exactly the statements spelled between them. */
  lemma BracesAreSpelled(t: seq<Lexeme>, c: Cursor) returns (ss: seq<Stm>)
    requires In(t, c) && !Braces(t, c).next.err
    ensures BodyAt(t, c.pos, ss, Braces(t, c).val) && Braces(t, c).next.pos == c.pos + 1 + ListLen(ss) + 1
  {
    hide StmtSpec.StatementList, SpellsList, FlattenList, ListLen, GoodList;
    StmtProofs.StatementListIff(t, c.pos + 1);
    ss :| SpellsList(ss, t, c.pos + 1) && c.pos + 1 + ListLen(ss) < |t| && EndsList(t[c.pos + 1 + ListLen(ss)].kind);
  }

  /** The braces of a handler follow the first closing parenthesis after its own. */
  lemma {:induction false} NextIsFirst(t: seq<Lexeme>, c: Cursor, k: Tok)
    requires In(t, c) && !k.EOF? && !PastNext(t, c, k).err
    ensures var q := PastNext(t, c, k).pos - 1;
            && c.pos <= q < |t| && t[q].kind == k && forall i :: c.pos <= i < q ==> t[i].kind != k
    decreases |t| - c.pos
  {
    if Kind(t, c) != k && !Kind(t, c).EOF? {
      NextIsFirst(t, Skip(t, c), k);
    }
  }

  /** The body is spelled at a part of its own: right behind its keyword or, for a handler,
      behind its parentheses. */
  ghost predicate Placed(t: seq<Lexeme>, cs: seq<Cursor>, body: seq<A.Node>)
    requires Inside(t, cs)
  {
    exists i, ss :: 0 <= i < |cs| && PlacedBy(t, cs[i], ss, body)
  }

  ghost predicate PlacedBy(t: seq<Lexeme>, c: Cursor, ss: seq<Stm>, body: seq<A.Node>)
    requires In(t, c)
  {
    if IsHandler(t[c.pos]) then BodyAt(t, HandlerBraces(t, c).pos, ss, body)
    else (IsProbe(t[c.pos]) || IsRemove(t[c.pos])) && BodyAt(t, c.pos + 1, ss, body)
  }

  ghost predicate AllClean(t: seq<Lexeme>, cs: seq<Cursor>)
    requires Inside(t, cs)
  {
    forall i :: 0 <= i < |cs| ==> !DriverPartEnd(t, cs[i]).err
  }

  /** Without an error at the end there was none at any part. */
  lemma {:induction false} PartsAreClean(t: seq<Lexeme>, c: Cursor, drv: Driver)
    requires In(t, c) && !DriverBody(t, c, drv).next.err
    ensures AllClean(t, DriverParts(t, c))
    decreases |t| - c.pos
  {
    hide DeclSpec.DriverPart;
    if !EndsList(Kind(t, c)) {
      DriverPartIs(t, c, drv);
      var next := DriverPartEnd(t, c);
      PartsAreClean(t, next, DriverPart(t, c, drv).val);
      var rest := DriverParts(t, next);
      assert DriverBody(t, c, drv) == DriverBody(t, next, DriverPart(t, c, drv).val);
      var cs := DriverParts(t, c);
      assert cs == [c] + rest && !next.err;
      forall i | 0 <= i < |cs|
        ensures !DriverPartEnd(t, cs[i]).err
      {
        assert cs[i] == if i == 0 then c else rest[i-1];
      }
    }
  }

  lemma CleanPartIsPlaced(t: seq<Lexeme>, c: Cursor) returns (ss: seq<Stm>)
    requires In(t, c) && !EndsList(Kind(t, c)) && !DriverPartEnd(t, c).err
    ensures IsHandler(t[c.pos]) ==> PlacedBy(t, c, ss, Braces(t, HandlerBraces(t, c)).val)
    ensures IsProbe(t[c.pos]) || IsRemove(t[c.pos]) ==> PlacedBy(t, c, ss, Braces(t, Skip(t, c)).val)
  {
    hide DeclSpec.Braces, DeclSpec.HandlerBraces, BodyAt;
    ss := [];
    if IsHandler(t[c.pos]) {
      ss := BracesAreSpelled(t, HandlerBraces(t, c));
    } else if IsProbe(t[c.pos]) || IsRemove(t[c.pos]) {
      ss := BracesAreSpelled(t, Skip(t, c));
    }
  }

  lemma {:induction false} HandlersArePlaced(t: seq<Lexeme>, cs: seq<Cursor>)
    requires Inside(t, cs) && AllClean(t, cs)
    ensures var hs := HandlersOf(t, cs); forall i :: 0 <= i < |hs| ==> Placed(t, cs, hs[i].body)
  {
    hide DriverPartEnd, PlacedBy, DeclSpec.Braces, DeclSpec.HandlerBraces, IsHandler;
    if cs != [] {
      var rest := cs[1..];
      HandlersArePlaced(t, rest);
      var ss := CleanPartIsPlaced(t, cs[0]);
      forall body | Placed(t, rest, body)
        ensures Placed(t, cs, body)
      {
        var i, ss :| 0 <= i < |rest| && PlacedBy(t, rest[i], ss, body);
        assert PlacedBy(t, cs[i+1], ss, body);
      }
      var first, hs := Braces(t, HandlerBraces(t, cs[0])).val, HandlersOf(t, cs);
      if IsHandler(t[cs[0].pos]) {
        assert Placed(t, cs, first) && hs == [Handler(first)] + HandlersOf(t, rest);
        assert forall i :: 0 < i < |hs| ==> hs[i] == HandlersOf(t, rest)[i-1];
      } else {
        assert hs == HandlersOf(t, rest);
      }
    }
  }

  lemma LastIsPlaced(t: seq<Lexeme>, cs: seq<Cursor>, f: Lexeme -> bool)
    requires Inside(t, cs) && AllClean(t, cs)
    requires f == IsProbe || f == IsRemove
    ensures var b := LastBody(t, cs, f, None); b.Some? ==> Placed(t, cs, b.value)
  {
    hide DriverPartEnd, PlacedBy, DeclSpec.Braces, DeclSpec.Skip, LastOf;
    var i := LastOf(t, cs, f);
    if i >= 0 {
      assert IsProbe(t[cs[i].pos]) || IsRemove(t[cs[i].pos]);
      var ss := CleanPartIsPlaced(t, cs[i]);
    }
  }

  /** Every body of a driver parsed without an error is spelled at a part of its own. */
  lemma BodiesArePlaced(t: seq<Lexeme>, c: Cursor, body: seq<A.Node>)
    requires In(t, c) && !DriverBody(t, c, NO_DRIVER).next.err && IsBody(DriverBody(t, c, NO_DRIVER).val, body)
    ensures Placed(t, DriverParts(t, c), body)
  {
    hide DeclSpec.DriverBody, LastBody, HandlersOf, Placed, DriverPartEnd, DriverParts;
    var cs := DriverParts(t, c);
    DriverIsItsParts(t, c, NO_DRIVER);
    PartsAreClean(t, c, NO_DRIVER);
    HandlersArePlaced(t, cs);
    LastIsPlaced(t, cs, IsProbe);
    LastIsPlaced(t, cs, IsRemove);
    assert [] + HandlersOf(t, cs) == HandlersOf(t, cs);
  }

  // ===== from tokens to the semantic pass =====

  /** Every body of a parsed driver has the shape the semantic pass relies on. */
  lemma ParsedDriverIsShaped(t: seq<Lexeme>)
    requires Terminated(t) && !FileAt(t).next.err && FileAt(t).val.driver.Some?
    ensures ShapedDriver(FileAt(t).val.driver.value)
  {
    hide DeclSpec.DriverBody, DeclSpec.DriverStart, DeclSpec.MainAt, DeclSpec.DeviceAt, Shaped, Placed, DriverParts;
    var c := DriverStart(t, MainAt(t));
    var drv := FileAt(t).val.driver.value;
    assert drv == DriverBody(t, c, NO_DRIVER).val && !DriverBody(t, c, NO_DRIVER).next.err;
    forall body | IsBody(drv, body)
      ensures Shaped(body)
    {
      BodiesArePlaced(t, c, body);
      PlacedIsShaped(t, DriverParts(t, c), body);
    }
  }

  lemma PlacedIsShaped(t: seq<Lexeme>, cs: seq<Cursor>, body: seq<A.Node>)
    requires Inside(t, cs) && Placed(t, cs, body)
    ensures Shaped(body)
  {
    hide Shaped, DeclSpec.HandlerBraces, SpellsList, ListLen;
    var i, ss :| 0 <= i < |cs| && PlacedBy(t, cs[i], ss, body);
    Bodies.FlattenedListIsShaped(ss);
  }

  /** The last register block of the device of a file. */
  ghost function RegisterBlockOf(t: seq<Lexeme>): (b: Option<Cursor>)
    requires Terminated(t)
    ensures b.Some? ==> In(t, b.value) && !Kind(t, b.value).EOF?
  {
    hide DeclSpec.MainAt, DeclSpec.DeviceStart, DeviceParts, LastOf;
    var cs := DeviceParts(t, DeviceStart(t, MainAt(t)));
    var i := LastOf(t, cs, IsRegisters);
    if i < 0 then None else Some(cs[i])
  }

  datatype Places = Places(starts: seq<Cursor>, simplified: bool)

  /** Where the registers of the device of a file are declared: the declarations of its last
      register block, and whether that block is a register map. */
  ghost function RegisterDeclarations(t: seq<Lexeme>): (r: Places)
    requires Terminated(t)
    ensures forall i :: 0 <= i < |r.starts| ==> In(t, r.starts[i]) && Kind(t, r.starts[i]).Ident?
  {
    hide DeclSpec.Skip, DeclSpec.Want, RegisterStarts, RegisterBlockOf;
    var b := RegisterBlockOf(t);
    if b.None? then Places([], false)
    else
      var simplified := IsWord(t[b.value.pos], "register_map");
      Places(RegisterStarts(t, Want(t, Skip(t, b.value), LBrace), simplified), simplified)
  }

  /** The registers of the device of a file are exactly those declarations, in order. */
  lemma FileRegistersAre(t: seq<Lexeme>)
    requires Terminated(t) && FileAt(t).val.device.Some?
    ensures var cs, regs := RegisterDeclarations(t).starts, FileAt(t).val.device.value.registers;
            && |regs| == |cs| && Climbing(cs)
            && forall i :: 0 <= i < |cs| ==> DeclaredAt(t, cs[i], RegisterDeclarations(t).simplified, regs[i])
  {
    hide DeclSpec.DeviceBody, DeclSpec.Registers, DeviceParts, RegisterStarts, LastOf, IsRegisters, DeclaredAt,
         DeclSpec.MainAt, DeclSpec.DeviceStart, DeclSpec.DriverAt, DeclSpec.Skip, DeclSpec.Want, Climbing;
    var c := DeviceStart(t, MainAt(t));
    var cs := DeviceParts(t, c);
    var i := LastOf(t, cs, IsRegisters);
    LastBlockWins(t, c, NO_DEVICE);
    if i >= 0 {
      var from := Want(t, Skip(t, cs[i]), LBrace);
      RegistersAreDeclared(t, from, IsWord(t[cs[i].pos], "register_map"));
    } else {
      NothingClimbs();
    }
  }

  lemma NothingClimbs()
    ensures Climbing([])
  {
  }

  /** The driver of a file: probe and remove are the bodies behind the last such keyword,
      the handlers those of all `on` parts in order; without an error each of these bodies
      is spelled at its own part. */
  lemma FileDriverIs(t: seq<Lexeme>)
    requires Terminated(t) && FileAt(t).val.driver.Some?
    ensures var cs, drv := DriverParts(t, DriverStart(t, MainAt(t))), FileAt(t).val.driver.value;
            && drv.probe == LastBody(t, cs, IsProbe, None)
            && drv.remove == LastBody(t, cs, IsRemove, None)
            && drv.handlers == HandlersOf(t, cs)
            && (!FileAt(t).next.err ==> forall body :: IsBody(drv, body) ==> Placed(t, cs, body))
  {
    hide DeclSpec.DriverBody, DeclSpec.DriverStart, DeclSpec.MainAt, DeclSpec.DeviceAt, Placed, DriverParts, LastBody, HandlersOf;
    var c := DriverStart(t, MainAt(t));
    DriverIsItsParts(t, c, NO_DRIVER);
    assert [] + HandlersOf(t, DriverParts(t, c)) == HandlersOf(t, DriverParts(t, c));
    if !FileAt(t).next.err {
      forall body | IsBody(FileAt(t).val.driver.value, body)
        ensures Placed(t, DriverParts(t, c), body)
      {
        BodiesArePlaced(t, c, body);
      }
    }
  }

  /** A device parsed from one token array and a driver parsed from another, accepted
      together: no dotted path written in a body of the driver, at any depth, ends in one of
      the first SYMTAB_MAX registers of the device's last register block whose declaration
      carries `ro`, or enters one, unless a name declared as something else hides it. */
  lemma AcceptedDriverSparesReadOnly(td: seq<Lexeme>, t: seq<Lexeme>, body: seq<A.Node>, parts: seq<string>, k: nat)
    requires Terminated(td) && FileAt(td).val.device.Some?
    requires Terminated(t) && !FileAt(t).next.err && FileAt(t).val.driver.Some?
    requires Verdict(File(FileAt(td).val.device, FileAt(t).val.driver)) == 0
    requires k < |RegisterDeclarations(td).starts| && k < SYMTAB_MAX
    requires Kind(td, AccessAt(td, RegisterDeclarations(td).starts[k], RegisterDeclarations(td).simplified)) == Kw("ro")
    requires IsBody(FileAt(t).val.driver.value, body) && A.Path(parts) in Targets(body)
    ensures var name := td[RegisterDeclarations(td).starts[k].pos].text;
            && !Ends(parts, name)
            && (Enters(parts, name) ==> Hides(FileAt(td).val.device.value, parts[|parts|-1]))
  {
    hide FileAt, RegisterDeclarations, Targets, Verdict, Hides, IsBody, ShapedDriver, DeclSpec.AccessAt;
    FileRegistersAre(td);
    ParsedDriverIsShaped(t);
    NoWriteToReadOnly(FileAt(td).val.device.value, FileAt(t).val.driver.value, body, parts, k);
  }

  // ===== the write that is not refused =====

  function Mark(k: Tok, text: string): Lexeme { Lexeme(k, text, 0) }

  /** The tokens of `driver d { probe { write(NAME, 1); } }`. */
  function BareDriver(name: string): (t: seq<Lexeme>)
    ensures |t| == 15
  {
    [Mark(Kw("driver"), "driver"), Mark(Tok.Ident, "d"), Mark(LBrace, "{"), Mark(Kw("probe"), "probe"), Mark(LBrace, "{"),
     Mark(WRITE, "write"), Mark(LParen, "("), Mark(Tok.Ident, name), Mark(Comma, ","), Lexeme(Tok.Int, "1", 1), Mark(RParen, ")"),
     Mark(Semicolon, ";"), Mark(RBrace, "}"), Mark(RBrace, "}"), Mark(EOF, "")]
  }

  /** `write(NAME, 1);` as a statement. */
  function BareCall(name: string): Stm {
    Stm.Call(A.RegWriteStmt, [Dotted([Mark(Tok.Ident, name)]), Cst.Atom(Lexeme(Tok.Int, "1", 1))])
  }

  lemma BareCallIsGood(name: string)
    ensures GoodList([BareCall(name)]) && FlattenList([BareCall(name)]) == Writer(A.Ident(name)).probe.value
  {
    var s := BareCall(name);
    assert s.args[1..] == [s.args[1]] && [s][1..] == [];
    assert Alternates([Mark(Tok.Ident, name)]);
    assert Proper(s.args[0]) && Proper(s.args[1]);
    assert Names([Mark(Tok.Ident, name)]) == [name];
    assert Kids([s.args[1]]) == [A.E(A.IntLit(1))];
    assert Kids(s.args) == [A.E(A.Ident(name)), A.E(A.IntLit(1))];
    assert Good(s) && GoodList([s]);
    assert FlattenList([s]) == [Flatten(s)];
  }

  /** An expression of one token. */
  lemma OneTokenIsSpelled(c: Cst, t: seq<Lexeme>, p: nat)
    requires Proper(c) && p + 1 < |t| && Yield(c) == [t[p]] && Prec(t[p+1].kind) == 0 && !t[p+1].kind.Dot?
    ensures SpellsExpr(c, t, p) && |Yield(c)| == 1
  {
  }

  lemma BareArgsAreSpelled(name: string)
    ensures var t, args := BareDriver(name), BareCall(name).args;
            SpellsArgs(args, t, 7) && ArgsLen(args) == 3
  {
    hide SpellsExpr;
    var t, args := BareDriver(name), BareCall(name).args;
    var target, value := args[0], args[1];
    assert args[1..] == [value];
    assert Alternates([t[7]]);
    OneTokenIsSpelled(value, t, 9);
    OneTokenIsSpelled(target, t, 7);
    assert SpellsArgs([value], t, 9) && ArgsLen([value]) == 1;
  }

  lemma BareCallIsSpelled(name: string)
    ensures var t := BareDriver(name);
            Terminated(t) && SpellsList([BareCall(name)], t, 5) && ListLen([BareCall(name)]) == 7
  {
    hide SpellsExpr, SpellsArgs, ArgsLen, Yield, Proper;
    var t, s := BareDriver(name), BareCall(name);
    BareArgsAreSpelled(name);
    assert Spells(s, t, 5) && Len(s) == 7;
    assert [s][1..] == [] && SpellsList([], t, 12);
  }

  lemma BareWriteIsSpelled(name: string)
    ensures var t := BareDriver(name);
            Terminated(t) && StatementList(t, 5) == Parsed(Writer(A.Ident(name)).probe.value, 12, false)
  {
    hide StmtSpec.StatementList, SpellsList, ListLen, FlattenList, GoodList, BareCall;
    BareCallIsGood(name);
    BareCallIsSpelled(name);
    StmtProofs.StatementListIff(BareDriver(name), 5);
  }

  /** `driver d { probe { write(NAME, 1); } }` is parsed without an error. */
  lemma BareDriverParses(name: string)
    ensures var t := BareDriver(name);
            Terminated(t) && !FileAt(t).next.err && FileAt(t).val.driver == Some(Writer(A.Ident(name)))
  {
    hide StmtSpec.StatementList;
    BareWriteIsSpelled(name);
    var t := BareDriver(name);
    assert MainAt(t) == Cursor(0, false);
    assert DriverStart(t, Cursor(0, false)) == Cursor(3, false);
    assert Braces(t, Cursor(4, false)) == Made(Writer(A.Ident(name)).probe.value, Cursor(13, false));
    assert DriverPart(t, Cursor(3, false), NO_DRIVER) == Made(Writer(A.Ident(name)), Cursor(13, false));
    assert DriverBody(t, Cursor(13, false), Writer(A.Ident(name))) == Made(Writer(A.Ident(name)), Cursor(13, false));
    assert DriverBody(t, Cursor(3, false), NO_DRIVER) == Made(Writer(A.Ident(name)), Cursor(13, false));
  }

  /** And accepted with every device that has no errors of its own, whatever the device
      declares the name as: a read-only register is not protected from it. */
  lemma BareWriteEscapes(d: Device, name: string)
    requires Populate(d).errors == 0
    ensures Accepts(d, FileAt(BareDriver(name)).val.driver.value)
  {
    hide Populate, Accepts, FileAt, BareDriver, Writer;
    BareDriverParses(name);
    BareWriteIsAccepted(d, name);
  }
}
