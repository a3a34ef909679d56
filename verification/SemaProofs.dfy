/** What a zero verdict of the semantic pass means. */
module SemaProofs {
  import opened Wrappers
  import opened Ast
  import opened Sema

  // ===== statements =====

  /** The expressions written or assigned to, at any depth. */
  function Targets(ns: seq<Node>): set<Expr> {
    if ns == [] then {} else NodeTargets(ns[0]) + Targets(ns[1..])
  }

  function NodeTargets(n: Node): set<Expr> {
    match n
    case E(_) => {}
    case S(kind, kids) =>
      Targets(kids) + if (kind.RegWriteStmt? || kind.AssignStmt?) && |kids| > 0 && kids[0].E? then {kids[0].e} else {}
  }

  /** The expressions whose reads the pass checks: the values of writes and assignments
      and the even children of an if, outside the bounds of a for. */
  function Reads(ns: seq<Node>): set<Expr>
    decreases ns, 0
  {
    if ns == [] then {} else NodeReads(ns[0]) + Reads(ns[1..])
  }

  function NodeReads(n: Node): set<Expr>
    decreases n, 2
  {
    match n
    case E(_) => {}
    case S(kind, kids) =>
      match kind
      case RegWriteStmt | AssignStmt => if |kids| > 1 && kids[1].E? then {kids[1].e} else {}
      case WaitStmt => {}
      case ForStmt => if |kids| > 3 then Reads(kids[3..]) else {}
      case IfStmt => Conditions(kids) + if |kids| > 1 then Reads(kids[1..]) else {}
      case _ => Reads(kids)
  }

  function Conditions(kids: seq<Node>): set<Expr> {
    (if |kids| > 0 && kids[0].E? then {kids[0].e} else {})
    + if |kids| > 2 then Conditions(kids[2..]) else {}
  }

  predicate AllExprs(ns: seq<Node>) {
    forall n :: n in ns ==> n.E?
  }

  /** The shape the parser gives to statements. */
  predicate Shaped(ns: seq<Node>) {
    ns == [] || (ShapedNode(ns[0]) && Shaped(ns[1..]))
  }

  predicate ShapedNode(n: Node) {
    match n
    case E(_) => true
    case S(kind, kids) =>
      && Shaped(kids)
      && match kind
         case RegWriteStmt | AssignStmt | WaitStmt => AllExprs(kids)
         case ForStmt => |kids| >= 3 && AllExprs(kids[..3])
         case IfStmt => |kids| >= 1 && kids[0].E?
         case _ => true
  }

  /** All writes are allowed and all checked reads are. */
  ghost predicate Allowed(t: Table, written: set<Expr>, checked: set<Expr>) {
    && (forall e :: e in written ==> ExprErrors(t, e, true) == 0)
    && (forall e :: e in checked ==> ExprErrors(t, e, false) == 0)
  }

  lemma {:induction false} ExprListHasNoTargets(ns: seq<Node>)
    requires AllExprs(ns)
    ensures Targets(ns) == {}
  {
    if ns != [] {
      assert ns[0] in ns;
      ExprListHasNoTargets(ns[1..]);
    }
  }

  lemma {:induction false} TargetsSplit(ns: seq<Node>, i: nat)
    requires i <= |ns|
    ensures Targets(ns) == Targets(ns[..i]) + Targets(ns[i..])
  {
    if i > 0 {
      TargetsSplit(ns[1..], i - 1);
      assert ns[1..][..i-1] == ns[..i][1..];
      assert ns[1..][i-1..] == ns[i..];
    } else {
      assert ns[0..] == ns;
    }
  }

  lemma {:induction false} ShapedTail(ns: seq<Node>, i: nat)
    requires Shaped(ns) && i <= |ns|
    ensures Shaped(ns[i..])
  {
    if i > 0 {
      ShapedTail(ns[1..], i - 1);
      assert ns[1..][i-1..] == ns[i..];
    } else {
      assert ns[0..] == ns;
    }
  }

  lemma {:induction false} ErrorsOfTail(t: Table, ns: seq<Node>, i: nat)
    requires ListErrors(t, ns) == 0 && i <= |ns|
    ensures ListErrors(t, ns[i..]) == 0
  {
    if i > 0 {
      ErrorsOfTail(t, ns[1..], i - 1);
      assert ns[1..][i-1..] == ns[i..];
    } else {
      assert ns[0..] == ns;
    }
  }

  lemma FirstExact(t: Table, kids: seq<Node>)
    requires kids != []
    ensures NodeErrors(t, kids[0], false) == 0 <==> (kids[0].E? ==> ExprErrors(t, kids[0].e, false) == 0)
  {
  }

  lemma {:induction false} ArmsExact(t: Table, kids: seq<Node>)
    requires |kids| > 1 ==> ListErrors(t, kids[1..]) == 0
    ensures ArmErrors(t, kids) == 0 <==> forall e :: e in Conditions(kids) ==> ExprErrors(t, e, false) == 0
    decreases kids
  {
    hide ExprErrors, NodeErrors, ListErrors;
    if kids != [] {
      FirstExact(t, kids);
      var first := if kids[0].E? then {kids[0].e} else {};
      assert forall e :: e in first ==> kids[0].E? && e == kids[0].e;
      assert kids[0].E? ==> kids[0].e in first;
      if |kids| > 2 {
        ErrorsOfTail(t, kids[1..], 2);
        assert kids[1..][2..] == kids[2..][1..];
        ArmsExact(t, kids[2..]);
        assert Conditions(kids) == first + Conditions(kids[2..]);
      } else {
        assert Conditions(kids) == first;
      }
    }
  }

  /** A list is checked without error exactly when, at every depth, every target may be
      written and every checked expression may be read. */
  lemma {:induction false} ListExact(t: Table, ns: seq<Node>)
    requires Shaped(ns)
    ensures ListErrors(t, ns) == 0 <==> Allowed(t, Targets(ns), Reads(ns))
    decreases ns, 0
  {
    if ns != [] {
      StmtExact(t, ns[0]);
      ListExact(t, ns[1..]);
    }
  }

  lemma {:induction false} StmtExact(t: Table, n: Node)
    requires ShapedNode(n)
    ensures StmtErrors(t, n) == 0 <==> Allowed(t, NodeTargets(n), NodeReads(n))
    decreases n, 1
  {
    if n.S? {
      var kids := n.kids;
      match n.kind
      case RegWriteStmt | AssignStmt | WaitStmt => AccessExact(t, n);
      case ForStmt => ForExact(t, n);
      case IfStmt => IfExact(t, n);
      case _ => ListExact(t, kids);
    }
  }

  lemma AccessExact(t: Table, n: Node)
    requires n.S? && (n.kind.RegWriteStmt? || n.kind.AssignStmt? || n.kind.WaitStmt?) && ShapedNode(n)
    ensures StmtErrors(t, n) == 0 <==> Allowed(t, NodeTargets(n), NodeReads(n))
  {
    ExprListHasNoTargets(n.kids);
    assert |n.kids| > 0 ==> n.kids[0] in n.kids;
    assert |n.kids| > 1 ==> n.kids[1] in n.kids;
  }

  lemma {:induction false} ForExact(t: Table, n: Node)
    requires n.S? && n.kind.ForStmt? && ShapedNode(n)
    ensures StmtErrors(t, n) == 0 <==> Allowed(t, NodeTargets(n), NodeReads(n))
    decreases n, 0
  {
    var kids := n.kids;
    TargetsSplit(kids, 3);
    ExprListHasNoTargets(kids[..3]);
    ShapedTail(kids, 3);
    if |kids| > 3 {
      ListExact(t, kids[3..]);
    } else {
      assert kids[3..] == [];
    }
  }

  lemma AllowedUnion(t: Table, written: set<Expr>, a: set<Expr>, b: set<Expr>)
    ensures Allowed(t, written, a + b)
       <==> Allowed(t, written, b) && forall e :: e in a ==> ExprErrors(t, e, false) == 0
  {
    assert forall e :: e in a + b <==> e in a || e in b;
  }

  lemma {:induction false} IfExact(t: Table, n: Node)
    requires n.S? && n.kind.IfStmt? && ShapedNode(n)
    ensures StmtErrors(t, n) == 0 <==> Allowed(t, NodeTargets(n), NodeReads(n))
    decreases n, 0
  {
    var kids := n.kids;
    ListExact(t, kids[1..]);
    if |kids| == 1 {
      assert kids[1..] == [];
    }
    assert Targets(kids) == Targets(kids[1..]);
    assert Reads([]) == {};
    assert NodeTargets(n) == Targets(kids[1..]) && NodeReads(n) == Conditions(kids) + Reads(kids[1..]);
    AllowedUnion(t, Targets(kids[1..]), Conditions(kids), Reads(kids[1..]));
    if ListErrors(t, kids[1..]) == 0 {
      ArmsExact(t, kids);
      assert StmtErrors(t, n) == ArmErrors(t, kids);
    }
  }

  // ===== declarations =====

  function RegisterSyms(rs: seq<Register>): seq<Sym> {
    if rs == [] then [] else RegisterSyms(rs[..|rs|-1]) + [RegisterSym(rs[|rs|-1])]
  }

  function NameSyms(names: seq<string>, kind: SymKind): (r: seq<Sym>)
    ensures |r| == |names|
    ensures forall i :: 0 <= i < |r| ==> r[i] == NameSym(names[i], kind)
  {
    seq(|names|, i requires 0 <= i < |names| => NameSym(names[i], kind))
  }

  /** Every declared symbol, in the order of the file. */
  function Symbols(d: Device): seq<Sym> {
    RegisterSyms(d.registers) + NameSyms(d.signals, SymSignal)
    + NameSyms(d.capabilities, SymCapability) + NameSyms(d.config, SymConfig)
  }

  /** What a table of SYMTAB_MAX entries keeps of a list of symbols. */
  function Kept(u: seq<Sym>): (t: Table)
    ensures |t| == Min(|u|, SYMTAB_MAX) && forall i :: 0 <= i < |t| ==> t[i] == u[i]
  {
    u[..Min(|u|, SYMTAB_MAX)]
  }

  /** No name the table keeps is declared again later, except by a capability. */
  ghost predicate Clean(u: seq<Sym>) {
    forall i, j :: 0 <= i < j < |u| && i < SYMTAB_MAX && u[i].name == u[j].name ==> u[j].kind.SymCapability?
  }

  ghost predicate BitfieldsOk(rs: seq<Register>) {
    forall r :: r in rs && r.isBitfield ==> forall m :: m in r.members ==> m.lo <= m.hi
  }

  lemma {:induction false} MembersExact(ms: seq<Member>)
    ensures MemberErrors(ms) == 0 <==> forall m :: m in ms ==> m.lo <= m.hi
  {
    if ms != [] {
      MembersExact(ms[1..]);
      assert ms == [ms[0]] + ms[1..];
    }
  }

  lemma HasIff(t: Table, name: string)
    ensures Has(t, name) <==> exists i :: 0 <= i < |t| && t[i].name == name
  {
  }

  lemma CleanSnoc(u: seq<Sym>, s: Sym)
    ensures Clean(u + [s]) <==> Clean(u) && (Has(Kept(u), s.name) ==> s.kind.SymCapability?)
    ensures Push(Kept(u), s) == Kept(u + [s])
  {
    var w := u + [s];
    assert forall i :: 0 <= i < |u| ==> w[i] == u[i];
    assert w[|u|] == s;
    HasIff(Kept(u), s.name);
    if Clean(w) {
      assert forall i, j :: 0 <= i < j < |u| ==> w[i] == u[i] && w[j] == u[j];
      if Has(Kept(u), s.name) {
        var i :| 0 <= i < |Kept(u)| && Kept(u)[i].name == s.name;
        assert w[i].name == w[|u|].name;
      }
    }
  }

  lemma {:induction false} RegistersExact(rs: seq<Register>)
    ensures |RegisterSyms(rs)| == |rs|
    ensures var s := AddRegisters(State([], 0), rs);
            && (s.errors == 0 <==> Clean(RegisterSyms(rs)) && BitfieldsOk(rs))
            && (s.errors == 0 ==> s.table == Kept(RegisterSyms(rs)))
  {
    hide Clean;
    if rs != [] {
      var init, r := rs[..|rs|-1], rs[|rs|-1];
      RegistersExact(init);
      CleanSnoc(RegisterSyms(init), RegisterSym(r));
      MembersExact(r.members);
      assert rs == init + [r];
    } else {
      CleanNone();
    }
  }

  lemma CleanNone()
    ensures Clean([])
  {
  }

  /** Adding names to the table of `u`. */
  lemma {:induction false} NamesExact(s: State, u: seq<Sym>, names: seq<string>, kind: SymKind)
    requires s.table == Kept(u)
    ensures var r := AddNames(s, names, kind);
            var w := u + NameSyms(names, kind);
            && r.errors >= s.errors
            && (Clean(w) ==> Clean(u))
            && (Clean(u) ==> (r.errors == s.errors <==> Clean(w)))
            && (r.errors == s.errors ==> r.table == Kept(w))
  {
    hide Clean;
    if names == [] {
      assert u + NameSyms(names, kind) == u;
    } else {
      var init, last := names[..|names|-1], names[|names|-1];
      NamesExact(s, u, init, kind);
      var w := u + NameSyms(init, kind);
      assert u + NameSyms(names, kind) == w + [NameSym(last, kind)];
      CleanSnoc(w, NameSym(last, kind));
    }
  }

  /** A device is populated without error exactly when its declarations are clean and
      its bit ranges are in order; the table then lists the declared symbols in order, as
      far as it reaches. */
  lemma PopulateExact(d: Device)
    ensures Populate(d).errors == 0 <==> Clean(Symbols(d)) && BitfieldsOk(d.registers)
    ensures Populate(d).errors == 0 ==> Populate(d).table == Kept(Symbols(d))
  {
    hide Clean, BitfieldsOk, AddNames, AddRegisters, Kept;
    RegistersExact(d.registers);
    var u1 := RegisterSyms(d.registers);
    var u2 := u1 + NameSyms(d.signals, SymSignal);
    var u3 := u2 + NameSyms(d.capabilities, SymCapability);
    var s1 := AddRegisters(State([], 0), d.registers);
    var s2 := AddNames(s1, d.signals, SymSignal);
    var s3 := AddNames(s2, d.capabilities, SymCapability);
    CleanPrefix(u1, NameSyms(d.signals, SymSignal));
    CleanPrefix(u2, NameSyms(d.capabilities, SymCapability));
    CleanPrefix(u3, NameSyms(d.config, SymConfig));
    ErrorsGrow(s1, d.signals, SymSignal);
    ErrorsGrow(s2, d.capabilities, SymCapability);
    ErrorsGrow(s3, d.config, SymConfig);
    if s1.errors == 0 {
      NamesExact(s1, u1, d.signals, SymSignal);
      if s2.errors == 0 {
        NamesExact(s2, u2, d.capabilities, SymCapability);
        if s3.errors == 0 {
          NamesExact(s3, u3, d.config, SymConfig);
        }
      }
    }
  }

  lemma {:induction false} ErrorsGrow(s: State, names: seq<string>, kind: SymKind)
    ensures AddNames(s, names, kind).errors >= s.errors
  {
    if names != [] {
      ErrorsGrow(s, names[..|names|-1], kind);
    }
  }

  lemma CleanPrefix(t: seq<Sym>, u: seq<Sym>)
    ensures Clean(t + u) ==> Clean(t)
  {
    assert forall i :: 0 <= i < |t| ==> (t + u)[i] == t[i];
    if Clean(t + u) {
      forall i, j | 0 <= i < j < |t| && i < SYMTAB_MAX && t[i].name == t[j].name
        ensures t[j].kind.SymCapability?
      {
        assert (t + u)[i] == t[i] && (t + u)[j] == t[j];
      }
    }
  }

  lemma {:induction false} RegisterSymsLength(rs: seq<Register>)
    ensures |RegisterSyms(rs)| == |rs|
    ensures forall i :: 0 <= i < |rs| ==> RegisterSyms(rs)[i] == RegisterSym(rs[i])
  {
    if rs != [] {
      RegisterSymsLength(rs[..|rs|-1]);
    }
  }

  // ===== files =====

  /** The handler bodies of a driver. */
  ghost predicate IsBody(d: Driver, body: seq<Node>) {
    || d.probe == Some(body)
    || d.remove == Some(body)
    || exists i :: 0 <= i < |d.handlers| && d.handlers[i].body == body
  }

  ghost predicate BodyAllowed(t: Table, body: seq<Node>) {
    Allowed(t, Targets(body), Reads(body))
  }

  lemma {:induction false} HandlersExact(t: Table, hs: seq<Handler>)
    requires forall i :: 0 <= i < |hs| ==> Shaped(hs[i].body)
    ensures HandlerErrors(t, hs) == 0 <==> forall i :: 0 <= i < |hs| ==> BodyAllowed(t, hs[i].body)
  {
    hide Allowed;
    if hs != [] {
      var init := hs[..|hs|-1];
      HandlersExact(t, init);
      ListExact(t, hs[|hs|-1].body);
      assert forall i :: 0 <= i < |init| ==> hs[i] == init[i];
    }
  }

  /** The verdict is zero exactly when the declarations are clean, the bit ranges are in
      order, and in every handler, at every depth, every write and every checked read is
      allowed by the declared symbols. */
  lemma SemaAcceptsIff(file: File)
    requires file.device.Some? && file.driver.Some?
    requires forall body :: IsBody(file.driver.value, body) ==> Shaped(body)
    ensures var d, t := file.device.value, Symbols(file.device.value);
            Verdict(file) == 0 <==>
              && Clean(t) && BitfieldsOk(d.registers)
              && forall body :: IsBody(file.driver.value, body) ==> BodyAllowed(Kept(t), body)
  {
    hide Clean, BitfieldsOk, Allowed, Targets, Reads, Populate, Shaped, ListErrors, Symbols, BodyAllowed, Kept;
    var d, drv := file.device.value, file.driver.value;
    var t := Kept(Symbols(d));
    PopulateExact(d);
    if Populate(d).errors == 0 {
      forall i | 0 <= i < |drv.handlers|
        ensures Shaped(drv.handlers[i].body)
      {
        assert IsBody(drv, drv.handlers[i].body);
      }
      HandlersExact(t, drv.handlers);
      BodyExact(t, drv.probe);
      BodyExact(t, drv.remove);
      assert forall i :: 0 <= i < |drv.handlers| ==> IsBody(drv, drv.handlers[i].body);
      assert drv.probe.Some? ==> IsBody(drv, drv.probe.value);
      assert drv.remove.Some? ==> IsBody(drv, drv.remove.value);
    }
  }

  lemma BodyExact(t: Table, body: Option<seq<Node>>)
    requires body.Some? ==> Shaped(body.value)
    ensures OptErrors(t, body) == 0 <==> (body.Some? ==> BodyAllowed(t, body.value))
  {
    if body.Some? {
      ListExact(t, body.value);
    }
  }

  /** The verdict is never positive, and zero where no driver is to be checked, whatever the
      device declares. */
  lemma VerdictSign(file: File)
    ensures Verdict(file) <= 0 && (file.driver.None? ==> Verdict(file) == 0)
  {
  }

  // ===== read-only registers =====

  /** The driver has only bodies of the shape the parser makes. */
  ghost predicate ShapedDriver(drv: Driver) {
    forall body :: IsBody(drv, body) ==> Shaped(body)
  }

  /** The pass accepts the driver together with the device. */
  ghost predicate Accepts(d: Device, drv: Driver) {
    ShapedDriver(drv) && Verdict(File(Some(d), Some(drv))) == 0
  }

  predicate Ends(parts: seq<string>, name: string) {
    parts != [] && parts[|parts|-1] == name
  }

  predicate Enters(parts: seq<string>, name: string) {
    |parts| >= 2 && parts[1] == name
  }

  predicate HasMember(r: Register, name: string) {
    exists m :: m in r.members && m.name == name
  }

  /** What a dotted path names in the language (lang/grammar/kdc.ebnf:132): `dev.REG` the
      register, `dev.REG.member` a bitfield member inside it. */
  predicate PathNames(parts: seq<string>, r: Register) {
    Ends(parts, r.name) || (|parts| == 3 && Enters(parts, r.name) && HasMember(r, parts[2]))
  }

  /** In a device without errors, the k-th register is what its name finds if it is in the
      table, and nothing is if it is not. */
  lemma RegisterFound(d: Device, k: nat)
    requires Clean(Symbols(d)) && k < |d.registers|
    ensures var t, r := Kept(Symbols(d)), d.registers[k];
            && (k < SYMTAB_MAX ==> Find(t, r.name) == k < |t| && t[k] == RegisterSym(r))
            && (k >= SYMTAB_MAX ==> !Has(t, r.name))
  {
    var u, t := Symbols(d), Kept(Symbols(d));
    RegisterSymsLength(d.registers);
    assert u[k] == RegisterSyms(d.registers)[k] == RegisterSym(d.registers[k]);
    HasIff(t, u[k].name);
  }

  /** What finds a register in the table is one of the first registers of the device. */
  lemma FoundIsRegister(d: Device, i: nat)
    requires i < |Kept(Symbols(d))| && Kept(Symbols(d))[i].kind.SymRegister?
    ensures i < |d.registers| && Kept(Symbols(d))[i] == RegisterSym(d.registers[i])
  {
    RegisterSymsLength(d.registers);
  }

  /** The name is that of a register in the table, of that access. */
  predicate InTable(d: Device, name: string, access: Access) {
    exists j :: 0 <= j < |d.registers| && j < SYMTAB_MAX && d.registers[j].access == access && d.registers[j].name == name
  }

  /** The dotted path leads to such a register: by its last component or, when the last is
      not in the table at all, by its second. */
  predicate Reaches(d: Device, parts: seq<string>, access: Access) {
    && parts != []
    && (|| InTable(d, parts[|parts|-1], access)
        || (|parts| >= 2 && !Has(Kept(Symbols(d)), parts[|parts|-1]) && InTable(d, parts[1], access)))
  }

  /** Exactly which dotted paths are refused: as targets those that lead to a read-only
      register, elsewhere those that lead to a write-only one. */
  lemma PathRefusedIff(d: Device, parts: seq<string>, writable: bool)
    requires Clean(Symbols(d))
    ensures ExprErrors(Kept(Symbols(d)), Path(parts), writable) != 0
       <==> Reaches(d, parts, if writable then RO else WO)
  {
    hide Clean, Symbols, Kept;
    var t, access := Kept(Symbols(d)), if writable then RO else WO;
    forall k | 0 <= k < |d.registers| && k < SYMTAB_MAX
      ensures Find(t, d.registers[k].name) == k < |t| && t[k] == RegisterSym(d.registers[k])
    {
      RegisterFound(d, k);
    }
    if parts != [] && IsRegister(Resolve(t, parts), access) {
      var last := parts[|parts|-1];
      var k := if Has(t, last) then Find(t, last) else Find(t, parts[1]);
      FoundIsRegister(d, k);
    }
  }

  /** The dotted paths read in an expression. */
  function PathsIn(e: Expr): set<seq<string>> {
    match e
    case Path(parts) => {parts}
    case Bin(_, l, r) => PathsIn(l) + PathsIn(r)
    case Un(_, x) => PathsIn(x)
    case Read(x) => PathsIn(x)
    case _ => {}
  }

  lemma {:induction false} ReadRefusedIff(d: Device, e: Expr)
    requires Clean(Symbols(d))
    ensures ExprErrors(Kept(Symbols(d)), e, false) != 0 <==> exists parts :: parts in PathsIn(e) && Reaches(d, parts, WO)
  {
    hide Clean, Symbols, Kept, Reaches, Resolve;
    match e
    case Path(parts) => PathRefusedIff(d, parts, false);
    case Bin(_, l, r) =>
      ReadRefusedIff(d, l);
      ReadRefusedIff(d, r);
    case Un(_, x) => ReadRefusedIff(d, x);
    case Read(x) => ReadRefusedIff(d, x);
    case _ =>
  }

  /** Exactly which targets of a write or an assignment are refused, whatever their shape: a
      dotted path that leads to a read-only register, or any other expression that reads a
      write-only one. Identifiers and literals never are. */
  lemma TargetRefusedIff(d: Device, e: Expr)
    requires Clean(Symbols(d))
    ensures ExprErrors(Kept(Symbols(d)), e, true) != 0
       <==> if e.Path? then Reaches(d, e.parts, RO) else exists parts :: parts in PathsIn(e) && Reaches(d, parts, WO)
  {
    hide Clean, Symbols, Kept, Reaches, Resolve;
    if e.Path? {
      PathRefusedIff(d, e.parts, true);
    } else {
      ReadRefusedIff(d, e);
    }
  }

  /** The name is in the table as something else than a read-only register. A path that
      ends in it is looked up as that, whatever register it goes through. */
  predicate Hides(d: Device, name: string) {
    Has(Kept(Symbols(d)), name) && !InTable(d, name, RO)
  }

  /** With a zero verdict no write or assignment in any handler, at any if or for depth, has
      a dotted path that ends in a read-only register among the first SYMTAB_MAX, nor one
      that enters it, unless a name declared as something else hides it. */
  lemma NoWriteToReadOnly(d: Device, drv: Driver, body: seq<Node>, parts: seq<string>, k: nat)
    requires Accepts(d, drv) && IsBody(drv, body) && Path(parts) in Targets(body)
    requires k < |d.registers| && k < SYMTAB_MAX && d.registers[k].access == RO
    ensures !Ends(parts, d.registers[k].name)
    ensures Enters(parts, d.registers[k].name) ==> Hides(d, parts[|parts|-1])
  {
    hide Targets, Reads, Shaped, Verdict, Clean, Kept, Symbols, Resolve;
    SemaAcceptsIff(File(Some(d), Some(drv)));
    var t := Kept(Symbols(d));
    assert BodyAllowed(t, body);
    assert ExprErrors(t, Path(parts), true) == 0;
    PathRefusedIff(d, parts, true);
  }

  /** The driver writes to no read-only register of the device, nor to a member of one, by
      a dotted path. */
  ghost predicate SparesReadOnly(d: Device, drv: Driver) {
    forall body, parts, k ::
      IsBody(drv, body) && Path(parts) in Targets(body) && 0 <= k < |d.registers| && d.registers[k].access == RO
      ==> !PathNames(parts, d.registers[k])
  }

  /** A driver whose probe handler is the single statement `write(target, 1)`. */
  function Writer(target: Expr): Driver {
    Driver(Some([S(RegWriteStmt, [E(target), E(IntLit(1))])]), None, [])
  }

  lemma WriterShape(target: Expr)
    ensures ShapedDriver(Writer(target)) && IsBody(Writer(target), Writer(target).probe.value)
    ensures Targets(Writer(target).probe.value) == {target}
  {
    var body := Writer(target).probe.value;
    assert body[1..] == [];
    ExprListHasNoTargets(body[0].kids);
    assert Targets(body) == NodeTargets(body[0]) + Targets([]);
    var kids := body[0].kids;
    assert kids[1..][1..] == [];
    assert Shaped([]) && Shaped(kids[1..]) && Shaped(kids);
    assert ShapedNode(body[0]) && Shaped(body);
  }

  /** That driver is accepted exactly when its target is. */
  lemma WriterAcceptedIff(d: Device, target: Expr)
    requires Populate(d).errors == 0
    ensures Accepts(d, Writer(target)) <==> ExprErrors(Kept(Symbols(d)), target, true) == 0
  {
    hide Populate, Kept, Symbols;
    PopulateExact(d);
    WriterShape(target);
    var t := Kept(Symbols(d));
    var body := Writer(target).probe.value;
    assert body[1..] == [] && ListErrors(t, []) == 0;
    assert NodeErrors(t, E(IntLit(1)), false) == 0;
    assert ListErrors(t, body) == ExprErrors(t, target, true);
  }

  /** A write by a path that ends in a read-only register is refused if the register is in
      the table. Past its end, it is refused only for the sake of its second component. */
  lemma WriteRefusedIff(d: Device, k: nat, parts: seq<string>)
    requires Populate(d).errors == 0 && k < |d.registers| && d.registers[k].access == RO
    requires Ends(parts, d.registers[k].name)
    ensures !Accepts(d, Writer(Path(parts)))
       <==> k < SYMTAB_MAX || (|parts| >= 2 && InTable(d, parts[1], RO))
  {
    hide Populate, Kept, Symbols, Clean, Resolve, Accepts;
    PopulateExact(d);
    WriterAcceptedIff(d, Path(parts));
    PathRefusedIff(d, parts, true);
    SameNameSamePlace(d, k);
  }

  /** A write by a path that enters a read-only register is refused if its last component is
      a read-only register itself or, with the register in the table, is not in the table. */
  lemma MemberWriteRefusedIff(d: Device, k: nat, parts: seq<string>)
    requires Populate(d).errors == 0 && k < |d.registers| && d.registers[k].access == RO
    requires Enters(parts, d.registers[k].name)
    ensures !Accepts(d, Writer(Path(parts)))
       <==> || InTable(d, parts[|parts|-1], RO)
            || (k < SYMTAB_MAX && !Has(Kept(Symbols(d)), parts[|parts|-1]))
  {
    hide Populate, Kept, Symbols, Clean, Resolve, Accepts;
    PopulateExact(d);
    WriterAcceptedIff(d, Path(parts));
    PathRefusedIff(d, parts, true);
    SameNameSamePlace(d, k);
  }

  /** Registers of one name are on one side of the end of the table. */
  lemma SameNameSamePlace(d: Device, k: nat)
    requires Clean(Symbols(d)) && k < |d.registers|
    ensures forall j :: 0 <= j < |d.registers| && d.registers[j].name == d.registers[k].name
              ==> (j < SYMTAB_MAX <==> k < SYMTAB_MAX)
    ensures Has(Kept(Symbols(d)), d.registers[k].name) <==> k < SYMTAB_MAX
  {
    hide Kept, Symbols, Clean;
    RegisterFound(d, k);
    forall j | 0 <= j < |d.registers| && d.registers[j].name == d.registers[k].name
      ensures j < SYMTAB_MAX <==> k < SYMTAB_MAX
    {
      RegisterFound(d, j);
    }
  }

  /** The register is in the table and no declared name hides one of its members. */
  predicate Guarded(d: Device, k: nat)
    requires k < |d.registers|
  {
    k < SYMTAB_MAX && forall m :: m in d.registers[k].members ==> !Hides(d, m.name)
  }

  /** When read-only registers are safe from dotted paths: a device without errors protects
      them and their members from every driver it accepts exactly when none of them is
      declared past the end of the table and none of their members shares its name with
      something declared, read-only registers apart. */
  lemma ReadOnlyIsSafeIff(d: Device)
    requires Populate(d).errors == 0
    ensures (forall drv :: Accepts(d, drv) ==> SparesReadOnly(d, drv))
       <==> forall k :: 0 <= k < |d.registers| && d.registers[k].access == RO ==> Guarded(d, k)
  {
    hide Populate, Kept, Symbols, Clean, Targets, Verdict, Resolve, ShapedDriver, IsBody, Hides;
    PopulateExact(d);
    if forall k :: 0 <= k < |d.registers| && d.registers[k].access == RO ==> Guarded(d, k) {
      forall drv, body, parts, k
        | Accepts(d, drv) && IsBody(drv, body) && Path(parts) in Targets(body)
          && 0 <= k < |d.registers| && d.registers[k].access == RO
        ensures !PathNames(parts, d.registers[k])
      {
        assert Guarded(d, k);
        NoWriteToReadOnly(d, drv, body, parts, k);
      }
    }
    forall k | 0 <= k < |d.registers| && d.registers[k].access == RO && !Guarded(d, k)
      ensures exists drv :: Accepts(d, drv) && !SparesReadOnly(d, drv)
    {
      UnguardedIsReached(d, k);
    }
  }

  /** A register that is not guarded is named by a path that is accepted. */
  lemma UnguardedIsReached(d: Device, k: nat)
    requires Populate(d).errors == 0 && k < |d.registers| && d.registers[k].access == RO && !Guarded(d, k)
    ensures exists drv :: Accepts(d, drv) && !SparesReadOnly(d, drv)
  {
    hide Populate, Kept, Symbols, Clean, Targets, Accepts, IsBody, Hides;
    PopulateExact(d);
    var r := d.registers[k];
    var parts := ["dev", r.name];
    if k < SYMTAB_MAX {
      var m :| m in r.members && Hides(d, m.name);
      parts := ["dev", r.name, m.name];
      MemberWriteRefusedIff(d, k, parts);
      HiddenIsNotRefused(d, m.name);
    } else {
      LatePathIsAccepted(d, k);
      WriterAcceptedIff(d, Path(parts));
    }
    WriterShape(Path(parts));
    assert PathNames(parts, r);
    assert Accepts(d, Writer(Path(parts))) && !SparesReadOnly(d, Writer(Path(parts)));
  }

  lemma HiddenIsNotRefused(d: Device, name: string)
    requires Hides(d, name)
    ensures Has(Kept(Symbols(d)), name) && !InTable(d, name, RO)
  {
  }

  lemma LatePathIsAccepted(d: Device, k: nat)
    requires Clean(Symbols(d)) && SYMTAB_MAX <= k < |d.registers|
    ensures ExprErrors(Kept(Symbols(d)), Path(["dev", d.registers[k].name]), true) == 0
  {
    hide Clean, Kept, Symbols;
    RegisterFound(d, k);
  }

  /** So `write(NAME, 1)` passes whatever NAME is declared as, and no device with a
      read-only register is safe from bare identifiers. */
  lemma BareWriteIsAccepted(d: Device, name: string)
    requires Populate(d).errors == 0
    ensures Accepts(d, Writer(Ident(name))) && Ident(name) in Targets(Writer(Ident(name)).probe.value)
  {
    hide Populate, Kept, Symbols, Accepts, Targets;
    WriterAcceptedIff(d, Ident(name));
    WriterShape(Ident(name));
  }

  /** A write to the expression stores in the register, or in a member of it. */
  predicate WritesTo(e: Expr, r: Register) {
    (e.Ident? && e.name == r.name) || (e.Path? && PathNames(e.parts, r))
  }

  /** A driver no handler of which writes to a read-only register in either form. */
  ghost predicate WritesNoReadOnly(d: Device, drv: Driver) {
    forall body, e, k ::
      IsBody(drv, body) && e in Targets(body) && 0 <= k < |d.registers| && d.registers[k].access == RO
      ==> !WritesTo(e, d.registers[k])
  }

  /** With bare identifiers counted, acceptance protects exactly the devices that have no
      read-only register to protect. */
  lemma AcceptanceProtectsIff(d: Device)
    requires Populate(d).errors == 0
    ensures (forall drv :: Accepts(d, drv) ==> WritesNoReadOnly(d, drv))
       <==> forall k :: 0 <= k < |d.registers| ==> d.registers[k].access != RO
  {
    hide Populate, Targets, Accepts, IsBody;
    forall k | 0 <= k < |d.registers| && d.registers[k].access == RO
      ensures exists drv :: Accepts(d, drv) && !WritesNoReadOnly(d, drv)
    {
      var e := Ident(d.registers[k].name);
      BareWriteIsAccepted(d, e.name);
      WriterShape(e);
      assert WritesTo(e, d.registers[k]);
      assert Accepts(d, Writer(e)) && !WritesNoReadOnly(d, Writer(e));
    }
  }

  // ===== devices that are not safe =====

  /** The flag register of lang/stdlib/uart.kdh with one of its members, and the signal that
      shares the member's name. */
  const FLAGS := Device([Register("FR", 0, true, RO, [Member("tx_empty", 7, 7)])], ["tx_empty"], [], [])

  /** A write to `UART.FR.tx_empty` is accepted: the path is looked up as the signal. */
  lemma SignalHidesMember()
    ensures Populate(FLAGS).errors == 0 && PathNames(["UART", "FR", "tx_empty"], FLAGS.registers[0])
    ensures Accepts(FLAGS, Writer(Path(["UART", "FR", "tx_empty"])))
  {
    hide Accepts;
    var r, m := FLAGS.registers[0], Member("tx_empty", 7, 7);
    assert FLAGS.registers[..0] == [] && r.members[1..] == [] && m in r.members;
    assert MemberErrors(r.members) == 0;
    var t := [RegisterSym(r)];
    assert t[1..] == [] && FLAGS.signals[..0] == [];
    assert AddRegisters(State([], 0), FLAGS.registers) == State(t, 0);
    var s := AddNames(State(t, 0), FLAGS.signals, SymSignal);
    assert s == State(t + [NameSym("tx_empty", SymSignal)], 0);
    assert Populate(FLAGS) == s;
    PopulateExact(FLAGS);
    assert s.table[1..] == [NameSym("tx_empty", SymSignal)];
    assert Find(s.table, "tx_empty") == 1;
    WriterAcceptedIff(FLAGS, Path(["UART", "FR", "tx_empty"]));
  }

  function Tally(n: nat): (s: string)
    ensures |s| == n
  {
    seq(n, _ => 'r')
  }

  /** One register more than the table holds, the last of them read-only. */
  function Crowd(): (rs: seq<Register>)
    ensures |rs| == SYMTAB_MAX + 1
    ensures forall i :: 0 <= i < |rs| ==> rs[i] == Register(Tally(i), 32, false, if i == SYMTAB_MAX then RO else RW, [])
  {
    seq(SYMTAB_MAX + 1, i requires 0 <= i <= SYMTAB_MAX => Register(Tally(i), 32, false, if i == SYMTAB_MAX then RO else RW, []))
  }

  /** With 257 declared registers a write to the last one, declared read-only, passes:
      the full table dropped it. */
  lemma FullTableHidesReadOnly()
    ensures |Crowd()| == 257
    ensures var d, r := Device(Crowd(), [], [], []), Crowd()[256];
            && r.access == RO && Populate(d).errors == 0
            && Accepts(d, Writer(Path(["dev", r.name]))) && PathNames(["dev", r.name], r)
  {
    hide Populate, Kept, Accepts;
    var d := Device(Crowd(), [], [], []);
    RegisterSymsLength(d.registers);
    var u := Symbols(d);
    forall i, j | 0 <= i < j < |u|
      ensures u[i].name != u[j].name
    {
      assert |u[i].name| == i && |u[j].name| == j;
    }
    PopulateExact(d);
    LatePathIsAccepted(d, SYMTAB_MAX);
    WriterAcceptedIff(d, Path(["dev", d.registers[SYMTAB_MAX].name]));
  }

  // ===== reads the pass does not look at =====

  /** Statements whose expressions are all left alone. */
  predicate Unread(kind: Kind) {
    kind in {LetStmt, EmitStmt, WaitStmt, ArmStmt, CancelStmt, ReturnStmt, LogStmt}
  }

  /** let, emit, wait, arm, cancel, return and log are accepted whatever they read. */
  lemma {:induction false} UnreadStatementsPass(t: Table, kind: Kind, kids: seq<Node>)
    requires Unread(kind) && AllExprs(kids)
    ensures StmtErrors(t, S(kind, kids)) == 0
  {
    ExprListHasNoErrors(t, kids);
  }

  lemma {:induction false} ExprListHasNoErrors(t: Table, ns: seq<Node>)
    requires AllExprs(ns)
    ensures ListErrors(t, ns) == 0
  {
    if ns != [] {
      assert ns[0] in ns;
      ExprListHasNoErrors(t, ns[1..]);
    }
  }

  /** The bounds of a for do not matter, only its body. */
  lemma ForBoundsPass(t: Table, v: Expr, lo: Expr, hi: Expr, body: seq<Node>)
    ensures StmtErrors(t, S(ForStmt, [E(v), E(lo), E(hi)] + body)) == ListErrors(t, body)
  {
    var kids := [E(v), E(lo), E(hi)] + body;
    assert kids[3..] == body;
  }

  /** Of the children of an if, exactly the expressions at even places count as
      conditions, wherever its arms begin. */
  lemma {:induction false} ConditionsAreEven(kids: seq<Node>, e: Expr)
    ensures e in Conditions(kids) <==> exists i :: 0 <= i < |kids| && i % 2 == 0 && kids[i] == E(e)
    decreases kids
  {
    if |kids| > 2 {
      ConditionsAreEven(kids[2..], e);
      forall i | 0 <= i < |kids[2..]|
        ensures kids[2..][i] == kids[i+2] && (i + 2) % 2 == i % 2
      {
      }
      if i :| 0 <= i < |kids| && i % 2 == 0 && kids[i] == E(e) && i != 0 {
        assert kids[2..][i-2] == E(e);
      }
    }
  }

  lemma {:induction false} ListIgnoresExprs(t: Table, ns: seq<Node>, i: nat, e: Expr)
    requires i < |ns| && ns[i].E?
    ensures ListErrors(t, ns[i := E(e)]) == ListErrors(t, ns)
    decreases i
  {
    if i > 0 {
      ListIgnoresExprs(t, ns[1..], i - 1, e);
      assert ns[i := E(e)][1..] == ns[1..][i-1 := E(e)];
    } else {
      assert ns[0 := E(e)][1..] == ns[1..];
    }
  }

  /** An expression at an odd place among the children of an if - an elif condition that
      follows an even number of statements - is accepted whatever it reads. */
  lemma {:induction false} OddConditionsPass(t: Table, kids: seq<Node>, i: nat, e: Expr)
    requires i < |kids| && i % 2 == 1 && kids[i].E?
    ensures ArmErrors(t, kids[i := E(e)]) == ArmErrors(t, kids)
    decreases i
  {
    var other := kids[i := E(e)];
    ListIgnoresExprs(t, kids[1..], i - 1, e);
    assert other[1..] == kids[1..][i-1 := E(e)];
    if i > 1 {
      OddConditionsPass(t, kids[2..], i - 2, e);
      assert other[2..] == kids[2..][i-2 := E(e)];
    } else {
      assert other[2..] == kids[2..];
    }
  }
}
