/** The semantic pass (compiler/sema.c): the global symbol table and the access checks. */
module Sema {
  import opened Wrappers
  import opened Ast

  const SYMTAB_MAX: nat := 256

  datatype Access = RW | RO | WO | RC
  datatype SymKind = SymRegister | SymSignal | SymCapability | SymConfig
  datatype Sym = Sym(name: string, kind: SymKind, width: int, access: Access)

  // ----- declarations, as the parser leaves them -----

  datatype Member = Member(name: string, lo: int, hi: int)
  datatype Register = Register(name: string, width: int, isBitfield: bool, access: Access, members: seq<Member>)
  datatype Device = Device(registers: seq<Register>, signals: seq<string>, capabilities: seq<string>, config: seq<string>)
  datatype Handler = Handler(body: seq<Node>)
  datatype Driver = Driver(probe: Option<seq<Node>>, remove: Option<seq<Node>>, handlers: seq<Handler>)
  datatype File = File(device: Option<Device>, driver: Option<Driver>)

  // ===== what the pass computes =====

  type Table = seq<Sym>

  /** symtab_find: the index of the first symbol of that name, or the length. */
  function Find(t: Table, name: string): (i: nat)
    ensures i <= |t| && (i < |t| ==> t[i].name == name)
    ensures forall j :: 0 <= j < i ==> t[j].name != name
  {
    if t == [] || t[0].name == name then 0 else 1 + Find(t[1..], name)
  }

  predicate Has(t: Table, name: string) { Find(t, name) < |t| }

  /** symtab_push: a full table drops the symbol. */
  function Push(t: Table, s: Sym): Table {
    if |t| >= SYMTAB_MAX then t else t + [s]
  }

  /** The symbol a path resolves to: by its last component, else by its second. */
  function Resolve(t: Table, parts: seq<string>): Option<Sym>
  {
    if parts == [] then None
    else
      var i := Find(t, parts[|parts| - 1]);
      if i < |t| then Some(t[i])
      else if |parts| >= 2 && Has(t, parts[1]) then Some(t[Find(t, parts[1])])
      else None
  }

  function Count(b: bool): nat { if b then 1 else 0 }

  predicate IsRegister(s: Option<Sym>, access: Access) {
    s.Some? && s.value.kind.SymRegister? && s.value.access == access
  }

  /** Errors of sema_check_expr. */
  function ExprErrors(t: Table, e: Expr, writable: bool): nat {
    match e
    case Path(parts) => Count(IsRegister(Resolve(t, parts), if writable then RO else WO))
    case Bin(_, l, r) => ExprErrors(t, l, false) + ExprErrors(t, r, false)
    case Un(_, x) => ExprErrors(t, x, false)
    case Read(x) => ExprErrors(t, x, false)
    case _ => 0
  }

  function NodeErrors(t: Table, n: Node, writable: bool): nat {
    if n.E? then ExprErrors(t, n.e, writable) else 0
  }

  /** Errors of the first two children of a write or an assignment. */
  function AccessErrors(t: Table, kids: seq<Node>): nat {
    (if |kids| > 0 then NodeErrors(t, kids[0], true) else 0)
    + if |kids| > 1 then NodeErrors(t, kids[1], false) else 0
  }

  /** Errors of sema_check_stmts over a sibling list. */
  function ListErrors(t: Table, ns: seq<Node>): nat
    decreases ns, 0
  {
    if ns == [] then 0 else StmtErrors(t, ns[0]) + ListErrors(t, ns[1..])
  }

  function StmtErrors(t: Table, n: Node): nat
    decreases n, 2
  {
    match n
    case E(_) => 0
    case S(kind, kids) =>
      match kind
      case RegWriteStmt | AssignStmt => AccessErrors(t, kids)
      case WaitStmt => 0
      case ForStmt => if |kids| > 3 then ListErrors(t, kids[3..]) else 0
      case IfStmt => ArmErrors(t, kids)
      case _ => ListErrors(t, kids)
  }

  /** The condition/body walk of an if: every even child as a condition, and the whole
      rest of the list after it as a body. */
  function ArmErrors(t: Table, kids: seq<Node>): nat
    decreases kids, 1
  {
    if kids == [] then 0
    else
      NodeErrors(t, kids[0], false)
      + (if |kids| > 1 then ListErrors(t, kids[1..]) else 0)
      + (if |kids| > 2 then ArmErrors(t, kids[2..]) else 0)
  }

  function MemberErrors(ms: seq<Member>): nat {
    if ms == [] then 0 else Count(ms[0].lo > ms[0].hi) + MemberErrors(ms[1..])
  }

  function RegisterSym(r: Register): Sym { Sym(r.name, SymRegister, r.width, r.access) }
  function NameSym(name: string, kind: SymKind): Sym { Sym(name, kind, 0, RW) }

  /** Table and error count after a step of sema_populate_device. */
  datatype State = State(table: Table, errors: nat)

  function AddRegister(s: State, r: Register): State {
    if Has(s.table, r.name) then s.(errors := s.errors + 1)
    else State(Push(s.table, RegisterSym(r)), s.errors + if r.isBitfield then MemberErrors(r.members) else 0)
  }

  /** A signal, capability or config field; a duplicate capability is only a warning. */
  function AddName(s: State, name: string, kind: SymKind): State {
    if Has(s.table, name) && !kind.SymCapability? then s.(errors := s.errors + 1)
    else s.(table := Push(s.table, NameSym(name, kind)))
  }

  function AddRegisters(s: State, rs: seq<Register>): State {
    if rs == [] then s else AddRegister(AddRegisters(s, rs[..|rs|-1]), rs[|rs|-1])
  }

  function AddNames(s: State, names: seq<string>, kind: SymKind): State {
    if names == [] then s else AddName(AddNames(s, names[..|names|-1], kind), names[|names|-1], kind)
  }

  function Populate(d: Device): State {
    var s1 := AddRegisters(State([], 0), d.registers);
    var s2 := AddNames(s1, d.signals, SymSignal);
    var s3 := AddNames(s2, d.capabilities, SymCapability);
    AddNames(s3, d.config, SymConfig)
  }

  function Declared(file: File): State {
    if file.device.Some? then Populate(file.device.value) else State([], 0)
  }

  function OptErrors(t: Table, body: Option<seq<Node>>): nat {
    if body.Some? then ListErrors(t, body.value) else 0
  }

  function HandlerErrors(t: Table, hs: seq<Handler>): nat {
    if hs == [] then 0 else HandlerErrors(t, hs[..|hs|-1]) + ListErrors(t, hs[|hs|-1].body)
  }

  function Errors(file: File): nat
    requires file.driver.Some?
  {
    var s, d := Declared(file), file.driver.value;
    s.errors + OptErrors(s.table, d.probe) + OptErrors(s.table, d.remove) + HandlerErrors(s.table, d.handlers)
  }

  /** kdal_sema: zero, or minus the number of errors; a file with no driver passes. */
  function Verdict(file: File): int {
    if file.driver.None? then 0 else 0 - Errors(file)
  }

  // ===== the pass itself =====

  class Checker {
    const entries: array<Sym>
    var count: nat
    var errors: nat

    ghost predicate Valid()
      reads this
    {
      entries.Length == SYMTAB_MAX && count <= SYMTAB_MAX
    }

    ghost function Table(): Table
      reads this, entries
      requires Valid()
    {
      entries[..count]
    }

    ghost function Now(): State
      reads this, entries
      requires Valid()
    {
      State(Table(), errors)
    }

    constructor ()
      ensures Valid() && fresh(entries) && Now() == State([], 0)
    {
      entries := new Sym[SYMTAB_MAX](_ => Sym("", SymRegister, 0, RW));
      count, errors := 0, 0;
    }

    method PushSym(s: Sym)
      requires Valid()
      modifies this`count, entries
      ensures Valid() && Table() == Push(old(Table()), s)
    {
      if count >= SYMTAB_MAX {
        return;
      }
      entries[count] := s;
      count := count + 1;
    }

    method FindSym(name: string) returns (i: nat)
      requires Valid()
      ensures i == Find(Table(), name)
    {
      i := 0;
      while i < count
        invariant i <= count
        invariant Find(Table(), name) == i + Find(entries[i..count], name)
      {
        assert entries[i..count][1..] == entries[i+1..count];
        if entries[i].name == name {
          return;
        }
        i := i + 1;
      }
    }

    method CheckExpr(e: Expr, writable: bool)
      requires Valid()
      modifies this`errors
      ensures errors == old(errors) + ExprErrors(Table(), e, writable)
      decreases e
    {
      match e
      case Path(parts) =>
        if parts != [] {
          var i := FindSym(parts[|parts| - 1]);
          if i == count && |parts| >= 2 {
            i := FindSym(parts[1]);
          }
          if i < count && entries[i].kind.SymRegister?
             && entries[i].access == (if writable then RO else WO) {
            errors := errors + 1;
          }
        }
      case Bin(_, l, r) =>
        CheckExpr(l, false);
        CheckExpr(r, false);
      case Un(_, x) => CheckExpr(x, false);
      case Read(x) => CheckExpr(x, false);
      case _ =>
    }

    method CheckNode(n: Node, writable: bool)
      requires Valid()
      modifies this`errors
      ensures errors == old(errors) + NodeErrors(Table(), n, writable)
    {
      if n.E? {
        CheckExpr(n.e, writable);
      }
    }

    method CheckStmts(ns: seq<Node>)
      requires Valid()
      modifies this`errors
      ensures errors == old(errors) + ListErrors(Table(), ns)
      decreases ns, 0
    {
      hide AccessErrors, NodeErrors;
      var i := 0;
      while i < |ns|
        invariant i <= |ns|
        invariant errors + ListErrors(Table(), ns[i..]) == old(errors) + ListErrors(Table(), ns)
      {
        assert ns[i..][1..] == ns[i+1..];
        CheckStmt(ns[i]);
        i := i + 1;
      }
    }

    method CheckStmt(n: Node)
      requires Valid()
      modifies this`errors
      ensures errors == old(errors) + StmtErrors(Table(), n)
      decreases n, 2
    {
      if n.S? {
        match n.kind
        case RegWriteStmt | AssignStmt =>
          if |n.kids| > 0 {
            CheckNode(n.kids[0], true);
          }
          if |n.kids| > 1 {
            CheckNode(n.kids[1], false);
          }
        case WaitStmt =>
        case ForStmt =>
          if |n.kids| > 3 {
            CheckStmts(n.kids[3..]);
          }
        case IfStmt => CheckArms(n.kids);
        case _ => CheckStmts(n.kids);
      }
    }

    method CheckArms(kids: seq<Node>)
      requires Valid()
      modifies this`errors
      ensures errors == old(errors) + ArmErrors(Table(), kids)
      decreases kids, 1
    {
      hide NodeErrors;
      var i := 0;
      while i < |kids|
        invariant i <= |kids|
        invariant errors + ArmErrors(Table(), kids[i..]) == old(errors) + ArmErrors(Table(), kids)
      {
        assert |kids| > i + 1 ==> kids[i..][1..] == kids[i+1..];
        assert |kids| > i + 2 ==> kids[i..][2..] == kids[i+2..];
        CheckNode(kids[i], false);
        if i + 1 < |kids| {
          CheckStmts(kids[i+1..]);
        }
        i := if i + 2 < |kids| then i + 2 else |kids|;
      }
    }

    method PopulateRegister(r: Register)
      requires Valid()
      modifies this, entries
      ensures Valid() && Now() == AddRegister(old(Now()), r)
    {
      var i := FindSym(r.name);
      if i < count {
        errors := errors + 1;
        return;
      }
      PushSym(RegisterSym(r));
      if r.isBitfield {
        var k := 0;
        while k < |r.members|
          invariant k <= |r.members|
          invariant Valid() && Table() == Push(old(Table()), RegisterSym(r))
          invariant errors + MemberErrors(r.members[k..]) == old(errors) + MemberErrors(r.members)
        {
          assert r.members[k..][1..] == r.members[k+1..];
          if r.members[k].lo > r.members[k].hi {
            errors := errors + 1;
          }
          k := k + 1;
        }
      }
    }

    method PopulateNames(names: seq<string>, kind: SymKind)
      requires Valid()
      modifies this, entries
      ensures Valid() && Now() == AddNames(old(Now()), names, kind)
    {
      for k := 0 to |names|
        invariant Valid() && Now() == AddNames(old(Now()), names[..k], kind)
      {
        assert names[..k+1][..k] == names[..k];
        var i := FindSym(names[k]);
        if i < count && !kind.SymCapability? {
          errors := errors + 1;
        } else {
          PushSym(NameSym(names[k], kind));
        }
      }
      assert names[..|names|] == names;
    }

    method PopulateDevice(d: Device)
      requires Valid() && Now() == State([], 0)
      modifies this, entries
      ensures Valid() && Now() == Populate(d)
    {
      for k := 0 to |d.registers|
        invariant Valid() && Now() == AddRegisters(State([], 0), d.registers[..k])
      {
        assert d.registers[..k+1][..k] == d.registers[..k];
        PopulateRegister(d.registers[k]);
      }
      assert d.registers[..|d.registers|] == d.registers;
      PopulateNames(d.signals, SymSignal);
      PopulateNames(d.capabilities, SymCapability);
      PopulateNames(d.config, SymConfig);
    }
  }

  method KdalSema(file: File) returns (verdict: int)
    ensures verdict == Verdict(file)
  {
    var c := new Checker();
    if file.device.Some? {
      c.PopulateDevice(file.device.value);
    }
    if file.driver.None? {
      return 0;
    }
    var d := file.driver.value;
    ghost var s := Declared(file);
    if d.probe.Some? {
      c.CheckStmts(d.probe.value);
    }
    if d.remove.Some? {
      c.CheckStmts(d.remove.value);
    }
    ghost var before := c.errors;
    for k := 0 to |d.handlers|
      invariant c.Valid() && c.Table() == s.table
      invariant c.errors == before + HandlerErrors(s.table, d.handlers[..k])
    {
      assert d.handlers[..k+1][..k] == d.handlers[..k];
      c.CheckStmts(d.handlers[k].body);
    }
    assert d.handlers[..|d.handlers|] == d.handlers;
    verdict := if c.errors > 0 then 0 - c.errors else 0;
  }
}
