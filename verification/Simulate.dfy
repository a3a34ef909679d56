/** The dry-run interpreter (tools/kdality/simulate.c): a register file of 64 named
    slots, and the evaluator and statement walker over it. */
module Simulate {
  import opened Ast

  const M: nat := 0x1_0000_0000_0000_0000
  const MAX_VREGS: nat := 64
  const NAME_LEN: nat := 64

  /** unsigned long. */
  type U64 = x: nat | x < M

  function Wrap(x: int): U64 { x % M }

  function Pow2(n: nat): nat { if n == 0 then 1 else 2 * Pow2(n - 1) }

  function Flag(b: bool): U64 { if b then 1 else 0 }

  /** The value of a shift by 64 or more, which C leaves open, is a parameter. */
  type Host = (BinOp, U64, U64) -> U64

  /** The low `n` bits of `l` and `r` combined bit by bit. */
  function Bitwise(f: (bool, bool) -> bool, l: nat, r: nat, n: nat): nat {
    if n == 0 then 0
    else (if f(l % 2 == 1, r % 2 == 1) then 1 else 0) + 2 * Bitwise(f, l / 2, r / 2, n - 1)
  }

  predicate Both(a: bool, b: bool) { a && b }
  predicate Either(a: bool, b: bool) { a || b }
  predicate JustOne(a: bool, b: bool) { a != b }

  function BitAnd(l: U64, r: U64): U64 { Wrap(Bitwise(Both, l, r, 64)) }
  function BitOr(l: U64, r: U64): U64 { Wrap(Bitwise(Either, l, r, 64)) }
  function BitXor(l: U64, r: U64): U64 { Wrap(Bitwise(JustOne, l, r, 64)) }
  function Product(l: nat, r: nat): nat { l * r }
  function Quotient(l: nat, r: nat): nat { if r != 0 then l / r else 0 }
  function Remainder(l: nat, r: nat): nat { if r != 0 then l % r else 0 }

  function BinValue(h: Host, op: BinOp, l: U64, r: U64): U64 {
    match op
    case Add => Wrap(l as int + r as int)
    case Sub => Wrap(l as int - r as int)
    case Mul => Wrap(Product(l, r))
    case Div => Wrap(Quotient(l, r))
    case Mod => Wrap(Remainder(l, r))
    case Shl => if r < 64 then Wrap(Product(l, Pow2(r))) else h(op, l, r)
    case Shr => if r < 64 then Wrap(Quotient(l, Pow2(r))) else h(op, l, r)
    case And => BitAnd(l, r)
    case Or => BitOr(l, r)
    case Xor => BitXor(l, r)
    case Eq => Flag(l == r)
    case Neq => Flag(l != r)
    case Lt => Flag(l < r)
    case Le => Flag(l <= r)
    case Gt => Flag(l > r)
    case Ge => Flag(l >= r)
    case Land => Flag(l != 0 && r != 0)
    case Lor => Flag(l != 0 || r != 0)
  }

  function UnValue(op: UnOp, v: U64): U64 {
    match op
    case Neg => Wrap(0 - v as int)
    case Not => Flag(v == 0)
    case Inv => M - 1 - v
  }

  /** expr_reg_name. */
  function RegName(e: Expr): string {
    match e
    case Path(parts) => if parts == [] then "?" else parts[|parts| - 1]
    case Ident(name) => name
    case _ => "?"
  }

  function ExprOf(n: Node): Expr {
    if n.E? then n.e else Null
  }

  /** The expression of child `i`; a missing child, or a statement where an expression
      is evaluated, counts as a null pointer. */
  function Child(kids: seq<Node>, i: nat): Expr {
    if i < |kids| then ExprOf(kids[i]) else Null
  }

  // ===== the loop of a for statement =====

  function Limit(lo: U64): U64 { Wrap(lo as int + 10000) }

  predicate Guard(lo: U64, hi: U64, i: U64) { i <= hi && i <= Limit(lo) }

  /** The loop counter after `k` increments. */
  function Counter(lo: U64, k: nat): U64 { Wrap(lo as int + k) }

  /** The one pair of bounds for which the guard never fails. */
  predicate Endless(lo: U64, hi: U64) { lo == M - 10001 && hi == M - 1 }

  function Trips(lo: U64, hi: U64): nat {
    if lo <= hi && lo <= Limit(lo) then (if hi < Limit(lo) then hi else Limit(lo)) - lo + 1 else 0
  }

  /** The guard holds before each of the first `Trips` iterations and not after them;
      for the endless pair it holds for ever. */
  lemma LoopRuns(lo: U64, hi: U64)
    ensures Endless(lo, hi) ==> forall k: nat :: Guard(lo, hi, Counter(lo, k))
    ensures !Endless(lo, hi) ==>
              && (forall k: nat :: k < Trips(lo, hi) ==> Guard(lo, hi, Counter(lo, k)))
              && !Guard(lo, hi, Counter(lo, Trips(lo, hi)))
  {
    var limit := Limit(lo);
    if Endless(lo, hi) {
      assert limit == M - 1;
    } else {
      var n := Trips(lo, hi);
      assert n > 0 ==> lo + (n - 1) <= hi && lo + (n - 1) <= limit;
      forall k: nat | k < n
        ensures Guard(lo, hi, Counter(lo, k))
      {
        assert lo as int + k < M;
      }
      assert n > 0 ==> lo + n < M;
    }
  }

  /** The loop ends exactly when the bounds are not the endless pair. */
  lemma LoopEndsIff(lo: U64, hi: U64)
    ensures (exists k: nat :: !Guard(lo, hi, Counter(lo, k))) <==> !Endless(lo, hi)
  {
    LoopRuns(lo, hi);
  }

  /** Away from the wrap the loop runs min(hi - lo + 1, 10001) times. */
  lemma LoopCount(lo: U64, hi: U64)
    requires lo <= hi && lo <= M - 10002
    ensures !Endless(lo, hi)
    ensures Trips(lo, hi) == if hi - lo + 1 < 10001 then hi - lo + 1 else 10001
  {
    assert Limit(lo) == lo + 10000;
  }

  // ===== meaning over default-zero maps =====

  type Mem = map<string, U64>

  function Get(m: Mem, name: string): U64 {
    if name in m then m[name] else 0
  }

  function Meaning(h: Host, m: Mem, e: Expr): U64 {
    match e
    case Null => 0
    case IntLit(v) => Wrap(v)
    case BoolLit(b) => Flag(b)
    case StrLit(_) => 0
    case Ident(name) => Get(m, name)
    case Path(_) => Get(m, RegName(e))
    case Read(x) => Get(m, RegName(x))
    case Un(op, x) => UnValue(op, Meaning(h, m, x))
    case Bin(op, l, r) => BinValue(h, op, Meaning(h, m, l), Meaning(h, m, r))
  }

  /** A run either halts with some state or is caught in an endless loop. */
  datatype Run<S> = Halts(s: S) | Loops

  /** Big-step meaning of a sibling list, over maps. As in the code a return ends the list it
      stands in; what it should end is in `ProgramMeaning`. */
  function Runs(h: Host, m: Mem, ns: seq<Node>): Run<Mem>
    decreases ns, 0
  {
    if ns == [] || (ns[0].S? && ns[0].kind.ReturnStmt?) then Halts(m)
    else
      match RunOne(h, m, ns[0])
      case Loops => Loops
      case Halts(m') => Runs(h, m', ns[1..])
  }

  function RunOne(h: Host, m: Mem, n: Node): Run<Mem>
    decreases n, 2
  {
    match n
    case E(_) => Halts(m)
    case S(kind, kids) =>
      match kind
      case RegWriteStmt | AssignStmt => Halts(m[RegName(Child(kids, 0)) := Meaning(h, m, Child(kids, 1))])
      case IfStmt => RunArms(h, m, kids)
      case ForStmt =>
        var lo, hi := Meaning(h, m, Child(kids, 1)), Meaning(h, m, Child(kids, 2));
        if Endless(lo, hi) then Loops
        else if |kids| <= 3 then Halts(m)
        else RunTimes(h, m, kids[3..], Trips(lo, hi))
      case Invalid => Runs(h, m, kids)
      case _ => Halts(m)
  }

  /** The children of an if: the first condition that holds runs everything after it. */
  function RunArms(h: Host, m: Mem, kids: seq<Node>): Run<Mem>
    decreases kids, 1
  {
    if kids == [] then Halts(m)
    else if Meaning(h, m, Child(kids, 0)) != 0 && |kids| > 1 then Runs(h, m, kids[1..])
    else if |kids| > 2 then RunArms(h, m, kids[2..])
    else Halts(m)
  }

  function RunTimes(h: Host, m: Mem, body: seq<Node>, n: nat): Run<Mem>
    decreases body, 1, n
  {
    if n == 0 then Halts(m)
    else
      match RunTimes(h, m, body, n - 1)
      case Loops => Loops
      case Halts(m') => Runs(h, m', body)
  }

  // ===== what the code does: a bounded array of named registers =====

  datatype VReg = VReg(name: string, value: U64)
  type File = seq<VReg>

  /** strncpy into a zeroed field keeps 63 characters. */
  function Stored(name: string): string {
    if |name| < NAME_LEN then name else name[..NAME_LEN - 1]
  }

  function Find(f: File, name: string): (i: nat)
    ensures i <= |f| && (i < |f| ==> f[i].name == name)
    ensures forall j :: 0 <= j < i ==> f[j].name != name
  {
    if f == [] || f[0].name == name then 0 else 1 + Find(f[1..], name)
  }

  function Value(f: File, name: string): U64 {
    var i := Find(f, name);
    if i < |f| then f[i].value else 0
  }

  function AfterRead(f: File, name: string): File {
    if Find(f, name) == |f| && |f| < MAX_VREGS then f + [VReg(Stored(name), 0)] else f
  }

  function AfterWrite(f: File, name: string, v: U64): File {
    var i := Find(f, name);
    if i < |f| then f[i := f[i].(value := v)]
    else if |f| < MAX_VREGS then f + [VReg(Stored(name), v)]
    else f
  }

  function Eval(h: Host, f: File, e: Expr): (r: (U64, File))
    decreases e
  {
    match e
    case Null => (0, f)
    case IntLit(v) => (Wrap(v), f)
    case BoolLit(b) => (Flag(b), f)
    case StrLit(_) => (0, f)
    case Ident(name) => (Value(f, name), AfterRead(f, name))
    case Path(_) => (Value(f, RegName(e)), AfterRead(f, RegName(e)))
    case Read(x) => (Value(f, RegName(x)), AfterRead(f, RegName(x)))
    case Un(op, x) => var a := Eval(h, f, x); (UnValue(op, a.0), a.1)
    case Bin(op, l, r) =>
      var a := Eval(h, f, l);
      var b := Eval(h, a.1, r);
      (BinValue(h, op, a.0, b.0), b.1)
  }

  function Exec(h: Host, f: File, ns: seq<Node>): Run<File>
    decreases ns, 0
  {
    if ns == [] || (ns[0].S? && ns[0].kind.ReturnStmt?) then Halts(f)
    else
      match ExecOne(h, f, ns[0])
      case Loops => Loops
      case Halts(f') => Exec(h, f', ns[1..])
  }

  function ExecOne(h: Host, f: File, n: Node): Run<File>
    decreases n, 2
  {
    match n
    case E(_) => Halts(f)
    case S(kind, kids) =>
      match kind
      case RegWriteStmt | AssignStmt =>
        var v := Eval(h, f, Child(kids, 1));
        Halts(AfterWrite(v.1, RegName(Child(kids, 0)), v.0))
      case LetStmt => Halts(Eval(h, f, Child(kids, 1)).1)
      case IfStmt => ExecArms(h, f, kids)
      case ForStmt =>
        var lo := Eval(h, f, Child(kids, 1));
        var hi := Eval(h, lo.1, Child(kids, 2));
        if Endless(lo.0, hi.0) then Loops
        else if |kids| <= 3 then Halts(hi.1)
        else ExecTimes(h, hi.1, kids[3..], Trips(lo.0, hi.0))
      case Invalid => Exec(h, f, kids)
      case _ => Halts(f)
  }

  function ExecArms(h: Host, f: File, kids: seq<Node>): Run<File>
    decreases kids, 1
  {
    if kids == [] then Halts(f)
    else
      var c := Eval(h, f, Child(kids, 0));
      if c.0 != 0 && |kids| > 1 then Exec(h, c.1, kids[1..])
      else if |kids| > 2 then ExecArms(h, c.1, kids[2..])
      else Halts(c.1)
  }

  function ExecTimes(h: Host, f: File, body: seq<Node>, n: nat): Run<File>
    decreases body, 1, n
  {
    if n == 0 then Halts(f)
    else
      match ExecTimes(h, f, body, n - 1)
      case Loops => Loops
      case Halts(f') => Exec(h, f', body)
  }

  // ===== the interpreter itself =====

  class Simulator {
    const host: Host
    const regs: array<VReg>
    var nregs: nat

    ghost predicate Valid()
      reads this
    {
      regs.Length == MAX_VREGS && nregs <= MAX_VREGS
    }

    /** The registers in use. */
    ghost function Used(): File
      reads this, regs
      requires Valid()
    {
      regs[..nregs]
    }

    constructor (h: Host)
      ensures Valid() && fresh(regs) && Used() == [] && host == h
    {
      host := h;
      regs := new VReg[MAX_VREGS](_ => VReg("", 0));
      nregs := 0;
    }

    method RegRead(name: string) returns (v: U64)
      requires Valid()
      modifies this`nregs, regs
      ensures Valid() && v == Value(old(Used()), name) && Used() == AfterRead(old(Used()), name)
    {
      for i := 0 to nregs
        invariant Find(regs[..nregs], name) == i + Find(regs[i..nregs], name)
      {
        assert regs[i..nregs][1..] == regs[i+1..nregs];
        if regs[i].name == name {
          return regs[i].value;
        }
      }
      if nregs < MAX_VREGS {
        regs[nregs] := VReg(Stored(name), 0);
        nregs := nregs + 1;
      }
      v := 0;
    }

    method RegWrite(name: string, v: U64)
      requires Valid()
      modifies this`nregs, regs
      ensures Valid() && Used() == AfterWrite(old(Used()), name, v)
    {
      for i := 0 to nregs
        invariant Find(regs[..nregs], name) == i + Find(regs[i..nregs], name)
      {
        assert regs[i..nregs][1..] == regs[i+1..nregs];
        if regs[i].name == name {
          regs[i] := regs[i].(value := v);
          return;
        }
      }
      if nregs < MAX_VREGS {
        regs[nregs] := VReg(Stored(name), v);
        nregs := nregs + 1;
      }
    }

    method EvalExpr(e: Expr) returns (v: U64)
      requires Valid()
      modifies this`nregs, regs
      ensures Valid() && (v, Used()) == Eval(host, old(Used()), e)
      decreases e
    {
      hide Value, AfterRead, BinValue, UnValue;
      match e
      case Null => v := 0;
      case IntLit(n) => v := Wrap(n);
      case BoolLit(b) => v := Flag(b);
      case StrLit(_) => v := 0;
      case Ident(name) => v := RegRead(name);
      case Path(_) => v := RegRead(RegName(e));
      case Read(x) => v := RegRead(RegName(x));
      case Un(op, x) =>
        var a := EvalExpr(x);
        v := UnValue(op, a);
      case Bin(op, l, r) =>
        var a := EvalExpr(l);
        var b := EvalExpr(r);
        v := BinValue(host, op, a, b);
    }

    /** sim_exec; `halted` is false where the code would loop for ever. */
    method ExecList(ns: seq<Node>) returns (halted: bool)
      requires Valid()
      modifies this`nregs, regs
      ensures Valid()
      ensures var r := Exec(host, old(Used()), ns);
              halted == r.Halts? && (halted ==> Used() == r.s)
      decreases ns, 0
    {
      hide Eval, AfterWrite;
      ghost var all := Exec(host, Used(), ns);
      var i := 0;
      while i < |ns|
        invariant Valid() && i <= |ns|
        invariant Exec(host, Used(), ns[i..]) == all
      {
        var n := ns[i];
        if n.S? && n.kind.ReturnStmt? {
          return true;
        }
        assert ns[i..][1..] == ns[i+1..];
        var ok := ExecStatement(n);
        if !ok {
          return false;
        }
        i := i + 1;
      }
      halted := true;
    }

    method ExecStatement(n: Node) returns (halted: bool)
      requires Valid()
      modifies this`nregs, regs
      ensures Valid()
      ensures var r := ExecOne(host, old(Used()), n);
              halted == r.Halts? && (halted ==> Used() == r.s)
      decreases n, 2
    {
      hide Eval, AfterWrite;
      halted := true;
      if n.S? {
        match n.kind
        case RegWriteStmt | AssignStmt =>
          var v := EvalExpr(Child(n.kids, 1));
          RegWrite(RegName(Child(n.kids, 0)), v);
        case LetStmt =>
          var _ := EvalExpr(Child(n.kids, 1));
        case IfStmt =>
          halted := ExecIf(n.kids);
        case ForStmt =>
          halted := ExecFor(n.kids);
        case Invalid =>
          halted := ExecList(n.kids);
        case _ =>
      }
    }

    method ExecIf(kids: seq<Node>) returns (halted: bool)
      requires Valid()
      modifies this`nregs, regs
      ensures Valid()
      ensures var r := ExecArms(host, old(Used()), kids);
              halted == r.Halts? && (halted ==> Used() == r.s)
      decreases kids, 1
    {
      hide Eval;
      ghost var all := ExecArms(host, Used(), kids);
      var i := 0;
      while i < |kids|
        invariant Valid() && i <= |kids|
        invariant ExecArms(host, Used(), kids[i..]) == all
      {
        assert Child(kids[i..], 0) == Child(kids, i);
        var cond := EvalExpr(Child(kids, i));
        if cond != 0 && i + 1 < |kids| {
          assert kids[i..][1..] == kids[i+1..];
          halted := ExecList(kids[i+1..]);
          return;
        }
        if i + 2 < |kids| {
          assert kids[i..][2..] == kids[i+2..];
          i := i + 2;
        } else {
          i := |kids|;
        }
      }
      halted := true;
    }

    method ExecFor(kids: seq<Node>) returns (halted: bool)
      requires Valid()
      modifies this`nregs, regs
      ensures Valid()
      ensures var r := ExecOne(host, old(Used()), S(ForStmt, kids));
              halted == r.Halts? && (halted ==> Used() == r.s)
      decreases kids, 1
    {
      hide Eval;
      var lo := EvalExpr(Child(kids, 1));
      var hi := EvalExpr(Child(kids, 2));
      if Endless(lo, hi) {
        return false;
      }
      if |kids| <= 3 {
        return true;
      }
      halted := ExecBody(kids[3..], lo, hi);
    }

    /** The loop itself, with its wrapping counter. */
    method ExecBody(body: seq<Node>, lo: U64, hi: U64) returns (halted: bool)
      requires Valid() && !Endless(lo, hi)
      modifies this`nregs, regs
      ensures Valid()
      ensures var r := ExecTimes(host, old(Used()), body, Trips(lo, hi));
              halted == r.Halts? && (halted ==> Used() == r.s)
      decreases body, 1
    {
      hide Eval, Exec, Trips, Guard, Endless, Limit, Counter;
      var i := lo;
      ghost var k: nat := 0;
      GuardAt(lo, hi, 0);
      while Guard(lo, hi, i)
        invariant Valid() && k <= Trips(lo, hi) && i == Counter(lo, k)
        invariant Guard(lo, hi, i) <==> k < Trips(lo, hi)
        invariant ExecTimes(host, old(Used()), body, k) == Halts(Used())
        decreases Trips(lo, hi) - k
      {
        var ok := ExecList(body);
        if !ok {
          LoopsStay(host, old(Used()), body, k + 1, Trips(lo, hi));
          return false;
        }
        i := Wrap(i as int + 1);
        k := k + 1;
        GuardAt(lo, hi, k);
      }
      halted := true;
    }
  }

  lemma GuardAt(lo: U64, hi: U64, k: nat)
    requires !Endless(lo, hi) && k <= Trips(lo, hi)
    ensures Guard(lo, hi, Counter(lo, k)) <==> k < Trips(lo, hi)
    ensures Counter(lo, 0) == lo && (k > 0 ==> Counter(lo, k) == Wrap(Counter(lo, k - 1) as int + 1))
  {
    LoopRuns(lo, hi);
  }

  lemma {:induction false} LoopsStay(h: Host, f: File, body: seq<Node>, k: nat, n: nat)
    requires k <= n && ExecTimes(h, f, body, k).Loops?
    ensures ExecTimes(h, f, body, n).Loops?
  {
    if k < n {
      LoopsStay(h, f, body, k, n - 1);
    }
  }
}
