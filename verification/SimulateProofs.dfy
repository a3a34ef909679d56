/** The register file of the simulator refines a map whose missing names read as zero,
    as long as the names used are short and fit in the file. */
module SimulateProofs {
  import opened Ast
  import opened Simulate
  import G = Grammar
  import SG = StmtGrammar
  import T = Tokens

  function NamesIn(f: File): set<string> {
    set r | r in f :: r.name
  }

  ghost predicate Distinct(f: File) {
    forall i, j :: 0 <= i < j < |f| ==> f[i].name != f[j].name
  }

  /** The array denotes the map: every name has the same value in both. */
  ghost predicate Denotes(f: File, m: Mem) {
    forall name :: Value(f, name) == Get(m, name)
  }

  /** A set of names the file can hold. */
  ghost predicate Fits(names: set<string>) {
    |names| <= MAX_VREGS && forall n :: n in names ==> |n| < NAME_LEN
  }

  /** The invariant of every run over names taken from `names`. */
  ghost predicate Inv(f: File, names: set<string>) {
    Distinct(f) && NamesIn(f) <= names && Fits(names)
  }

  // ----- single accesses -----

  lemma {:induction false} DistinctCount(f: File)
    requires Distinct(f)
    ensures |NamesIn(f)| == |f|
  {
    if f != [] {
      var last := f[|f|-1];
      DistinctCount(f[..|f|-1]);
      assert NamesIn(f) == NamesIn(f[..|f|-1]) + {last.name};
    }
  }

  lemma FindAppend(f: File, r: VReg, name: string)
    ensures Find(f + [r], name) == if Find(f, name) < |f| then Find(f, name)
                                   else if r.name == name then |f| else |f| + 1
  {
    var g := f + [r];
    var i := Find(f, name);
    assert forall j :: 0 <= j < |f| ==> g[j] == f[j];
    var k := Find(g, name);
    if i < |f| {
      assert g[i].name == name;
    } else {
      assert g[|f|] == r;
      assert forall j :: 0 <= j < |f| ==> g[j].name != name;
    }
  }

  /** A name of the set that is not in the file finds a free slot. */
  lemma RoomForNew(f: File, names: set<string>, name: string)
    requires Inv(f, names) && name in names && Find(f, name) == |f|
    ensures |f| < MAX_VREGS
    ensures forall v: U64 :: Inv(f + [VReg(name, v)], names)
  {
    DistinctCount(f);
    assert name !in NamesIn(f);
    assert NamesIn(f) < names;
    SubsetSize(NamesIn(f), names);
  }

  lemma {:induction false} SubsetSize<T>(a: set<T>, b: set<T>)
    requires a < b
    ensures |a| < |b|
  {
    var rest := b - a;
    assert b == a + rest && a !! rest;
    assert rest != {};
  }

  /** Reads never change what the file denotes, whatever its size and the name. */
  lemma ReadKeepsMap(f: File, name: string, other: string)
    ensures Value(AfterRead(f, name), other) == Value(f, other)
  {
    FindAppend(f, VReg(Stored(name), 0), other);
  }

  lemma ReadKeepsInv(f: File, names: set<string>, name: string)
    requires Inv(f, names) && name in names
    ensures Inv(AfterRead(f, name), names)
  {
    if Find(f, name) == |f| {
      RoomForNew(f, names, name);
    }
  }

  lemma FindUpdate(f: File, i: nat, v: U64, name: string)
    requires i < |f|
    ensures Find(f[i := f[i].(value := v)], name) == Find(f, name)
  {
    var g := f[i := f[i].(value := v)];
    assert forall j :: 0 <= j < |f| ==> g[j].name == f[j].name;
    var a, b := Find(f, name), Find(g, name);
    assert a < |f| ==> g[a].name == name;
    assert b < |f| ==> f[b].name == name;
  }

  /** The value of every other name survives a write. */
  lemma WriteFrames(f: File, name: string, v: U64, other: string)
    requires |name| < NAME_LEN && other != name
    ensures Value(AfterWrite(f, name, v), other) == Value(f, other)
  {
    var i := Find(f, name);
    if i < |f| {
      FindUpdate(f, i, v, other);
    } else {
      FindAppend(f, VReg(name, v), other);
    }
  }

  /** A write takes effect exactly when the name has a slot, or a slot is free and can
      hold the whole name, or the value is the zero that a missing name reads as. */
  lemma {:induction false} WriteTakesEffectIff(f: File, name: string, v: U64)
    ensures Value(AfterWrite(f, name, v), name) == v
       <==> Find(f, name) < |f| || (|f| < MAX_VREGS && |name| < NAME_LEN) || v == 0
  {
    var i := Find(f, name);
    if i < |f| {
      FindUpdate(f, i, v, name);
    } else {
      FindAppend(f, VReg(Stored(name), v), name);
    }
  }

  /** A write leaves every other name alone exactly when the name has a slot, or no slot is
      free, or the name is short, or its first 63 characters have a slot already, or the
      value is zero. */
  lemma WriteLeavesOthersIff(f: File, name: string, v: U64)
    ensures (forall other :: other != name ==> Value(AfterWrite(f, name, v), other) == Value(f, other))
       <==> || Find(f, name) < |f| || |f| >= MAX_VREGS || |name| < NAME_LEN
            || Find(f, Stored(name)) < |f| || v == 0
  {
    var g := AfterWrite(f, name, v);
    if Find(f, name) < |f| {
      forall other | other != name
        ensures Value(g, other) == Value(f, other)
      {
        FindUpdate(f, Find(f, name), v, other);
      }
    } else if |f| < MAX_VREGS {
      var stored := Stored(name);
      forall other
        ensures Value(g, other) == if Find(f, other) == |f| && other == stored then v else Value(f, other)
      {
        FindAppend(f, VReg(stored, v), other);
      }
      assert |name| < NAME_LEN <==> stored == name;
      assert Value(g, stored) == if Find(f, stored) == |f| then v else Value(f, stored);
    }
  }

  lemma WriteKeepsInv(f: File, names: set<string>, name: string, v: U64)
    requires Inv(f, names) && name in names
    ensures Inv(AfterWrite(f, name, v), names)
    ensures Value(AfterWrite(f, name, v), name) == v
  {
    var i := Find(f, name);
    WriteTakesEffectIff(f, name, v);
    if i < |f| {
      var g := f[i := f[i].(value := v)];
      assert forall j :: 0 <= j < |f| ==> g[j].name == f[j].name;
      forall n | n in NamesIn(g)
        ensures n in NamesIn(f)
      {
        var r :| r in g && r.name == n;
        var j :| 0 <= j < |g| && g[j] == r;
        assert f[j] in f;
      }
    } else {
      RoomForNew(f, names, name);
    }
  }

  lemma ReadStep(f: File, m: Mem, names: set<string>, name: string)
    requires Inv(f, names) && Denotes(f, m) && name in names
    ensures Value(f, name) == Get(m, name)
    ensures Inv(AfterRead(f, name), names) && Denotes(AfterRead(f, name), m)
  {
    ReadKeepsInv(f, names, name);
    forall other
      ensures Value(AfterRead(f, name), other) == Get(m, other)
    {
      ReadKeepsMap(f, name, other);
    }
  }

  lemma WriteStep(f: File, m: Mem, names: set<string>, name: string, v: U64)
    requires Inv(f, names) && Denotes(f, m) && name in names
    ensures Inv(AfterWrite(f, name, v), names) && Denotes(AfterWrite(f, name, v), m[name := v])
  {
    WriteKeepsInv(f, names, name, v);
    forall other
      ensures Value(AfterWrite(f, name, v), other) == Get(m[name := v], other)
    {
      if other != name {
        WriteFrames(f, name, v, other);
      }
    }
  }

  // ----- whole programs -----

  /** The names an expression reads. */
  function ExprNames(e: Expr): set<string> {
    match e
    case Ident(name) => {name}
    case Path(_) => {RegName(e)}
    case Read(x) => {RegName(x)}
    case Un(_, x) => ExprNames(x)
    case Bin(_, l, r) => ExprNames(l) + ExprNames(r)
    case _ => {}
  }

  /** The names a sibling list reads or writes. */
  function ListNames(ns: seq<Node>): set<string> {
    if ns == [] then {} else NodeNames(ns[0]) + ListNames(ns[1..])
  }

  function NodeNames(n: Node): set<string> {
    match n
    case E(e) => ExprNames(e)
    case S(kind, kids) =>
      ListNames(kids)
      + if kind.RegWriteStmt? || kind.AssignStmt? then {RegName(Child(kids, 0))} else {}
  }

  lemma {:induction false} ChildNames(kids: seq<Node>, i: nat)
    ensures ExprNames(Child(kids, i)) <= ListNames(kids)
  {
    if i < |kids| && i > 0 {
      ChildNames(kids[1..], i - 1);
      assert Child(kids, i) == Child(kids[1..], i - 1);
    }
  }

  lemma {:induction false} TailNames(kids: seq<Node>, i: nat)
    requires i <= |kids|
    ensures ListNames(kids[i..]) <= ListNames(kids)
  {
    if i > 0 {
      TailNames(kids[1..], i - 1);
      assert kids[1..][i-1..] == kids[i..];
    }
  }

  /** What simulator and meaning have in common after a step. */
  ghost predicate Agree(r: Run<File>, s: Run<Mem>, names: set<string>) {
    match (r, s)
    case (Loops, Loops) => true
    case (Halts(f), Halts(m)) => Inv(f, names) && Denotes(f, m)
    case _ => false
  }

  /** Evaluation has the meaning's value and leaves the map as it was. */
  lemma {:induction false} EvalRefines(h: Host, f: File, m: Mem, names: set<string>, e: Expr)
    requires Inv(f, names) && Denotes(f, m) && ExprNames(e) <= names
    ensures var r := Eval(h, f, e);
            r.0 == Meaning(h, m, e) && Inv(r.1, names) && Denotes(r.1, m)
    decreases e
  {
    hide Inv, Denotes, Value, AfterRead, Get, BinValue, UnValue;
    match e
    case Ident(name) => ReadStep(f, m, names, name);
    case Path(_) => ReadStep(f, m, names, RegName(e));
    case Read(x) => ReadStep(f, m, names, RegName(x));
    case Un(_, x) => EvalRefines(h, f, m, names, x);
    case Bin(_, l, r) =>
      EvalRefines(h, f, m, names, l);
      EvalRefines(h, Eval(h, f, l).1, m, names, r);
    case _ =>
  }

  /** The simulator's final register file denotes exactly the map of the big-step
      meaning, with distinct names, and it loops for ever exactly when the meaning does. */
  lemma {:induction false} ExecRefines(h: Host, f: File, m: Mem, names: set<string>, ns: seq<Node>)
    requires Inv(f, names) && Denotes(f, m) && ListNames(ns) <= names
    ensures Agree(Exec(h, f, ns), Runs(h, m, ns), names)
    decreases ns, 0
  {
    hide Inv, Denotes;
    if ns != [] && !(ns[0].S? && ns[0].kind.ReturnStmt?) {
      ExecOneRefines(h, f, m, names, ns[0]);
      if ExecOne(h, f, ns[0]).Halts? {
        ExecRefines(h, ExecOne(h, f, ns[0]).s, RunOne(h, m, ns[0]).s, names, ns[1..]);
      }
    }
  }

  lemma {:induction false} ExecOneRefines(h: Host, f: File, m: Mem, names: set<string>, n: Node)
    requires Inv(f, names) && Denotes(f, m) && NodeNames(n) <= names
    ensures Agree(ExecOne(h, f, n), RunOne(h, m, n), names)
    decreases n, 2
  {
    hide Inv, Denotes, Value, AfterRead, AfterWrite, Get, Meaning, Eval, Endless, Trips;
    if n.S? {
      var kids := n.kids;
      ChildNames(kids, 1);
      ChildNames(kids, 2);
      match n.kind
      case RegWriteStmt | AssignStmt =>
        EvalRefines(h, f, m, names, Child(kids, 1));
        var v := Eval(h, f, Child(kids, 1));
        WriteStep(v.1, m, names, RegName(Child(kids, 0)), v.0);
      case LetStmt => EvalRefines(h, f, m, names, Child(kids, 1));
      case IfStmt => ExecArmsRefines(h, f, m, names, kids);
      case ForStmt =>
        EvalRefines(h, f, m, names, Child(kids, 1));
        var lo := Eval(h, f, Child(kids, 1));
        EvalRefines(h, lo.1, m, names, Child(kids, 2));
        var hi := Eval(h, lo.1, Child(kids, 2));
        if |kids| > 3 && !Endless(lo.0, hi.0) {
          TailNames(kids, 3);
          ExecTimesRefines(h, hi.1, m, names, kids[3..], Trips(lo.0, hi.0));
        }
      case Invalid => ExecRefines(h, f, m, names, kids);
      case _ =>
    }
  }

  lemma {:induction false} ExecArmsRefines(h: Host, f: File, m: Mem, names: set<string>, kids: seq<Node>)
    requires Inv(f, names) && Denotes(f, m) && ListNames(kids) <= names
    ensures Agree(ExecArms(h, f, kids), RunArms(h, m, kids), names)
    decreases kids, 1
  {
    hide Inv, Denotes, Meaning, Eval;
    if kids != [] {
      ChildNames(kids, 0);
      EvalRefines(h, f, m, names, Child(kids, 0));
      var c := Eval(h, f, Child(kids, 0));
      if c.0 != 0 && |kids| > 1 {
        TailNames(kids, 1);
        ExecRefines(h, c.1, m, names, kids[1..]);
      } else if |kids| > 2 {
        TailNames(kids, 2);
        ExecArmsRefines(h, c.1, m, names, kids[2..]);
      }
    }
  }

  lemma {:induction false} ExecTimesRefines(h: Host, f: File, m: Mem, names: set<string>, body: seq<Node>, n: nat)
    requires Inv(f, names) && Denotes(f, m) && ListNames(body) <= names
    ensures Agree(ExecTimes(h, f, body, n), RunTimes(h, m, body, n), names)
    decreases body, 1, n
  {
    hide Inv, Denotes;
    if n > 0 {
      ExecTimesRefines(h, f, m, names, body, n - 1);
      if ExecTimes(h, f, body, n - 1).Halts? {
        ExecRefines(h, ExecTimes(h, f, body, n - 1).s, RunTimes(h, m, body, n - 1).s, names, body);
      }
    }
  }

  /** From an empty file, for any program whose names are short and at most 64. */
  lemma SimulatorRefinesMeaning(h: Host, ns: seq<Node>)
    requires Fits(ListNames(ns))
    ensures Agree(Exec(h, [], ns), Runs(h, map[], ns), ListNames(ns))
  {
    ExecRefines(h, [], map[], ListNames(ns), ns);
  }

  // ===== a program that never ends =====

  function Minus(v: nat, digits: string): G.Cst {
    G.Prefix(T.Lexeme(T.Minus, "-", 0), G.Atom(T.Lexeme(T.Tok.Int, digits, v)))
  }

  /** `for i in -10001 .. -1 { }`. */
  const ENDLESS := SG.For("i", Minus(10001, "10001"), Minus(1, "1"), [])

  lemma EndlessNode()
    ensures SG.Good(ENDLESS)
    ensures SG.Flatten(ENDLESS) == S(ForStmt, [E(Ident("i")), E(Un(Neg, IntLit(10001))), E(Un(Neg, IntLit(1)))])
  {
    assert G.Proper(ENDLESS.lo) && G.Proper(ENDLESS.hi);
    assert SG.GoodList([]) && SG.FlattenList([]) == [];
  }

  /** Its bounds are the endless pair: the simulator loops for ever on it. */
  lemma EndlessProgram(h: Host, f: File)
    ensures SG.Good(ENDLESS) && Exec(h, f, [SG.Flatten(ENDLESS)]) == Loops
  {
    hide SG.Good, SG.Flatten;
    EndlessNode();
    var kids := SG.Flatten(ENDLESS).kids;
    assert Child(kids, 1) == Un(Neg, IntLit(10001)) && Child(kids, 2) == Un(Neg, IntLit(1));
    assert Eval(h, f, IntLit(10001)) == (10001, f) && Eval(h, f, IntLit(1)) == (1, f);
    assert Eval(h, f, Child(kids, 1)) == (M - 10001, f);
    assert Eval(h, f, Child(kids, 2)) == (M - 1, f);
    assert ExecOne(h, f, SG.Flatten(ENDLESS)) == Loops;
  }

  // ===== writes that are lost =====

  /** `NAME = 1;` or `NAME = 0;`. */
  function Set(name: string, one: bool): SG.Stm {
    SG.Assign(G.Dotted([T.Lexeme(T.Tok.Ident, name, 0)]),
              G.Atom(if one then T.Lexeme(T.Tok.Int, "1", 1) else T.Lexeme(T.Tok.Int, "0", 0)))
  }

  function SetNode(name: string, one: bool): Node {
    S(AssignStmt, [E(Ident(name)), E(IntLit(if one then 1 else 0))])
  }

  lemma SetRuns(h: Host, f: File, name: string, one: bool)
    ensures SG.Good(Set(name, one)) && SG.Flatten(Set(name, one)) == SetNode(name, one)
    ensures ExecOne(h, f, SetNode(name, one)) == Halts(AfterWrite(f, name, if one then 1 else 0))
  {
    hide AfterWrite;
    var s, node := Set(name, one), SetNode(name, one);
    assert G.IsPath([T.Lexeme(T.Tok.Ident, name, 0)]) && G.Names([T.Lexeme(T.Tok.Ident, name, 0)]) == [name];
    assert G.Proper(s.lhs) && G.Proper(s.rhs);
    assert Child(node.kids, 0) == Ident(name) && Child(node.kids, 1) == IntLit(if one then 1 else 0);
    assert Eval(h, f, Child(node.kids, 1)) == (if one then 1 else 0, f);
  }

  /** A name of 64 characters. */
  function LongName(): (name: string)
    ensures |name| == NAME_LEN
  {
    seq(NAME_LEN, _ => 'a')
  }

  /** Writing 1 to that name, from the empty file, leaves it at 0 and sets its first 63
      characters to 1. */
  lemma LongWriteIsLost(h: Host)
    ensures var name, r := LongName(), Exec(h, [], [SetNode(LongName(), true)]);
            |name| == 64 && r.Halts? && Value(r.s, name) == 0 && Value(r.s, name[..63]) == 1
  {
    var name, node := LongName(), SetNode(LongName(), true);
    SetRuns(h, [], name, true);
    assert [node][1..] == [];
    var f: File := [VReg(name[..NAME_LEN - 1], 1)];
    assert AfterWrite([], name, 1) == f;
    assert Exec(h, f, []) == Halts(f);
    assert |f[0].name| != |name| && Find(f, name) == 1;
  }

  /** Sixty-five short names. */
  function ManyNames(i: nat): (name: string)
    ensures i <= MAX_VREGS ==> 0 < |name| < NAME_LEN
  {
    if i < 60 then seq(i + 1, _ => 'a') else seq(i - 59, _ => 'b')
  }

  lemma ManyNamesDiffer(i: nat, j: nat)
    requires i < j
    ensures ManyNames(i) != ManyNames(j)
  {
    assert ManyNames(i)[0] == 'a' || ManyNames(i)[0] == 'b';
    if i < 60 <= j {
      assert ManyNames(i)[0] == 'a' && ManyNames(j)[0] == 'b';
    } else {
      assert |ManyNames(i)| != |ManyNames(j)|;
    }
  }

  /** The file after the first `k` names were set. */
  function Filled(k: nat): (f: File)
    ensures |f| == if k < MAX_VREGS then k else MAX_VREGS
    ensures forall i :: 0 <= i < |f| ==> f[i] == VReg(ManyNames(i), 1)
  {
    seq(if k < MAX_VREGS then k else MAX_VREGS, i requires 0 <= i => VReg(ManyNames(i), 1))
  }

  /** Each of the names set to 1, in order. */
  function SetMany(): (ns: seq<Node>)
    ensures |ns| == MAX_VREGS + 1 && forall i :: 0 <= i < |ns| ==> ns[i] == SetNode(ManyNames(i), true)
  {
    seq(MAX_VREGS + 1, i requires 0 <= i => SetNode(ManyNames(i), true))
  }

  lemma FillOne(k: nat)
    requires k <= MAX_VREGS
    ensures AfterWrite(Filled(k), ManyNames(k), 1) == Filled(k + 1)
    ensures Value(Filled(k), ManyNames(k)) == 0
  {
    var f, name := Filled(k), ManyNames(k);
    forall i | 0 <= i < |f|
      ensures f[i].name != name
    {
      ManyNamesDiffer(i, k);
    }
    assert Find(f, name) == |f|;
    if k < MAX_VREGS {
      assert f + [VReg(name, 1)] == Filled(k + 1);
    } else {
      assert f == Filled(k + 1);
    }
  }

  lemma {:induction false} FillAll(h: Host, k: nat)
    requires k <= MAX_VREGS + 1
    ensures Exec(h, Filled(k), SetMany()[k..]) == Halts(Filled(MAX_VREGS + 1))
    decreases MAX_VREGS + 1 - k
  {
    hide Filled, ManyNames, AfterWrite, ExecOne;
    var ns := SetMany()[k..];
    if k <= MAX_VREGS {
      assert ns[0] == SetNode(ManyNames(k), true) && ns[1..] == SetMany()[k+1..];
      SetRuns(h, Filled(k), ManyNames(k), true);
      FillOne(k);
      FillAll(h, k + 1);
    } else {
      assert ns == [];
    }
  }

  /** Sixty-five short names are set to 1, one after the other; the last one still reads 0. */
  lemma LateWriteIsLost(h: Host)
    ensures var r := Exec(h, [], SetMany());
            && |SetMany()| == 65 && r.Halts? && Value(r.s, ManyNames(64)) == 0
            && forall i :: 0 <= i < 64 ==> Value(r.s, ManyNames(i)) == 1
  {
    hide Exec;
    assert SetMany()[0..] == SetMany() && Filled(0) == [];
    FillAll(h, 0);
    FillOne(MAX_VREGS);
    var f := Filled(MAX_VREGS + 1);
    assert f == Filled(MAX_VREGS);
    forall i | 0 <= i < MAX_VREGS
      ensures Value(f, ManyNames(i)) == 1
    {
      assert f[i].name == ManyNames(i);
      if Find(f, ManyNames(i)) < i {
        ManyNamesDiffer(Find(f, ManyNames(i)), i);
      }
    }
  }

  // ===== let and the variable of a for =====

  /** Evaluation changes no name's value, whatever the state of the file. */
  lemma {:induction false} EvalKeepsMap(h: Host, f: File, e: Expr, other: string)
    ensures Value(Eval(h, f, e).1, other) == Value(f, other)
    decreases e
  {
    hide Value, AfterRead;
    match e
    case Ident(name) => ReadKeepsMap(f, name, other);
    case Path(_) => ReadKeepsMap(f, RegName(e), other);
    case Read(x) => ReadKeepsMap(f, RegName(x), other);
    case Un(_, x) => EvalKeepsMap(h, f, x, other);
    case Bin(_, l, r) =>
      EvalKeepsMap(h, f, l, other);
      EvalKeepsMap(h, Eval(h, f, l).1, r, other);
    case _ =>
  }

  /** A let binds nothing: behind it every name, its own too, reads as before. So it reads as
      what it was given exactly when it did before. */
  lemma LetBindsNothing(h: Host, f: File, name: string, e: Expr)
    ensures var r := ExecOne(h, f, S(LetStmt, [E(Ident(name)), E(e)]));
            && r.Halts? && (forall other :: Value(r.s, other) == Value(f, other))
            && (Value(r.s, name) == Eval(h, f, e).0 <==> Value(f, name) == Eval(h, f, e).0)
  {
    hide Value, Eval;
    var kids := [E(Ident(name)), E(e)];
    assert Child(kids, 1) == e;
    forall other
      ensures Value(Eval(h, f, e).1, other) == Value(f, other)
    {
      EvalKeepsMap(h, f, e, other);
    }
  }

  /** `let x = 1; y = x;` leaves y at 0. */
  lemma LetIsLost(h: Host)
    ensures var r := Exec(h, [], [S(LetStmt, [E(Ident("x")), E(IntLit(1))]), S(AssignStmt, [E(Ident("y")), E(Ident("x"))])]);
            r.Halts? && Value(r.s, "y") == 0
  {
    var bind, use := S(LetStmt, [E(Ident("x")), E(IntLit(1))]), S(AssignStmt, [E(Ident("y")), E(Ident("x"))]);
    assert [bind, use][1..] == [use] && [use][1..] == [];
    assert Child(bind.kids, 1) == IntLit(1) && ExecOne(h, [], bind) == Halts([]);
    assert Child(use.kids, 0) == Ident("y") && Child(use.kids, 1) == Ident("x");
    var f: File := [VReg("x", 0)];
    var g := f + [VReg("y", 0)];
    var empty: File := [];
    assert Find(empty, "x") == 0 && Stored("x") == "x" && AfterRead(empty, "x") == f && f[1..] == [];
    assert f[0].name[0] != "y"[0];
    assert Find(f, "y") == 1 && Stored("y") == "y";
    FindAppend(f, VReg("y", 0), "y");
    assert ExecOne(h, [], use) == Halts(g);
  }

  /** Nor does a for: the name of its variable makes no difference. */
  lemma LoopVariableIsIgnored(h: Host, f: File, v: Expr, w: Expr, kids: seq<Node>)
    ensures ExecOne(h, f, S(ForStmt, [E(v)] + kids)) == ExecOne(h, f, S(ForStmt, [E(w)] + kids))
  {
    hide Eval, ExecTimes, Trips, Endless;
    var a, b := [E(v)] + kids, [E(w)] + kids;
    assert Child(a, 1) == Child(b, 1) && Child(a, 2) == Child(b, 2);
    if |a| > 3 {
      assert a[3..] == kids[2..] == b[3..];
    }
  }

  // ===== which register a statement touches =====

  /** The register an expression names: a path the one of its last component, an identifier
      the one of that name, anything else the one called "?". */
  predicate NamesRegister(e: Expr, name: string) {
    match e
    case Path(parts) => if parts == [] then name == "?" else name == parts[|parts|-1]
    case Ident(n) => name == n
    case _ => name == "?"
  }

  /** A slot is there for the name, or there is room for all of it. */
  predicate HasRoom(f: File, name: string) {
    name in NamesIn(f) || (|f| < 64 && |name| < 64)
  }

  lemma FoundIff(f: File, name: string)
    ensures Find(f, name) < |f| <==> name in NamesIn(f)
  {
    if name in NamesIn(f) {
      var r :| r in f && r.name == name;
      var i :| 0 <= i < |f| && f[i] == r;
    }
  }

  /** A write or an assignment with room gives the register its target names the value, and
      no other register changes. */
  lemma StoreLands(h: Host, f: File, kind: Kind, target: Expr, value: Expr, name: string)
    requires kind.RegWriteStmt? || kind.AssignStmt?
    requires NamesRegister(target, name) && HasRoom(Eval(h, f, value).1, name)
    ensures var r := ExecOne(h, f, S(kind, [E(target), E(value)]));
            && r.Halts? && Value(r.s, name) == Eval(h, f, value).0
            && forall other :: other != name ==> Value(r.s, other) == Value(f, other)
  {
    hide Value, Eval, AfterWrite;
    var kids := [E(target), E(value)];
    assert Child(kids, 0) == target && Child(kids, 1) == value;
    var v := Eval(h, f, value);
    FoundIff(v.1, name);
    WriteTakesEffectIff(v.1, name, v.0);
    WriteLeavesOthersIff(v.1, name, v.0);
    forall other | other != name
      ensures Value(AfterWrite(v.1, name, v.0), other) == Value(f, other)
    {
      EvalKeepsMap(h, f, value, other);
    }
  }

  /** What a leaf is worth: a path, an identifier or a read the value of the register named, a
      number itself modulo 2^64, true 1, false and a string 0. */
  lemma LeafValues(h: Host, f: File, e: Expr, name: string, n: int, b: bool)
    ensures (e.Path? || e.Ident?) && NamesRegister(e, name) ==> Eval(h, f, e).0 == Value(f, name)
    ensures NamesRegister(e, name) ==> Eval(h, f, Read(e)).0 == Value(f, name)
    ensures 0 <= n < 0x1_0000_0000_0000_0000 ==> Eval(h, f, IntLit(n)).0 == n
    ensures Eval(h, f, BoolLit(b)).0 == (if b then 1 else 0)
    ensures e.StrLit? ==> Eval(h, f, e).0 == 0
  {
  }

  /** A value stored through one path is seen through another exactly when they have the same
      last component. */
  lemma PathsShareIff(h: Host, f: File, p: seq<string>, q: seq<string>, value: Expr)
    requires p != [] && q != [] && HasRoom(Eval(h, f, value).1, p[|p|-1])
    requires Value(f, q[|q|-1]) != Eval(h, f, value).0
    ensures var r := ExecOne(h, f, S(RegWriteStmt, [E(Path(p)), E(value)]));
            r.Halts? && (Eval(h, r.s, Path(q)).0 == Eval(h, f, value).0 <==> p[|p|-1] == q[|q|-1])
  {
    hide Value, Eval, ExecOne;
    StoreLands(h, f, RegWriteStmt, Path(p), value, p[|p|-1]);
    var r := ExecOne(h, f, S(RegWriteStmt, [E(Path(p)), E(value)]));
    LeafValues(h, r.s, Path(q), q[|q|-1], 0, false);
  }

  /** log, emit, wait, arm and cancel change nothing at all. */
  lemma OthersStoreNothing(h: Host, f: File, kind: Kind, kids: seq<Node>)
    requires kind in {LogStmt, EmitStmt, WaitStmt, ArmStmt, CancelStmt}
    ensures ExecOne(h, f, S(kind, kids)) == Halts(f)
  {
  }
}
