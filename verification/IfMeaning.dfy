/** What an if means once its bodies are spliced into one child list (compiler/parser.c),
    as the simulator walks that list (tools/kdality/simulate.c). */
module IfMeaning {
  import opened Wrappers
  import opened Tokens
  import opened StmtSpec
  import opened Grammar
  import opened StmtGrammar
  import opened Simulate
  import A = Ast
  import SimulateProofs

  predicate AllStatements(ns: seq<A.Node>) {
    forall n :: n in ns ==> n.S?
  }

  /** The statements of a body as they stand in the child list. */
  ghost function Spliced(b: seq<Stm>): (ns: seq<A.Node>)
    requires GoodList(b)
    ensures ns != []
  {
    BodyOr(FlattenList(b))
  }

  lemma {:induction false} FlattenedAreStatements(b: seq<Stm>)
    requires GoodList(b)
    ensures AllStatements(FlattenList(b)) && AllStatements(Spliced(b)) && |FlattenList(b)| == |b|
    decreases b
  {
    hide Good, Flatten;
    if b != [] {
      FlattenedAreStatements(b[1..]);
      assert Flatten(b[0]).S? by { FlattenIsStatement(b[0]); }
    }
  }

  lemma FlattenIsStatement(s: Stm)
    requires Good(s)
    ensures Flatten(s).S?
  {
  }

  // ===== the walk over the arms =====

  /** A walk over statements only evaluates nothing and runs nothing. */
  lemma {:induction false} ArmsOfStatements(h: Host, f: File, ns: seq<A.Node>)
    requires AllStatements(ns)
    ensures ExecArms(h, f, ns) == Halts(f)
    decreases ns
  {
    if ns != [] {
      assert ns[0] in ns;
      if |ns| > 2 {
        assert forall n :: n in ns[2..] ==> n in ns;
        ArmsOfStatements(h, f, ns[2..]);
      }
    }
  }

  /** What the walk makes of the rest of an if. Its conditions count only where they stand
      at an even place of the walk; one that holds runs everything behind it. */
  ghost function TailRuns(h: Host, f: File, even: bool, rest: Tail): Run<File>
    requires GoodTail(rest)
    decreases rest
  {
    match rest
    case Fi => Halts(f)
    case Else(_) => Halts(f)
    case Elif(c, b, r) =>
      if !even then TailRuns(h, f, |Spliced(b)| % 2 == 0, r)
      else
        var v := Eval(h, f, Abstract(c));
        if v.0 != 0 then Exec(h, v.1, Spliced(b) + FlattenTail(r))
        else TailRuns(h, v.1, |Spliced(b)| % 2 == 1, r)
  }

  lemma TailParts(rest: Tail)
    requires GoodTail(rest)
    ensures rest.Fi? <==> FlattenTail(rest) == []
    ensures rest.Else? ==> GoodList(rest.body) && FlattenTail(rest) == Spliced(rest.body)
    ensures rest.Elif? ==>
      && Proper(rest.cond) && GoodList(rest.body) && GoodTail(rest.rest)
      && FlattenTail(rest) == [A.E(Abstract(rest.cond))] + Spliced(rest.body) + FlattenTail(rest.rest)
  {
    hide Proper, Abstract, GoodList, FlattenList;
  }

  /** One step of the walk. */
  lemma ArmsStep(h: Host, f: File, kids: seq<A.Node>)
    requires kids != []
    ensures kids[0].S? ==> ExecArms(h, f, kids) == if |kids| > 2 then ExecArms(h, f, kids[2..]) else Halts(f)
    ensures kids[0].E? ==>
      var v := Eval(h, f, kids[0].e);
      ExecArms(h, f, kids) == if v.0 != 0 && |kids| > 1 then Exec(h, v.1, kids[1..])
                              else if |kids| > 2 then ExecArms(h, v.1, kids[2..]) else Halts(v.1)
  {
    hide Exec;
    assert kids[0].S? ==> Child(kids, 0) == A.Null;
  }

  /** The walk over some statements followed by the rest of an if. */
  lemma {:induction false} ArmsOver(h: Host, f: File, ns: seq<A.Node>, rest: Tail)
    requires AllStatements(ns) && GoodTail(rest)
    ensures ExecArms(h, f, ns + FlattenTail(rest)) == TailRuns(h, f, |ns| % 2 == 0, rest)
    decreases rest, 1, |ns|
  {
    hide Proper, Abstract, GoodList, FlattenList, GoodTail, FlattenTail, Eval, Exec, BodyOr, ExecArms, Spliced;
    TailParts(rest);
    var tail := FlattenTail(rest);
    var kids := ns + tail;
    if |ns| >= 2 {
      assert ns[0] in ns && kids[0] == ns[0];
      ArmsStep(h, f, kids);
      assert kids[2..] == ns[2..] + tail;
      assert forall n :: n in ns[2..] ==> n in ns;
      if |kids| > 2 {
        ArmsOver(h, f, ns[2..], rest);
      }
    } else if rest.Elif? {
      ArmsOverElif(h, f, ns, rest);
    } else {
      if rest.Else? {
        FlattenedAreStatements(rest.body);
      }
      assert forall n :: n in kids ==> n in ns || n in tail;
      ArmsOfStatements(h, f, kids);
    }
  }

  lemma {:induction false} ArmsOverElif(h: Host, f: File, ns: seq<A.Node>, rest: Tail)
    requires AllStatements(ns) && |ns| < 2 && GoodTail(rest) && rest.Elif?
    ensures ExecArms(h, f, ns + FlattenTail(rest)) == TailRuns(h, f, |ns| == 0, rest)
    decreases rest, 0, 0
  {
    hide Proper, Abstract, GoodList, FlattenList, GoodTail, FlattenTail, Eval, Exec, BodyOr, ExecArms, Spliced;
    TailParts(rest);
    FlattenedAreStatements(rest.body);
    var cond, body, tail := A.E(Abstract(rest.cond)), Spliced(rest.body), FlattenTail(rest.rest);
    var kids := ns + FlattenTail(rest);
    ArmsStep(h, f, kids);
    if ns == [] {
      assert kids == [cond] + (body + tail);
      assert kids[1..] == body + tail && kids[2..] == body[1..] + tail;
      assert forall n :: n in body[1..] ==> n in body;
      var f' := Eval(h, f, Abstract(rest.cond)).1;
      ArmsOver(h, f', body[1..], rest.rest);
      if |kids| == 2 {
        assert body[1..] + tail == [];
        ArmsOfStatements(h, f', []);
      }
    } else {
      assert ns[0] in ns && kids == [ns[0], cond] + (body + tail);
      assert kids[2..] == body + tail;
      ArmsOver(h, f, body, rest.rest);
    }
  }

  /** What the simulator makes of any if: a condition that holds runs its body and, after
      it, every later body; one that fails goes on to the rest, where a condition counts
      only if an even number of nodes stands before it. */
  lemma IfRuns(h: Host, f: File, c: Cst, b: seq<Stm>, rest: Tail)
    requires Good(If(c, b, rest))
    ensures ExecOne(h, f, Flatten(If(c, b, rest)))
         == var v := Eval(h, f, Abstract(c));
            if v.0 != 0 then Exec(h, v.1, Spliced(b) + FlattenTail(rest))
            else TailRuns(h, v.1, |Spliced(b)| % 2 == 1, rest)
  {
    hide Proper, Abstract, GoodList, FlattenList, GoodTail, FlattenTail, Eval, Exec, BodyOr, ExecArms, Spliced, TailRuns;
    var cond, body, tail := A.E(Abstract(c)), Spliced(b), FlattenTail(rest);
    var kids := Flatten(If(c, b, rest)).kids;
    assert kids == [cond] + body + tail by { SplicedIs(b); }
    assert kids == [cond] + (body + tail);
    assert kids[1..] == body + tail && kids[2..] == body[1..] + tail;
    FlattenedAreStatements(b);
    assert forall n :: n in body[1..] ==> n in body;
    ArmsStep(h, f, kids);
    var f' := Eval(h, f, Abstract(c)).1;
    ArmsOver(h, f', body[1..], rest);
    if |kids| == 2 {
      assert body[1..] + tail == [];
      ArmsOfStatements(h, f', []);
    }
  }

  lemma SplicedIs(b: seq<Stm>)
    requires GoodList(b)
    ensures Spliced(b) == BodyOr(FlattenList(b))
  {
  }

  /** An else body runs after the first body when the condition holds, and never when it
      fails. */
  lemma ElseRuns(h: Host, f: File, c: Cst, b: seq<Stm>, e: seq<Stm>)
    requires Good(If(c, b, Else(e)))
    ensures GoodList(b) && GoodList(e)
    ensures ExecOne(h, f, Flatten(If(c, b, Else(e))))
         == var v := Eval(h, f, Abstract(c));
            if v.0 != 0 then Exec(h, v.1, Spliced(b) + Spliced(e)) else Halts(v.1)
  {
    assert GoodTail(Else(e));
    hide Proper, Abstract, GoodList, FlattenList, Eval, Exec, Spliced;
    IfRuns(h, f, c, b, Else(e));
    TailParts(Else(e));
  }

  lemma {:induction false} FlattenAppend(a: seq<Stm>, b: seq<Stm>)
    requires GoodList(a) && GoodList(b)
    ensures GoodList(a + b) && FlattenList(a + b) == FlattenList(a) + FlattenList(b)
    decreases a
  {
    hide Good, Flatten;
    if a == [] {
      assert a + b == b;
    } else {
      FlattenAppend(a[1..], b);
      assert (a + b)[1..] == a[1..] + b;
    }
  }

  /** An else is parsed to the very tree of a longer first body. */
  lemma ElseIsSpliced(c: Cst, b: seq<Stm>, e: seq<Stm>)
    requires Good(If(c, b, Else(e))) && b != [] && e != []
    ensures Good(If(c, b + e, Fi)) && Flatten(If(c, b + e, Fi)) == Flatten(If(c, b, Else(e)))
  {
    hide Proper, Abstract, GoodList, FlattenList;
    assert GoodTail(Else(e));
    FlattenAppend(b, e);
    FlattenedAreStatements(b);
    FlattenedAreStatements(e);
    TailParts(Else(e));
    TailParts(Fi);
    var cond, x, y := A.E(Abstract(c)), FlattenList(b), FlattenList(e);
    assert BodyOr(x + y) == x + y;
    assert [cond] + (x + y) + [] == [cond] + x + y;
  }

  // ===== what it should mean =====

  /** The rest of an if, each of its bodies on its own. */
  ghost function TailMeans(h: Host, f: File, rest: Tail): Run<File>
    requires GoodTail(rest)
    decreases rest
  {
    match rest
    case Fi => Halts(f)
    case Elif(c, b, r) =>
      var v := Eval(h, f, Abstract(c));
      if v.0 != 0 then Exec(h, v.1, FlattenList(b)) else TailMeans(h, v.1, r)
    case Else(b) => Exec(h, f, FlattenList(b))
  }

  ghost predicate Keeps(h: Host, f: File, c: Cst, b: seq<Stm>, rest: Tail)
    requires Good(If(c, b, rest))
  {
    var v := Eval(h, f, Abstract(c));
    ExecOne(h, f, Flatten(If(c, b, rest)))
    == if v.0 != 0 then Exec(h, v.1, FlattenList(b)) else TailMeans(h, v.1, rest)
  }

  /** The rest of an if makes no difference where it should not, and the same one at both
      kinds of place as it should. */
  ghost predicate Harmless(h: Host, f: File, rest: Tail)
    requires GoodTail(rest)
  {
    && Exec(h, f, FlattenTail(rest)) == Halts(f)
    && TailRuns(h, f, true, rest) == TailMeans(h, f, rest)
    && TailRuns(h, f, false, rest) == TailMeans(h, f, rest)
  }

  /** The empty body is spliced as a node that does nothing. */
  lemma SplicedRuns(h: Host, f: File, b: seq<Stm>)
    requires GoodList(b)
    ensures Exec(h, f, Spliced(b)) == Exec(h, f, FlattenList(b))
  {
    hide Good, Flatten;
    if FlattenList(b) == [] {
      var skip := A.S(A.Invalid, []);
      assert Spliced(b) == [skip] && [skip][1..] == [];
      assert ExecOne(h, f, skip) == Halts(f);
    }
  }

  /** What does nothing may follow anything. */
  lemma {:induction false} ExecThenHarmless(h: Host, f: File, ns: seq<A.Node>, more: seq<A.Node>)
    requires forall g :: Exec(h, g, more) == Halts(g)
    ensures Exec(h, f, ns + more) == Exec(h, f, ns)
    decreases ns
  {
    if ns == [] {
      assert ns + more == more;
    } else {
      assert (ns + more)[1..] == ns[1..] + more;
      var r := ExecOne(h, f, ns[0]);
      if r.Halts? {
        ExecThenHarmless(h, r.s, ns[1..], more);
      }
    }
  }

  const YES := Atom(Lexeme(Tok.Int, "1", 1))
  const NO := Atom(Lexeme(Tok.Int, "0", 0))
  const STOP := Stm.Return(None)

  /** When an if keeps its meaning, whatever its condition and its first body: exactly
      when the rest of it is harmless in every state. */
  lemma KeepsIff(rest: Tail)
    requires GoodTail(rest)
    ensures (forall h: Host, f, c, b :: Good(If(c, b, rest)) ==> Keeps(h, f, c, b, rest))
       <==> (forall h: Host, f :: Harmless(h, f, rest))
  {
    hide Keeps, Harmless, Good, GoodTail;
    if forall h: Host, f :: Harmless(h, f, rest) {
      forall h: Host, f, c, b | Good(If(c, b, rest))
        ensures Keeps(h, f, c, b, rest)
      {
        HarmlessKeeps(h, f, c, b, rest);
      }
    }
    if forall h: Host, f, c, b :: Good(If(c, b, rest)) ==> Keeps(h, f, c, b, rest) {
      forall h: Host, f
        ensures Harmless(h, f, rest)
      {
        TrialsAreGood(rest);
        assert Keeps(h, f, YES, [], rest) && Keeps(h, f, NO, [], rest) && Keeps(h, f, NO, [STOP, STOP], rest);
        TrialsShow(h, f, rest);
      }
    }
  }

  lemma HarmlessKeeps(h: Host, f: File, c: Cst, b: seq<Stm>, rest: Tail)
    requires Good(If(c, b, rest)) && GoodTail(rest) && forall g :: Harmless(h, g, rest)
    ensures Keeps(h, f, c, b, rest)
  {
    hide Proper, Abstract, FlattenList, FlattenTail, Eval, Exec, ExecOne, Spliced, TailRuns, TailMeans, GoodList, GoodTail;
    assert GoodList(b) by { GoodParts(c, b, rest); }
    IfRuns(h, f, c, b, rest);
    var v := Eval(h, f, Abstract(c));
    assert Harmless(h, v.1, rest);
    forall g
      ensures Exec(h, g, FlattenTail(rest)) == Halts(g)
    {
      assert Harmless(h, g, rest);
    }
    ExecThenHarmless(h, v.1, Spliced(b), FlattenTail(rest));
    SplicedRuns(h, v.1, b);
  }

  lemma GoodParts(c: Cst, b: seq<Stm>, rest: Tail)
    ensures Good(If(c, b, rest)) <==> Proper(c) && GoodList(b) && GoodTail(rest)
  {
  }

  lemma TrialsAreGood(rest: Tail)
    requires GoodTail(rest)
    ensures Good(If(YES, [], rest)) && Good(If(NO, [], rest)) && Good(If(NO, [STOP, STOP], rest))
    ensures GoodList([]) && GoodList([STOP, STOP])
  {
    hide GoodTail;
    assert [STOP, STOP][1..] == [STOP] && [STOP][1..] == [];
    assert GoodList([STOP]);
  }

  /** Three trials tell: a condition that holds, and one that fails before an odd and
      before an even number of nodes. */
  lemma TrialsShow(h: Host, f: File, rest: Tail)
    requires GoodTail(rest)
    requires Good(If(YES, [], rest)) && Good(If(NO, [], rest)) && Good(If(NO, [STOP, STOP], rest))
    requires Keeps(h, f, YES, [], rest) && Keeps(h, f, NO, [], rest) && Keeps(h, f, NO, [STOP, STOP], rest)
    ensures Harmless(h, f, rest)
  {
    hide GoodTail, FlattenTail, TailRuns, TailMeans, Good, Keeps, Exec;
    TrialsAreGood(rest);
    TrialHolds(h, f, rest);
    TrialFails(h, f, [], rest);
    TrialFails(h, f, [STOP, STOP], rest);
    FlattenedAreStatements([STOP, STOP]);
    NothingFlattened();
  }

  lemma TrialHolds(h: Host, f: File, rest: Tail)
    requires GoodTail(rest) && Good(If(YES, [], rest)) && Keeps(h, f, YES, [], rest)
    ensures Exec(h, f, FlattenTail(rest)) == Halts(f)
  {
    hide GoodTail, FlattenTail, TailRuns, TailMeans, ExecOne, Good, GoodList, Proper, Abstract, Eval;
    TrialParts(h, f);
    IfRuns(h, f, YES, [], rest);
    NothingFlattened();
    var skip := A.S(A.Invalid, []);
    assert ([skip] + FlattenTail(rest))[1..] == FlattenTail(rest);
    SkipDoesNothing(h, f);
  }

  lemma TrialFails(h: Host, f: File, b: seq<Stm>, rest: Tail)
    requires GoodTail(rest) && GoodList(b) && Good(If(NO, b, rest)) && Keeps(h, f, NO, b, rest)
    ensures TailRuns(h, f, |Spliced(b)| % 2 == 1, rest) == TailMeans(h, f, rest)
  {
    hide GoodTail, FlattenTail, TailRuns, TailMeans, ExecOne, Good, GoodList, Proper, Abstract, Eval, Exec, Spliced;
    TrialParts(h, f);
    IfRuns(h, f, NO, b, rest);
  }

  lemma NothingFlattened()
    ensures GoodList([]) && FlattenList([]) == [] && Spliced([]) == [A.S(A.Invalid, [])]
  {
  }

  lemma SkipDoesNothing(h: Host, f: File)
    ensures ExecOne(h, f, A.S(A.Invalid, [])) == Halts(f)
  {
  }

  lemma TrialParts(h: Host, f: File)
    ensures Proper(YES) && Proper(NO)
    ensures Eval(h, f, Abstract(YES)) == (1, f) && Eval(h, f, Abstract(NO)) == (0, f)
    ensures GoodList([]) && Exec(h, f, FlattenList([])) == Halts(f)
  {
  }

  /** The same elif and else arms, whatever their conditions and bodies. */
  predicate SameArms(rest: Tail, other: Tail) {
    match rest
    case Fi => other.Fi?
    case Else(_) => other.Else?
    case Elif(_, _, r) => other.Elif? && SameArms(r, other.rest)
  }

  /** The same arms, with a body that never ends in each. */
  function Lure(rest: Tail): (other: Tail)
    ensures SameArms(rest, other)
  {
    match rest
    case Fi => Fi
    case Else(_) => Else([SimulateProofs.ENDLESS])
    case Elif(_, _, r) => Elif(YES, [SimulateProofs.ENDLESS], Lure(r))
  }

  lemma {:induction false} LureIsGood(rest: Tail)
    ensures GoodTail(Lure(rest)) && GoodList([SimulateProofs.ENDLESS])
  {
    var ends := SimulateProofs.ENDLESS;
    SimulateProofs.EndlessNode();
    assert [ends][1..] == [];
    assert Proper(YES);
    if rest.Elif? {
      LureIsGood(rest.rest);
    }
  }

  /** Run as a body, such a rest never ends. */
  lemma LureLoops(h: Host, f: File, rest: Tail)
    requires !rest.Fi?
    ensures GoodTail(Lure(rest)) && Exec(h, f, FlattenTail(Lure(rest))) == Loops
  {
    hide GoodTail, Good, Flatten, FlattenTail;
    var ends := SimulateProofs.ENDLESS;
    LureIsGood(rest);
    TailParts(Lure(rest));
    SimulateProofs.EndlessProgram(h, f);
    var node := Flatten(ends);
    assert [ends][1..] == [] && FlattenList([ends]) == [node];
    assert ExecOne(h, f, node) == Loops;
    if rest.Elif? {
      var cond := A.E(Abstract(YES));
      assert ExecOne(h, f, cond) == Halts(f);
      assert FlattenTail(Lure(rest))[1..] == [node] + FlattenTail(Lure(rest).rest);
    }
  }

  /** When an if keeps its meaning: for every condition and first body, and whatever its
      arms hold, exactly when it has no elif and no else. */
  lemma ArmsKeepIff(rest: Tail)
    ensures (forall h: Host, f, c, b, r :: SameArms(rest, r) && Good(If(c, b, r)) ==> Keeps(h, f, c, b, r))
       <==> rest.Fi?
  {
    hide Keeps, Harmless, Good, GoodTail, Exec, FlattenTail;
    if rest.Fi? {
      forall h: Host, f, c, b, r | SameArms(rest, r) && Good(If(c, b, r))
        ensures Keeps(h, f, c, b, r)
      {
        GoodParts(c, b, r);
        forall g
          ensures Harmless(h, g, r)
        {
          ElseHarmlessIff(h, g, []);
        }
        HarmlessKeeps(h, f, c, b, r);
      }
    } else {
      var h: Host := (op, l, r) => 0;
      LureIsGood(rest);
      TrialsAreGood(Lure(rest));
      LureLoops(h, [], rest);
      if Keeps(h, [], YES, [], Lure(rest)) {
        TrialHolds(h, [], Lure(rest));
      }
    }
  }

  /** A bare if is always harmless, and an else exactly when its body does nothing. */
  lemma ElseHarmlessIff(h: Host, f: File, e: seq<Stm>)
    requires GoodList(e)
    ensures Harmless(h, f, Fi)
    ensures Harmless(h, f, Else(e)) <==> Exec(h, f, FlattenList(e)) == Halts(f)
  {
    hide GoodList, FlattenList;
    assert GoodTail(Else(e));
    TailParts(Else(e));
    SplicedRuns(h, f, e);
  }

  const STORE := SimulateProofs.Set("x", true)

  lemma StoreRuns(h: Host)
    ensures GoodList([STORE]) && Exec(h, [], FlattenList([STORE])) == Halts([VReg("x", 1)])
    ensures Spliced([STORE]) == FlattenList([STORE])
  {
    SetAlone(h, [], "x", true);
    assert AfterWrite([], "x", 1) == [VReg("x", 1)];
  }

  lemma SetAlone(h: Host, f: File, name: string, one: bool)
    ensures var s := SimulateProofs.Set(name, one);
            && GoodList([s]) && Exec(h, f, FlattenList([s])) == Halts(AfterWrite(f, name, if one then 1 else 0))
            && Spliced([s]) == FlattenList([s])
  {
    hide Good, Flatten, ExecOne, AfterWrite;
    var s, node := SimulateProofs.Set(name, one), SimulateProofs.SetNode(name, one);
    SimulateProofs.SetRuns(h, f, name, one);
    assert [s][1..] == [] && [node][1..] == [];
    assert FlattenList([s]) == [node];
  }

  /** `if (1) {} else { x = 1; }` and `if (1) {} elif (1) { x = 1; }` store 1 in x. */
  lemma ElseAndElifLose(h: Host)
    ensures Good(If(YES, [], Else([STORE]))) && !Keeps(h, [], YES, [], Else([STORE]))
    ensures Good(If(YES, [], Elif(YES, [STORE], Fi))) && !Keeps(h, [], YES, [], Elif(YES, [STORE], Fi))
  {
    hide Eval, ExecOne, TailMeans, TailRuns, GoodList, FlattenList, Abstract, Proper;
    TrialParts(h, []);
    StoreRuns(h);
    var e, ei := Else([STORE]), Elif(YES, [STORE], Fi);
    assert GoodTail(e) && GoodTail(Fi) && GoodTail(ei);
    TailParts(e);
    TailParts(ei);
    TailParts(Fi);
    if Keeps(h, [], YES, [], e) {
      TrialHolds(h, [], e);
    }
    if Keeps(h, [], YES, [], ei) {
      TrialHolds(h, [], ei);
      var cond, body := A.E(Abstract(YES)), FlattenList([STORE]);
      assert FlattenTail(ei) == [cond] + body;
      assert ([cond] + body)[1..] == body;
      assert ExecOne(h, [], cond) == Halts([]) by { ExprDoesNothing(h, [], cond.e); }
    }
  }

  lemma ExprDoesNothing(h: Host, f: File, e: A.Expr)
    ensures ExecOne(h, f, A.E(e)) == Halts(f)
  {
  }
}
