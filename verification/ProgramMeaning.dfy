/** What whole programs mean by their structure, and which of them the simulator runs that
    way (tools/kdality/simulate.c, docs/language_guide.md). */
module ProgramMeaning {
  import opened Wrappers
  import opened Tokens
  import opened StmtSpec
  import opened Grammar
  import opened StmtGrammar
  import opened Simulate
  import opened IfMeaning
  import A = Ast
  import SimulateProofs

  /** How a program goes on: behind its last statement, out of the handler by a return, or
      not at all. */
  datatype Course = Goes(f: File) | Returns(f: File) | Stuck

  function Ending(c: Course): Run<File> {
    match c
    case Goes(f) => Halts(f)
    case Returns(f) => Halts(f)
    case Stuck => Loops
  }

  function CourseOf(r: Run<File>): Course {
    match r
    case Halts(f) => Goes(f)
    case Loops => Stuck
  }

  /** The meaning by structure: one body of an if runs, a loop runs its own body, and a
      return ends the handler wherever it stands. */
  ghost function Means(h: Host, f: File, ss: seq<Stm>): Course
    requires GoodList(ss)
    decreases ss, 0
  {
    if ss == [] then Goes(f)
    else
      match MeansOne(h, f, ss[0])
      case Goes(g) => Means(h, g, ss[1..])
      case Returns(g) => Returns(g)
      case Stuck => Stuck
  }

  ghost function MeansOne(h: Host, f: File, s: Stm): Course
    requires Good(s)
    decreases s, 2
  {
    match s
    case Return(_) => Returns(f)
    case If(c, b, rest) =>
      var v := Eval(h, f, Abstract(c));
      if v.0 != 0 then Means(h, v.1, b) else MeansTail(h, v.1, rest)
    case For(_, lo, hi, b) =>
      var l := Eval(h, f, Abstract(lo));
      var u := Eval(h, l.1, Abstract(hi));
      if Endless(l.0, u.0) then Stuck else MeansTimes(h, u.1, b, Trips(l.0, u.0))
    case _ => CourseOf(ExecOne(h, f, Flatten(s)))
  }

  ghost function MeansTail(h: Host, f: File, rest: Tail): Course
    requires GoodTail(rest)
    decreases rest, 0
  {
    match rest
    case Fi => Goes(f)
    case Elif(c, b, r) =>
      var v := Eval(h, f, Abstract(c));
      if v.0 != 0 then Means(h, v.1, b) else MeansTail(h, v.1, r)
    case Else(b) => Means(h, f, b)
  }

  ghost function MeansTimes(h: Host, f: File, b: seq<Stm>, n: nat): Course
    requires GoodList(b)
    decreases b, 1, n
  {
    if n == 0 then Goes(f)
    else
      match MeansTimes(h, f, b, n - 1)
      case Goes(g) => Means(h, g, b)
      case Returns(g) => Returns(g)
      case Stuck => Stuck
  }

  /** The simulator ends the program as it means, or both never end. */
  ghost predicate Agrees(h: Host, f: File, ss: seq<Stm>)
    requires GoodList(ss)
  {
    Exec(h, f, FlattenList(ss)) == Ending(Means(h, f, ss))
  }

  // ===== runs that do not return =====

  /** No if at any depth has an elif or an else. */
  predicate Bare(ss: seq<Stm>)
    decreases ss, 0
  {
    ss == [] || (BareOne(ss[0]) && Bare(ss[1..]))
  }

  predicate BareOne(s: Stm)
    decreases s, 1
  {
    match s
    case If(_, b, rest) => rest.Fi? && Bare(b)
    case For(_, _, _, b) => Bare(b)
    case _ => true
  }

  /** A program without elif and else runs as it means unless its run returns, for bodies of
      any length and at any depth. */
  lemma {:induction false} BareProgramsKeepMeaning(h: Host, f: File, ss: seq<Stm>)
    requires GoodList(ss) && Bare(ss) && !Means(h, f, ss).Returns?
    ensures Agrees(h, f, ss)
    decreases ss, 0
  {
    hide Good, Flatten, ExecOne, MeansOne, BareOne;
    if ss != [] {
      assert FlattenList(ss)[1..] == FlattenList(ss[1..]);
      ReturnIff(h, f, ss[0]);
      BareStatementKeepsMeaning(h, f, ss[0]);
      var r := MeansOne(h, f, ss[0]);
      if r.Goes? {
        BareProgramsKeepMeaning(h, r.f, ss[1..]);
      }
    }
  }

  lemma ReturnIff(h: Host, f: File, s: Stm)
    requires Good(s)
    ensures Flatten(s).S? && (Flatten(s).kind.ReturnStmt? <==> s.Return?)
    ensures s.Return? ==> MeansOne(h, f, s) == Returns(f)
  {
  }

  lemma {:induction false} BareStatementKeepsMeaning(h: Host, f: File, s: Stm)
    requires Good(s) && BareOne(s) && !MeansOne(h, f, s).Returns?
    ensures ExecOne(h, f, Flatten(s)) == Ending(MeansOne(h, f, s))
    decreases s, 2
  {
    hide Proper, Abstract, GoodList, FlattenList, Eval, Exec, Means, Spliced, Bare;
    match s
    case If(c, b, rest) =>
      TailParts(Fi);
      IfRuns(h, f, c, b, Fi);
      var v := Eval(h, f, Abstract(c));
      assert Spliced(b) + [] == Spliced(b);
      SplicedRuns(h, v.1, b);
      if v.0 != 0 {
        BareProgramsKeepMeaning(h, v.1, b);
      }
    case For(v, lo, hi, b) => BareLoopKeepsMeaning(h, f, s);
    case _ =>
  }

  lemma {:induction false} BareLoopKeepsMeaning(h: Host, f: File, s: Stm)
    requires s.For? && Good(s) && BareOne(s) && !MeansOne(h, f, s).Returns?
    ensures ExecOne(h, f, Flatten(s)) == Ending(MeansOne(h, f, s))
    decreases s, 1
  {
    hide Proper, Abstract, GoodList, FlattenList, Eval, Exec, Means, MeansTimes, ExecTimes, Bare, Endless, Trips;
    LoopRunsBody(h, f, s);
    var l := Eval(h, f, Abstract(s.lo));
    var u := Eval(h, l.1, Abstract(s.hi));
    if !Endless(l.0, u.0) {
      BareTimes(h, u.1, s.loop, Trips(l.0, u.0));
    }
  }

  /** What the simulator makes of any for. */
  lemma LoopRunsBody(h: Host, f: File, s: Stm)
    requires s.For? && Good(s)
    ensures GoodList(s.loop)
    ensures ExecOne(h, f, Flatten(s))
         == var l := Eval(h, f, Abstract(s.lo));
            var u := Eval(h, l.1, Abstract(s.hi));
            if Endless(l.0, u.0) then Loops else ExecTimes(h, u.1, FlattenList(s.loop), Trips(l.0, u.0))
  {
    hide Proper, Abstract, GoodList, FlattenList, Eval, Exec, ExecTimes, Endless, Trips;
    var kids := Flatten(s).kids;
    assert Child(kids, 1) == Abstract(s.lo) && Child(kids, 2) == Abstract(s.hi);
    assert kids[3..] == FlattenList(s.loop);
    var l := Eval(h, f, Abstract(s.lo));
    var u := Eval(h, l.1, Abstract(s.hi));
    if |kids| <= 3 {
      NothingTimes(h, u.1, Trips(l.0, u.0));
    }
  }

  lemma {:induction false} NothingTimes(h: Host, f: File, n: nat)
    ensures ExecTimes(h, f, [], n) == Halts(f)
  {
    if n > 0 {
      NothingTimes(h, f, n - 1);
    }
  }

  lemma {:induction false} BareTimes(h: Host, f: File, b: seq<Stm>, n: nat)
    requires GoodList(b) && Bare(b) && !MeansTimes(h, f, b, n).Returns?
    ensures ExecTimes(h, f, FlattenList(b), n) == Ending(MeansTimes(h, f, b, n))
    decreases b, 1, n
  {
    hide GoodList, FlattenList, Exec, Means, Bare;
    if n > 0 {
      BareTimes(h, f, b, n - 1);
      var r := MeansTimes(h, f, b, n - 1);
      if r.Goes? {
        BareProgramsKeepMeaning(h, r.f, b);
      }
    }
  }

  // ===== which programs always agree =====

  /** Neither elif nor else nor return, at any depth. */
  predicate Quiet(ss: seq<Stm>)
    decreases ss, 0
  {
    ss == [] || (QuietOne(ss[0]) && Quiet(ss[1..]))
  }

  predicate QuietOne(s: Stm)
    decreases s, 1
  {
    match s
    case Return(_) => false
    case If(_, b, rest) => rest.Fi? && Quiet(b)
    case For(_, _, _, b) => Quiet(b)
    case _ => true
  }

  /** No elif, no else, and no return inside the body of an if or a for. */
  predicate SimpleOne(s: Stm) {
    s.Return? || QuietOne(s)
  }

  predicate Simple(ss: seq<Stm>) {
    forall s :: s in ss ==> SimpleOne(s)
  }

  lemma {:induction false} QuietNeverReturns(h: Host, f: File, ss: seq<Stm>)
    requires GoodList(ss) && Quiet(ss)
    ensures Bare(ss) && !Means(h, f, ss).Returns?
    decreases ss, 0
  {
    hide Good, MeansOne, BareOne, QuietOne;
    if ss != [] {
      QuietOneNeverReturns(h, f, ss[0]);
      var r := MeansOne(h, f, ss[0]);
      QuietNeverReturns(h, if r.Goes? then r.f else f, ss[1..]);
    }
  }

  lemma {:induction false} QuietOneNeverReturns(h: Host, f: File, s: Stm)
    requires Good(s) && QuietOne(s)
    ensures BareOne(s) && !MeansOne(h, f, s).Returns?
    decreases s, 2
  {
    hide GoodList, Abstract, Proper, Eval, Means, MeansTimes, Bare, Quiet, ExecOne, Flatten;
    match s
    case If(c, b, _) => QuietNeverReturns(h, Eval(h, f, Abstract(c)).1, b);
    case For(_, lo, hi, b) =>
      QuietNeverReturns(h, f, b);
      var l := Eval(h, f, Abstract(lo));
      var u := Eval(h, l.1, Abstract(hi));
      QuietTimes(h, u.1, b, Trips(l.0, u.0));
    case _ =>
  }

  lemma {:induction false} QuietTimes(h: Host, f: File, b: seq<Stm>, n: nat)
    requires GoodList(b) && Quiet(b)
    ensures !MeansTimes(h, f, b, n).Returns?
    decreases b, 1, n
  {
    hide GoodList, Means, Quiet;
    if n > 0 {
      QuietTimes(h, f, b, n - 1);
      var r := MeansTimes(h, f, b, n - 1);
      if r.Goes? {
        QuietNeverReturns(h, r.f, b);
      }
    }
  }

  /** Every such program runs as it means, in every state. */
  lemma {:induction false} SimpleProgramsKeepMeaning(h: Host, f: File, ss: seq<Stm>)
    requires GoodList(ss) && Simple(ss)
    ensures Agrees(h, f, ss)
    decreases ss
  {
    hide Good, Flatten, ExecOne, MeansOne, QuietOne;
    if ss != [] {
      assert FlattenList(ss)[1..] == FlattenList(ss[1..]);
      assert SimpleOne(ss[0]);
      ReturnIff(h, f, ss[0]);
      if !ss[0].Return? {
        QuietOneNeverReturns(h, f, ss[0]);
        BareStatementKeepsMeaning(h, f, ss[0]);
        var r := MeansOne(h, f, ss[0]);
        if r.Goes? {
          SimpleProgramsKeepMeaning(h, r.f, ss[1..]);
        }
      }
    }
  }

  // ===== and which do not =====

  /** The same statements, whatever the conditions, the bounds and the elif and else arms
      hold. */
  predicate SameBodies(a: seq<Stm>, b: seq<Stm>)
    decreases a, 0
  {
    |a| == |b| && (a != [] ==> SameShape(a[0], b[0]) && SameBodies(a[1..], b[1..]))
  }

  predicate SameShape(s: Stm, t: Stm)
    decreases s, 1
  {
    match s
    case If(_, b, rest) => t.If? && SameBodies(b, t.body) && SameArms(rest, t.rest)
    case For(v, _, _, b) => t.For? && v == t.v && SameBodies(b, t.loop)
    case _ => s == t
  }

  lemma {:induction false} QuietByShape(a: seq<Stm>, b: seq<Stm>)
    requires SameBodies(a, b)
    ensures Quiet(a) <==> Quiet(b)
    decreases a, 0
  {
    if a != [] {
      QuietOneByShape(a[0], b[0]);
      QuietByShape(a[1..], b[1..]);
    }
  }

  lemma {:induction false} QuietOneByShape(s: Stm, t: Stm)
    requires SameShape(s, t)
    ensures QuietOne(s) <==> QuietOne(t)
    decreases s, 1
  {
    match s
    case If(_, b, _) => QuietByShape(b, t.body);
    case For(_, _, _, b) => QuietByShape(b, t.loop);
    case _ =>
  }

  /** A return outside the elif and else arms. */
  predicate HasReturn(ss: seq<Stm>)
    decreases ss, 0
  {
    ss != [] && (ReturnIn(ss[0]) || HasReturn(ss[1..]))
  }

  predicate ReturnIn(s: Stm)
    decreases s, 1
  {
    match s
    case Return(_) => true
    case If(_, b, _) => HasReturn(b)
    case For(_, _, _, b) => HasReturn(b)
    case _ => false
  }

  /** The same program driven through every first body: conditions hold, loops run once, and
      elif and else arms never end. */
  function DriveAll(ss: seq<Stm>): seq<Stm>
    decreases ss, 0
  {
    if ss == [] then [] else [Drive(ss[0])] + DriveAll(ss[1..])
  }

  function Drive(s: Stm): Stm
    decreases s, 1
  {
    match s
    case If(_, b, rest) => If(YES, DriveAll(b), Lure(rest))
    case For(v, _, _, b) => For(v, NO, NO, DriveAll(b))
    case _ => s
  }

  lemma {:induction false} DriveAllKeepsShape(ss: seq<Stm>)
    requires GoodList(ss)
    ensures SameBodies(ss, DriveAll(ss)) && GoodList(DriveAll(ss)) && |DriveAll(ss)| == |ss|
    decreases ss, 0
  {
    hide Good, Drive, SameShape;
    if ss != [] {
      DriveKeepsShape(ss[0]);
      DriveAllKeepsShape(ss[1..]);
      assert DriveAll(ss)[1..] == DriveAll(ss[1..]);
    }
  }

  lemma {:induction false} DriveKeepsShape(s: Stm)
    requires Good(s)
    ensures SameShape(s, Drive(s)) && Good(Drive(s))
    decreases s, 1
  {
    hide GoodList, SameBodies, DriveAll, GoodTail;
    match s
    case If(c, b, rest) =>
      GoodParts(c, b, rest);
      DriveAllKeepsShape(b);
      LureIsGood(rest);
      GoodParts(YES, DriveAll(b), Lure(rest));
    case For(v, _, _, b) => DriveAllKeepsShape(b);
    case _ =>
  }

  /** Driven, a program means a return exactly when it has one, and never means to loop. */
  lemma {:induction false} DrivenMeans(h: Host, f: File, ss: seq<Stm>)
    requires GoodList(ss)
    ensures GoodList(DriveAll(ss)) && !Means(h, f, DriveAll(ss)).Stuck?
    ensures Means(h, f, DriveAll(ss)).Returns? <==> HasReturn(ss)
    decreases ss, 0
  {
    hide Good, Drive, MeansOne, ReturnIn, SameShape, SameBodies;
    DriveAllKeepsShape(ss);
    if ss != [] {
      var rest := DriveAll(ss[1..]);
      assert DriveAll(ss)[1..] == rest;
      DrivenMeansOne(h, f, ss[0]);
      var r := MeansOne(h, f, Drive(ss[0]));
      if r.Goes? {
        DrivenMeans(h, r.f, ss[1..]);
      }
    }
  }

  lemma {:induction false} DrivenMeansOne(h: Host, f: File, s: Stm)
    requires Good(s)
    ensures Good(Drive(s)) && !MeansOne(h, f, Drive(s)).Stuck?
    ensures MeansOne(h, f, Drive(s)).Returns? <==> ReturnIn(s)
    decreases s, 1
  {
    hide GoodList, GoodTail, SameBodies, DriveAll, Means, HasReturn, Eval, Abstract, Proper;
    DriveKeepsShape(s);
    TrialParts(h, f);
    match s
    case If(c, b, rest) =>
      GoodParts(c, b, rest);
      DrivenMeans(h, f, b);
    case For(v, lo, hi, b) =>
      DrivenMeans(h, f, b);
      assert Trips(0, 0) == 1 && !Endless(0, 0);
      assert MeansTimes(h, f, DriveAll(b), 0) == Goes(f);
      assert MeansTimes(h, f, DriveAll(b), 1) == Means(h, f, DriveAll(b));
    case _ => PlainHalts(h, f, s);
  }

  lemma PlainHalts(h: Host, f: File, s: Stm)
    requires Good(s) && !s.If? && !s.For?
    ensures ExecOne(h, f, Flatten(s)).Halts?
  {
    hide Eval, Abstract, Proper;
  }

  function ExecThen(h: Host, r: Run<File>, more: seq<A.Node>): Run<File> {
    if r.Halts? then Exec(h, r.s, more) else Loops
  }

  ghost function MeansThen(h: Host, c: Course, more: seq<Stm>): Course
    requires GoodList(more)
  {
    if c.Goes? then Means(h, c.f, more) else c
  }

  /** Statements without a return among them run on into what follows. */
  lemma {:induction false} ExecAppend(h: Host, f: File, ns: seq<A.Node>, more: seq<A.Node>)
    requires forall n :: n in ns ==> n.S? && !n.kind.ReturnStmt?
    ensures Exec(h, f, ns + more) == ExecThen(h, Exec(h, f, ns), more)
    decreases ns
  {
    hide ExecOne;
    if ns == [] {
      assert ns + more == more;
    } else {
      assert (ns + more)[1..] == ns[1..] + more && ns[0] in ns;
      var r := ExecOne(h, f, ns[0]);
      if r.Halts? {
        ExecAppend(h, r.s, ns[1..], more);
      }
    }
  }

  lemma {:induction false} NoReturnFlattened(ss: seq<Stm>)
    requires GoodList(ss) && !HasReturn(ss)
    ensures GoodList(DriveAll(ss))
    ensures forall n :: n in FlattenList(DriveAll(ss)) ==> n.S? && !n.kind.ReturnStmt?
    decreases ss
  {
    hide Good, Flatten, Drive, SameShape, SameBodies, ReturnIn;
    DriveAllKeepsShape(ss);
    if ss != [] {
      NoReturnFlattened(ss[1..]);
      assert DriveAll(ss)[1..] == DriveAll(ss[1..]);
      DrivenNode(ss[0]);
    }
  }

  lemma DrivenNode(s: Stm)
    requires Good(s)
    ensures Good(Drive(s)) && Flatten(Drive(s)).S?
    ensures !ReturnIn(s) ==> !Flatten(Drive(s)).kind.ReturnStmt?
    ensures s.Return? ==> ReturnIn(s)
  {
    DriveKeepsShape(s);
  }

  /** Driven, a program without a return but with an elif or an else runs into its arm. */
  lemma {:induction false} DrivenExec(h: Host, f: File, ss: seq<Stm>)
    requires GoodList(ss) && !HasReturn(ss) && !Quiet(ss)
    ensures GoodList(DriveAll(ss)) && Exec(h, f, FlattenList(DriveAll(ss))) == Loops
    decreases ss, 0
  {
    hide Good, Flatten, Drive, ExecOne, ReturnIn, QuietOne, SameShape, SameBodies;
    DriveAllKeepsShape(ss);
    var all := DriveAll(ss);
    assert all[1..] == DriveAll(ss[1..]);
    assert FlattenList(all)[1..] == FlattenList(all[1..]);
    DrivenNode(ss[0]);
    var r := ExecOne(h, f, Flatten(all[0]));
    if !QuietOne(ss[0]) {
      DrivenExecOne(h, f, ss[0]);
    } else if r.Halts? {
      DrivenExec(h, r.s, ss[1..]);
    }
  }

  lemma {:induction false} DrivenExecOne(h: Host, f: File, s: Stm)
    requires Good(s) && !ReturnIn(s) && !QuietOne(s)
    ensures Good(Drive(s)) && ExecOne(h, f, Flatten(Drive(s))) == Loops
    decreases s, 1
  {
    hide GoodList, GoodTail, SameBodies, DriveAll, HasReturn, Quiet, FlattenList, FlattenTail, Exec, Eval, Abstract, Proper;
    DriveKeepsShape(s);
    TrialParts(h, f);
    match s
    case If(c, b, rest) =>
      GoodParts(c, b, rest);
      DrivenIf(h, f, s);
    case For(v, _, _, b) =>
      DrivenExec(h, f, b);
      LoopRunsBody(h, f, Drive(s));
      assert Trips(0, 0) == 1 && !Endless(0, 0);
      var body := FlattenList(DriveAll(b));
      assert ExecTimes(h, f, body, 0) == Halts(f);
      assert ExecTimes(h, f, body, 1) == Exec(h, f, body);
    case _ =>
  }

  lemma {:induction false} DrivenIf(h: Host, f: File, s: Stm)
    requires s.If? && Good(s) && !ReturnIn(s) && !QuietOne(s)
    ensures Good(Drive(s)) && ExecOne(h, f, Flatten(Drive(s))) == Loops
    decreases s, 0
  {
    hide GoodList, GoodTail, SameBodies, DriveAll, HasReturn, Quiet, FlattenList, FlattenTail, Exec, Eval, Abstract, Proper,
         Spliced;
    var b, rest := s.body, s.rest;
    DriveKeepsShape(s);
    TrialParts(h, f);
    GoodParts(s.cond, b, rest);
    DriveAllKeepsShape(b);
    var body, tail := Spliced(DriveAll(b)), FlattenTail(Lure(rest));
    IfRuns(h, f, YES, DriveAll(b), Lure(rest));
    NoReturnFlattened(b);
    SplicedRuns(h, f, DriveAll(b));
    SplicedHasNoReturn(DriveAll(b));
    ExecAppend(h, f, body, tail);
    if rest.Fi? {
      DrivenExec(h, f, b);
    } else if Exec(h, f, body).Halts? {
      LureLoops(h, Exec(h, f, body).s, rest);
    }
  }

  lemma SplicedHasNoReturn(b: seq<Stm>)
    requires GoodList(b) && forall n :: n in FlattenList(b) ==> n.S? && !n.kind.ReturnStmt?
    ensures forall n :: n in Spliced(b) ==> n.S? && !n.kind.ReturnStmt?
  {
    hide GoodList, FlattenList;
  }

  /** A statement that changes the given state. */
  function Touch(f: File): Stm {
    if f == [] then STORE else SimulateProofs.Set(f[0].name, f[0].value == 0)
  }

  lemma TouchTouches(h: Host, f: File)
    ensures GoodList([Touch(f)]) && Exec(h, f, FlattenList([Touch(f)])) != Halts(f)
    ensures QuietOne(Touch(f))
  {
    hide GoodList, FlattenList, Exec;
    if f == [] {
      StoreRuns(h);
    } else {
      var one := f[0].value == 0;
      SetAlone(h, f, f[0].name, one);
      assert Find(f, f[0].name) == 0;
      assert AfterWrite(f, f[0].name, if one then 1 else 0)[0].value != f[0].value;
    }
  }

  /** The first step of a program that does not start with a return. */
  lemma OneStep(h: Host, f: File, t: Stm, more: seq<Stm>)
    requires Good(t) && !t.Return? && GoodList(more)
    ensures GoodList([t] + more)
    ensures Exec(h, f, FlattenList([t] + more)) == ExecThen(h, ExecOne(h, f, Flatten(t)), FlattenList(more))
    ensures Means(h, f, [t] + more) == MeansThen(h, MeansOne(h, f, t), more)
  {
    hide Good, Flatten, ExecOne, MeansOne;
    var ss := [t] + more;
    assert ss[0] == t && ss[1..] == more;
    ReturnIff(h, f, t);
    assert FlattenList(ss)[1..] == FlattenList(more);
  }

  /** Driven, a statement that is not simple disagrees, by itself or before a statement that
      changes the state it leaves. */
  lemma DrivenDisagrees(h: Host, s: Stm)
    requires Good(s) && !SimpleOne(s)
    ensures Good(Drive(s)) && GoodList([Drive(s)])
    ensures Agrees(h, [], [Drive(s)]) ==>
      && ExecOne(h, [], Flatten(Drive(s))).Halts?
      && var post := Touch(ExecOne(h, [], Flatten(Drive(s))).s);
         GoodList([Drive(s), post]) && !Agrees(h, [], [Drive(s), post])
  {
    hide Good, GoodList, FlattenList, Flatten, ExecOne, MeansOne, QuietOne, Drive, SameShape, ReturnIn, Touch;
    DriveKeepsShape(s);
    DrivenIsNoReturn(s);
    DrivenMeansOne(h, [], s);
    var t := Drive(s);
    NothingFlattened();
    OneStep(h, [], t, []);
    assert [t] + [] == [t];
    if !ReturnIn(s) {
      DrivenExecOne(h, [], s);
    } else if ExecOne(h, [], Flatten(t)).Halts? {
      var post := Touch(ExecOne(h, [], Flatten(t)).s);
      TouchTouches(h, ExecOne(h, [], Flatten(t)).s);
      OneStep(h, [], t, [post]);
      assert [t] + [post] == [t, post];
    }
  }

  lemma DrivenIsNoReturn(s: Stm)
    requires !SimpleOne(s)
    ensures !Drive(s).Return?
  {
  }

  /** The statement runs as it means before every simple continuation, whatever its
      conditions, its bounds and its elif and else arms hold. */
  ghost predicate KeepsEverywhere(s: Stm) {
    forall h: Host, f, ss ::
      GoodList(ss) && ss != [] && SameShape(s, ss[0]) && Simple(ss[1..]) ==> Agrees(h, f, ss)
  }

  /** Which statements do: exactly those that are a return, or have no elif, no else and no
      return inside a body at any depth. */
  lemma StatementKeepsIff(s: Stm)
    requires Good(s)
    ensures KeepsEverywhere(s) <==> SimpleOne(s)
  {
    hide Good, Agrees, SameShape, QuietOne, Drive;
    if SimpleOne(s) {
      forall h: Host, f, ss | GoodList(ss) && ss != [] && SameShape(s, ss[0]) && Simple(ss[1..])
        ensures Agrees(h, f, ss)
      {
        ShapeKeepsSimple(s, ss[0]);
        assert ss == [ss[0]] + ss[1..];
        SimpleProgramsKeepMeaning(h, f, ss);
      }
    } else {
      DriveKeepsShape(s);
      var t := Drive(s);
      var h: Host := (op, l, r) => 0;
      DrivenDisagrees(h, s);
      assert [t][1..] == [] && Simple([]);
      if Agrees(h, [], [t]) {
        var g := ExecOne(h, [], Flatten(t)).s;
        TouchTouches(h, g);
        assert [t, Touch(g)][1..] == [Touch(g)];
        assert !Agrees(h, [], [t, Touch(g)]) && Simple([Touch(g)]);
      }
    }
  }

  lemma ShapeKeepsSimple(s: Stm, t: Stm)
    requires SameShape(s, t) && SimpleOne(s)
    ensures SimpleOne(t)
  {
    QuietOneByShape(s, t);
  }

  /** `if (1) { return; } x = 1;` stores 1 in x, although it means to return first. */
  lemma ReturnIsLost(h: Host)
    ensures var ss := [If(YES, [STOP], Fi), STORE];
            && GoodList(ss) && Bare(ss) && Means(h, [], ss) == Returns([])
            && Exec(h, [], FlattenList(ss)) == Halts([VReg("x", 1)])
  {
    hide Eval, FlattenList, Abstract, Proper;
    TrialParts(h, []);
    StoreRuns(h);
    StopRuns(h);
    var s := If(YES, [STOP], Fi);
    GoodParts(YES, [STOP], Fi);
    IfRuns(h, [], YES, [STOP], Fi);
    TailParts(Fi);
    assert Spliced([STOP]) + [] == Spliced([STOP]);
    OneStep(h, [], s, [STORE]);
    assert [s] + [STORE] == [s, STORE];
    assert [s, STORE][1..] == [STORE] && [STORE][1..] == [] && [STOP][1..] == [];
    assert MeansOne(h, [], s) == Returns([]);
    assert Bare([STOP]) && Bare([STORE]);
  }

  lemma StopRuns(h: Host)
    ensures GoodList([STOP]) && Spliced([STOP]) == FlattenList([STOP])
    ensures Exec(h, [], FlattenList([STOP])) == Halts([]) && Means(h, [], [STOP]) == Returns([])
  {
    assert [STOP][1..] == [] && Good(STOP) && GoodList([STOP]);
    assert FlattenList([STOP]) == [A.S(A.ReturnStmt, [])];
  }
}
