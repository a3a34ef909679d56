/** Parsed statements have the shape the semantic pass relies on. */
module Bodies {
  import opened Tokens
  import opened ParseSpec
  import opened StmtSpec
  import opened Grammar
  import opened StmtGrammar
  import opened StmtProofs
  import opened SemaProofs
  import A = Ast

  lemma {:induction false} ShapedAppend(a: seq<A.Node>, b: seq<A.Node>)
    ensures Shaped(a + b) <==> Shaped(a) && Shaped(b)
  {
    if a == [] {
      assert a + b == b;
    } else {
      ShapedAppend(a[1..], b);
      assert (a + b)[1..] == a[1..] + b;
    }
  }

  lemma {:induction false} ExprsAreShaped(ns: seq<A.Node>)
    requires AllExprs(ns)
    ensures Shaped(ns)
  {
    if ns != [] {
      assert ns[0] in ns;
      ExprsAreShaped(ns[1..]);
    }
  }

  lemma {:induction false} KidsAreExprs(args: seq<Cst>)
    requires forall c :: c in args ==> Proper(c)
    ensures AllExprs(Kids(args))
  {
    hide Proper, Abstract;
    if args != [] {
      KidsAreExprs(args[1..]);
    }
  }

  lemma {:induction false} FlattenedListIsShaped(ss: seq<Stm>)
    requires GoodList(ss)
    ensures Shaped(FlattenList(ss)) && Shaped(BodyOr(FlattenList(ss)))
    decreases ss, 0
  {
    hide Good, Flatten;
    if ss != [] {
      FlattenedIsShaped(ss[0]);
      FlattenedListIsShaped(ss[1..]);
    }
  }

  lemma {:induction false} FlattenedTailIsShaped(r: Tail)
    requires GoodTail(r)
    ensures Shaped(FlattenTail(r))
    decreases r, 0
  {
    hide Proper, Abstract, GoodList, FlattenList, StmtSpec.BodyOr;
    match r
    case Fi =>
    case Elif(c, b, rest) =>
      FlattenedListIsShaped(b);
      FlattenedTailIsShaped(rest);
      var head := [A.E(Abstract(c))];
      ShapedAppend(head, BodyOr(FlattenList(b)));
      ShapedAppend(head + BodyOr(FlattenList(b)), FlattenTail(rest));
    case Else(b) => FlattenedListIsShaped(b);
  }

  lemma {:induction false} FlattenedIsShaped(s: Stm)
    requires Good(s)
    ensures ShapedNode(Flatten(s))
    decreases s, 1
  {
    hide Proper, Abstract, GoodList, GoodTail, FlattenList, FlattenTail, StmtSpec.BodyOr, Kids;
    var kids := Flatten(s).kids;
    match s
    case Call(kind, args) =>
      KidsAreExprs(args);
      ExprsAreShaped(kids);
    case If(c, b, rest) =>
      FlattenedListIsShaped(b);
      FlattenedTailIsShaped(rest);
      var head := [A.E(Abstract(c))];
      ShapedAppend(head, BodyOr(FlattenList(b)));
      ShapedAppend(head + BodyOr(FlattenList(b)), FlattenTail(rest));
    case For(v, lo, hi, b) =>
      FlattenedListIsShaped(b);
      var head := [A.E(A.Ident(v)), A.E(Abstract(lo)), A.E(Abstract(hi))];
      ExprsAreShaped(head);
      ShapedAppend(head, FlattenList(b));
      assert kids == head + FlattenList(b) && kids[..3] == head;
    case _ =>
      ExprsAreShaped(kids);
  }

  /** Every handler body parsed without error has that shape. */
  lemma {:induction false} ParsedBodyIsShaped(t: seq<Lexeme>, p: nat)
    requires Terminated(t) && p < |t| && !StatementList(t, p).err
    ensures Shaped(StatementList(t, p).val)
  {
    hide *;
    var ss := ListSound(t, p);
    ListComplete(ss, t, p);
    FlattenedListIsShaped(ss);
  }
}
