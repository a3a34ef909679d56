/** Completeness and soundness of the statement parser. */
module StmtProofs {
  import opened Wrappers
  import opened Tokens
  import opened ParseSpec
  import opened StmtSpec
  import opened Grammar
  import opened StmtGrammar
  import A = Ast

  type Toks = seq<Lexeme>
  type Nodes = Parsed<seq<A.Node>>

  // ===== completeness =====

  lemma TakeStep<T>(t: Toks, r: Parsed<T>, k: Tok)
    requires Terminated(t) && Is(t, r.pos, k) && !k.EOF?
    ensures r.pos + 1 < |t| && t[r.pos].kind == k
    ensures Then(t, r, k) == Parsed(r.val, r.pos + 1, r.err)
  {
  }

  lemma ExprStep(t: Toks, r: Nodes, c: Cst)
    requires Terminated(t) && r.pos < |t| && SpellsExpr(c, t, r.pos)
    ensures ThenExpr(t, r) == Parsed(r.val + [A.E(Abstract(c))], r.pos + |Yield(c)|, r.err)
    ensures Climb(t, r.pos, 1) == Parsed(Abstract(c), r.pos + |Yield(c)|, false) && !Abstract(c).Null?
  {
    hide ParseSpec.Climb, ParseSpec.Prec;
    YieldIsPrintable(c);
    ClimbComplete(c, t, r.pos, 1);
  }

  lemma LetComplete(s: Stm, t: Toks, p: nat)
    requires Terminated(t) && s.Let? && Spells(s, t, p)
    ensures Good(s) && p + 1 < |t| && LetRest(t, p + 1) == Parsed(Some(Flatten(s)), p + Len(s), false)
  {
    hide StmtSpec.Then, StmtSpec.ThenExpr, SpellsExpr, Grammar.Yield, Grammar.Abstract, Proper, ParseSpec.Climb, ParseSpec.Prec;
    var a := p + if s.typed then 4 else 2;
    var r := Parsed([A.E(A.Ident(s.name))], a, false);
    assert !s.typed ==> t[p+2].kind.Eq?;
    TakeStep(t, r, Eq);
    ExprStep(t, Then(t, r, Eq), s.init);
    TakeStep(t, ThenExpr(t, Then(t, r, Eq)), Semicolon);
    SpelledIsProper(s.init, t, a + 1);
    assert r.val + [A.E(Abstract(s.init))] == [A.E(A.Ident(s.name)), A.E(Abstract(s.init))];
  }

  lemma SpelledIsProper(c: Cst, t: Toks, p: nat)
    ensures SpellsExpr(c, t, p) ==> Proper(c) && p + |Yield(c)| < |t|
  {
  }

  /** With a comma after the first argument, emit parses like the two-argument calls. */
  lemma EmitWithComma(t: Toks, p: nat)
    requires Terminated(t) && p < |t| && t[OpenArg(t, p).pos].kind.Comma?
    ensures EmitArgs(t, p) == TwoArgs(t, p)
  {
    hide StmtSpec.OpenArg, StmtSpec.CloseCall, StmtSpec.ThenExpr;
  }

  /** Two arguments in parentheses, as write, wait, arm, emit and cancel parse them. */
  lemma TwoArgsComplete(a: Cst, b: Cst, t: Toks, p: nat)
    requires Terminated(t) && Is(t, p, LParen) && SpellsArgs([a, b], t, p + 1)
    requires var q := p + 1 + ArgsLen([a, b]); Is(t, q, RParen) && Is(t, q + 1, Semicolon)
    ensures Proper(a) && Proper(b)
    ensures var r := Parsed([A.E(Abstract(a)), A.E(Abstract(b))], p + 1 + ArgsLen([a, b]) + 2, false);
            TwoArgs(t, p) == r && EmitArgs(t, p) == r
  {
    hide StmtSpec.EmitArgs, StmtSpec.CloseCall, StmtSpec.Then, StmtSpec.ThenExpr, SpellsExpr, Grammar.Yield, Grammar.Abstract, Proper, ParseSpec.Climb, ParseSpec.Prec;
    assert [a, b][1..] == [b];
    SpelledIsProper(a, t, p + 1);
    var c := p + 1 + |Yield(a)|;
    SpelledIsProper(b, t, c + 1);
    var r1 := From(p);
    TakeStep(t, r1, LParen);
    var r2 := Then(t, r1, LParen);
    ExprStep(t, r2, a);
    var r3 := ThenExpr(t, r2);
    assert r3.val == [A.E(Abstract(a))];
    TakeStep(t, r3, Comma);
    var r4 := Parsed(r3.val, c + 1, false);
    ExprStep(t, r4, b);
    var r5 := ThenExpr(t, r4);
    assert r5.val == [A.E(Abstract(a)), A.E(Abstract(b))];
    CloseStep(t, r5);
    EmitWithComma(t, p);
  }

  lemma OneArgComplete(a: Cst, t: Toks, p: nat)
    requires Terminated(t) && Is(t, p, LParen) && SpellsArgs([a], t, p + 1)
    requires var q := p + 1 + ArgsLen([a]); Is(t, q, RParen) && Is(t, q + 1, Semicolon)
    ensures Proper(a)
    ensures var r := Parsed([A.E(Abstract(a))], p + 1 + ArgsLen([a]) + 2, false);
            CloseCall(t, OpenArg(t, p)) == r && EmitArgs(t, p) == r
  {
    hide StmtSpec.Then, StmtSpec.ThenExpr, SpellsExpr, Grammar.Yield, Grammar.Abstract, Proper, ParseSpec.Climb, ParseSpec.Prec;
    SpelledIsProper(a, t, p + 1);
    var r1 := From(p);
    TakeStep(t, r1, LParen);
    var r2 := Then(t, r1, LParen);
    ExprStep(t, r2, a);
    var r3 := ThenExpr(t, r2);
    assert r3.val == [A.E(Abstract(a))];
    TakeStep(t, r3, RParen);
    TakeStep(t, Then(t, r3, RParen), Semicolon);
  }

  lemma {:induction false} ArgsAreProper(args: seq<Cst>, t: Toks, p: nat)
    requires SpellsArgs(args, t, p)
    ensures forall c :: c in args ==> Proper(c)
  {
    if |args| > 1 {
      ArgsAreProper(args[1..], t, p + |Yield(args[0])| + 1);
      assert args == [args[0]] + args[1..];
    } else {
      assert args == [args[0]];
    }
  }

  lemma {:induction false} LogArgsComplete(args: seq<Cst>, t: Toks, p: nat)
    requires Terminated(t) && p < |t| && SpellsArgs(args, t, p) && Is(t, p + ArgsLen(args), RParen)
    ensures forall c :: c in args ==> Proper(c)
    ensures LogArgs(t, p) == Parsed(Kids(args), p + ArgsLen(args), false)
    decreases |args|
  {
    hide ParseSpec.Climb, SpellsExpr, Grammar.Yield, Grammar.Abstract;
    ArgsAreProper(args, t, p);
    ExprStep(t, From(p), args[0]);
    if |args| > 1 {
      LogArgsComplete(args[1..], t, p + |Yield(args[0])| + 1);
    } else {
      assert args == [args[0]];
      KidsOfOne(args[0]);
    }
  }

  lemma LogCallComplete(args: seq<Cst>, t: Toks, p: nat)
    requires Terminated(t) && Is(t, p, LParen) && SpellsArgs(args, t, p + 1)
    requires var q := p + 1 + ArgsLen(args); Is(t, q, RParen) && Is(t, q + 1, Semicolon)
    ensures forall c :: c in args ==> Proper(c)
    ensures LogCall(t, p) == Parsed(Kids(args), p + 1 + ArgsLen(args) + 2, false)
  {
    hide StmtSpec.Then, StmtSpec.CloseCall, StmtSpec.LogArgs, SpellsArgs, Kids;
    TakeStep(t, From(p), LParen);
    LogArgsComplete(args, t, p + 1);
    CloseStep(t, Parsed(Kids(args), p + 1 + ArgsLen(args), false));
  }

  lemma CallComplete(s: Stm, t: Toks, p: nat)
    requires Terminated(t) && s.Call? && Spells(s, t, p)
    ensures p < |t| && Good(s) && Statement(t, p) == Parsed(Some(Flatten(s)), p + Len(s), false)
  {
    hide StmtSpec.Statement, StmtSpec.TwoArgs, StmtSpec.EmitArgs, StmtSpec.CloseCall, StmtSpec.OpenArg,
         StmtSpec.LogCall, SpellsExpr, SpellsArgs, ArgsLen, Kids;
    var args := s.args;
    ArgsAreProper(args, t, p + 2);
    StatementOfCall(t, p, s.kind);
    if s.kind.LogStmt? {
      LogCallComplete(args, t, p + 1);
    } else if |args| == 2 {
      assert args == [args[0], args[1]];
      KidsOfTwo(args[0], args[1]);
      TwoArgsComplete(args[0], args[1], t, p + 1);
    } else {
      assert args == [args[0]];
      KidsOfOne(args[0]);
      OneArgComplete(args[0], t, p + 1);
    }
  }

  lemma CloseStep(t: Toks, r: Nodes)
    requires Terminated(t) && Is(t, r.pos, RParen) && Is(t, r.pos + 1, Semicolon)
    ensures CloseCall(t, r) == Parsed(r.val, r.pos + 2, r.err)
  {
    TakeStep(t, r, RParen);
    TakeStep(t, Then(t, r, RParen), Semicolon);
  }

  lemma KidsOfTwo(a: Cst, b: Cst)
    requires Proper(a) && Proper(b)
    ensures Kids([a, b]) == [A.E(Abstract(a)), A.E(Abstract(b))]
  {
    assert [a, b][1..] == [b] && [b][1..] == [];
    assert Kids([b]) == [A.E(Abstract(b))];
  }

  lemma KidsOfOne(a: Cst)
    requires Proper(a)
    ensures Kids([a]) == [A.E(Abstract(a))]
  {
    assert [a][1..] == [];
  }

  lemma ReturnComplete(s: Stm, t: Toks, p: nat)
    requires Terminated(t) && s.Return? && Spells(s, t, p)
    ensures Good(s) && p + 1 < |t| && Some1(A.ReturnStmt, ReturnRest(t, p + 1)) == Parsed(Some(Flatten(s)), p + Len(s), false)
  {
    hide StmtSpec.Then, StmtSpec.ThenExpr, SpellsExpr, Grammar.Yield, Grammar.Abstract, Proper, ParseSpec.Climb, ParseSpec.Prec;
    if s.val.None? {
      TakeStep(t, From(p + 1), Semicolon);
    } else {
      var c := s.val.value;
      SpelledIsProper(c, t, p + 1);
      FirstToken(c);
      SpelledFirst(c, t, p + 1);
      ExprStep(t, From(p + 1), c);
      assert [] + [A.E(Abstract(c))] == [A.E(Abstract(c))];
      TakeStep(t, ThenExpr(t, From(p + 1)), Semicolon);
    }
  }

  /** A token that can start an expression. */
  predicate StartsExpr(k: Tok) {
    IsNumber(k) || IsBool(k) || k.Str? || k.Ident? || k.LParen? || IsUnary(k) || k == READ
  }

  lemma {:induction false} FirstToken(c: Cst)
    requires Proper(c)
    ensures Yield(c) != [] && StartsExpr(Yield(c)[0].kind)
  {
    YieldIsPrintable(c);
    if c.Infix? {
      FirstToken(c.left);
    }
  }

  lemma SpelledFirst(c: Cst, t: Toks, p: nat)
    requires SpellsExpr(c, t, p) && Yield(c) != []
    ensures p < |t| && t[p] == Yield(c)[0]
  {
    assert t[p+0] == Yield(c)[0];
  }

  lemma AssignParts(s: Stm, t: Toks, p: nat)
    requires s.Assign? && Spells(s, t, p)
    ensures var q := p + |Yield(s.lhs)|;
            && q + 1 + |Yield(s.rhs)| < |t| && Len(s) == |Yield(s.lhs)| + 1 + |Yield(s.rhs)| + 1
            && SpellsExpr(s.lhs, t, p) && Is(t, q, Eq)
            && SpellsExpr(s.rhs, t, q + 1) && Is(t, q + 1 + |Yield(s.rhs)|, Semicolon)
    ensures Proper(s.lhs) && Proper(s.rhs) && Good(s)
    ensures Flatten(s) == A.S(A.AssignStmt, [A.E(Abstract(s.lhs)), A.E(Abstract(s.rhs))])
  {
    hide Proper, Grammar.Yield, Grammar.Abstract;
  }

  lemma AssignOf(t: Toks, p: nat, l: Nodes, r: Nodes, s: Nodes)
    requires Terminated(t) && p < |t|
    requires l == ThenExpr(t, From(p)) && t[l.pos].kind.Eq?
    requires l.pos + 1 < |t| && r == ThenExpr(t, Parsed(l.val, l.pos + 1, l.err))
    requires s == Then(t, r, Semicolon)
    ensures AssignRest(t, p) == Parsed(Some(A.S(A.AssignStmt, s.val)), s.pos, s.err)
  {
    hide StmtSpec.Then, StmtSpec.ThenExpr;
  }

  lemma AssignComplete(s: Stm, t: Toks, p: nat)
    requires Terminated(t) && s.Assign? && Spells(s, t, p)
    ensures Good(s) && p < |t| && StartsExpr(t[p].kind)
    ensures AssignRest(t, p) == Parsed(Some(Flatten(s)), p + Len(s), false)
  {
    hide *;
    AssignParts(s, t, p);
    FirstToken(s.lhs);
    SpelledFirst(s.lhs, t, p);
    var a, b := A.E(Abstract(s.lhs)), A.E(Abstract(s.rhs));
    ExprFrom(t, p, s.lhs);
    var l := ThenExpr(t, From(p));
    ExprStep(t, Parsed(l.val, l.pos + 1, l.err), s.rhs);
    var r := ThenExpr(t, Parsed(l.val, l.pos + 1, l.err));
    assert r.val == [a, b];
    TakeStep(t, r, Semicolon);
    KindOfIs(t, l.pos, Eq);
    AssignOf(t, p, l, r, Then(t, r, Semicolon));
  }

  lemma KindOfIs(t: Toks, p: nat, k: Tok)
    ensures Is(t, p, k) ==> p < |t| && t[p].kind == k
  {
  }

  lemma ExprFrom(t: Toks, p: nat, c: Cst)
    requires Terminated(t) && p < |t| && SpellsExpr(c, t, p)
    ensures ThenExpr(t, From(p)) == Parsed([A.E(Abstract(c))], p + |Yield(c)|, false)
  {
    hide StmtSpec.ThenExpr, SpellsExpr, Grammar.Yield, Grammar.Abstract, Proper;
    SpelledIsProper(c, t, p);
    ExprStep(t, From(p), c);
    assert [] + [A.E(Abstract(c))] == [A.E(Abstract(c))];
  }

  // ----- statements with bodies -----

  lemma {:induction false} ListComplete(ss: seq<Stm>, t: Toks, p: nat)
    requires Terminated(t) && p < |t| && SpellsList(ss, t, p)
    requires p + ListLen(ss) < |t| && EndsList(t[p + ListLen(ss)].kind)
    ensures GoodList(ss) && StatementList(t, p) == Parsed(FlattenList(ss), p + ListLen(ss), false)
    decreases ListLen(ss), 5
  {
    hide Spells, Good, Flatten, Len, StmtSpec.Statement;
    if ss != [] {
      StatementComplete(ss[0], t, p);
      ListComplete(ss[1..], t, p + Len(ss[0]));
    }
  }

  lemma BlockStep(b: seq<Stm>, t: Toks, r: Nodes, sub: bool)
    requires Terminated(t) && SpellsBlock(b, t, r.pos) && GoodList(b) && r.pos + 1 < |t|
    requires StatementList(t, r.pos + 1) == Parsed(FlattenList(b), r.pos + 1 + ListLen(b), false)
    ensures Block(t, r, sub)
         == Parsed(r.val + (if sub then BodyOr(FlattenList(b)) else FlattenList(b)), r.pos + BlockLen(b), r.err)
  {
    hide StmtSpec.StatementList, SpellsList, StmtSpec.Then, FlattenList, ListLen;
    TakeStep(t, r, LBrace);
    var body := FlattenList(b);
    var s := Parsed(r.val + (if sub then BodyOr(body) else body), r.pos + 1 + ListLen(b), r.err);
    TakeStep(t, s, RBrace);
  }

  lemma {:induction false} BlockComplete(b: seq<Stm>, t: Toks, r: Nodes, sub: bool)
    requires Terminated(t) && SpellsBlock(b, t, r.pos)
    ensures GoodList(b) && r.pos < |t|
    ensures Block(t, r, sub)
         == Parsed(r.val + (if sub then BodyOr(FlattenList(b)) else FlattenList(b)), r.pos + BlockLen(b), r.err)
    decreases BlockLen(b), 1
  {
    hide StmtSpec.StatementList, SpellsList, StmtSpec.Then, FlattenList, StmtSpec.Block;
    assert r.pos + 1 < |t|;
    ListComplete(b, t, r.pos + 1);
    BlockStep(b, t, r, sub);
  }

  /** The parenthesised condition of an arm. */
  lemma CondComplete(c: Cst, t: Toks, r: Nodes)
    requires Terminated(t) && Is(t, r.pos, LParen) && SpellsExpr(c, t, r.pos + 1)
    requires Is(t, r.pos + 1 + |Yield(c)|, RParen)
    ensures Proper(c) && r.pos + 2 + |Yield(c)| < |t|
    ensures Then(t, ThenExpr(t, Then(t, r, LParen)), RParen)
         == Parsed(r.val + [A.E(Abstract(c))], r.pos + 2 + |Yield(c)|, r.err)
  {
    hide *;
    TakeStep(t, r, LParen);
    SpelledIsProper(c, t, r.pos + 1);
    ExprStep(t, Then(t, r, LParen), c);
    TakeStep(t, ThenExpr(t, Then(t, r, LParen)), RParen);
  }

  lemma {:induction false} ArmComplete(kw: Tok, c: Cst, b: seq<Stm>, t: Toks, r: Nodes)
    requires Terminated(t) && (kw == IF || kw == ELIF) && SpellsArm(kw, c, b, t, r.pos)
    ensures r.pos < |t| && t[r.pos].kind == kw && Proper(c) && GoodList(b)
    ensures Arm(t, r) == Parsed(r.val + ([A.E(Abstract(c))] + BodyOr(FlattenList(b))), r.pos + ArmLen(c, b), r.err)
    decreases ArmLen(c, b), 2
  {
    hide StmtSpec.Block, StmtSpec.Then, StmtSpec.ThenExpr, SpellsExpr, SpellsBlock, FlattenList, Proper, Grammar.Yield,
         Grammar.Abstract;
    var r1 := Parsed(r.val, r.pos + 1, r.err);
    CondComplete(c, t, r1);
    var r2 := Parsed(r.val + [A.E(Abstract(c))], r.pos + 3 + |Yield(c)|, r.err);
    BlockComplete(b, t, r2, true);
    assert r2.val + BodyOr(FlattenList(b)) == r.val + ([A.E(Abstract(c))] + BodyOr(FlattenList(b)));
  }

  lemma IfParts(rest: Tail, t: Toks, p: nat)
    requires SpellsTail(rest, t, p)
    ensures p < |t|
    ensures rest.Fi? ==> t[p].kind != ELIF && t[p].kind != ELSE && TailLen(rest) == 0 && GoodTail(rest)
                         && FlattenTail(rest) == []
    ensures rest.Elif? ==>
              && t[p].kind == ELIF && SpellsArm(ELIF, rest.cond, rest.body, t, p)
              && SpellsTail(rest.rest, t, p + ArmLen(rest.cond, rest.body))
              && TailLen(rest) == ArmLen(rest.cond, rest.body) + TailLen(rest.rest)
              && (Proper(rest.cond) && GoodList(rest.body) && GoodTail(rest.rest) ==>
                    && GoodTail(rest)
                    && FlattenTail(rest) == [A.E(Abstract(rest.cond))] + BodyOr(FlattenList(rest.body))
                                            + FlattenTail(rest.rest))
    ensures rest.Else? ==>
              && t[p].kind == ELSE && ELSE != ELIF && p + 1 < |t| && SpellsBlock(rest.body, t, p + 1)
              && TailLen(rest) == 1 + BlockLen(rest.body)
              && (GoodList(rest.body) ==> GoodTail(rest) && FlattenTail(rest) == BodyOr(FlattenList(rest.body)))
  {
    hide Proper, SpellsList, SpellsExpr, FlattenList, StmtSpec.BodyOr, Grammar.Abstract, Grammar.Yield, BlockLen;
  }

  lemma {:induction false} IfComplete(kw: Tok, c: Cst, b: seq<Stm>, rest: Tail, t: Toks, r: Nodes)
    requires Terminated(t) && (kw == IF || kw == ELIF)
    requires SpellsArm(kw, c, b, t, r.pos) && SpellsTail(rest, t, r.pos + ArmLen(c, b))
    ensures Proper(c) && GoodList(b) && GoodTail(rest) && r.pos < |t| && t[r.pos].kind == kw
    ensures IfRest(t, r)
         == Parsed(r.val + ([A.E(Abstract(c))] + BodyOr(FlattenList(b)) + FlattenTail(rest)),
                   r.pos + ArmLen(c, b) + TailLen(rest), r.err)
    decreases ArmLen(c, b) + TailLen(rest), 3, 0
  {
    hide *;
    IfParts(rest, t, r.pos + ArmLen(c, b));
    ArmComplete(kw, c, b, t, r);
    IfRestStep(t, r);
    var arm := Arm(t, r);
    var own := [A.E(Abstract(c))] + BodyOr(FlattenList(b));
    match rest {
      case Fi =>
        assert FlattenTail(rest) == [] && arm.val + [] == arm.val;
      case Elif(c2, b2, rest2) =>
        IfComplete(ELIF, c2, b2, rest2, t, arm);
        assert FlattenTail(rest) == [A.E(Abstract(c2))] + BodyOr(FlattenList(b2)) + FlattenTail(rest2);
      case Else(b2) =>
        BlockComplete(b2, t, Parsed(arm.val, arm.pos + 1, arm.err), true);
        assert FlattenTail(rest) == BodyOr(FlattenList(b2));
    }
    assert IfRest(t, r) == Parsed(arm.val + FlattenTail(rest), r.pos + ArmLen(c, b) + TailLen(rest), r.err);
    assert arm.val + FlattenTail(rest) == r.val + (own + FlattenTail(rest));
  }

  /** `IN lo .. hi`, after the loop variable. */
  lemma RangeComplete(lo: Cst, hi: Cst, t: Toks, r: Nodes)
    requires Terminated(t) && Is(t, r.pos, IN) && SpellsExpr(lo, t, r.pos + 1)
    requires var q := r.pos + 1 + |Yield(lo)|; Is(t, q, DotDot) && SpellsExpr(hi, t, q + 1)
    ensures ThenExpr(t, Then(t, ThenExpr(t, Then(t, r, IN)), DotDot))
         == Parsed(r.val + [A.E(Abstract(lo))] + [A.E(Abstract(hi))],
                   r.pos + 1 + |Yield(lo)| + 1 + |Yield(hi)|, r.err)
  {
    hide StmtSpec.Then, StmtSpec.ThenExpr, SpellsExpr, Grammar.Yield, Grammar.Abstract, Proper, ParseSpec.Climb, ParseSpec.Prec;
    TakeStep(t, r, IN);
    var r2 := Then(t, r, IN);
    SpelledIsProper(lo, t, r2.pos);
    ExprStep(t, r2, lo);
    var r3 := ThenExpr(t, r2);
    TakeStep(t, r3, DotDot);
    ExprStep(t, Then(t, r3, DotDot), hi);
  }

  lemma ForHead(s: Stm, t: Toks, p: nat) returns (r: Nodes)
    requires Terminated(t) && s.For? && Spells(s, t, p)
    ensures Proper(s.lo) && Proper(s.hi) && p + 1 < |t|
    ensures r == Parsed([A.E(A.Ident(s.v)), A.E(Abstract(s.lo)), A.E(Abstract(s.hi))],
                        p + 3 + |Yield(s.lo)| + 1 + |Yield(s.hi)|, false)
    ensures r.pos < |t| && SpellsBlock(s.loop, t, r.pos) && ForRest(t, p + 1) == Block(t, r, false)
  {
    hide StmtSpec.Block, StmtSpec.Then, StmtSpec.ThenExpr, SpellsExpr, SpellsBlock, BlockLen, Grammar.Yield,
         Grammar.Abstract;
    var q := p + 3 + |Yield(s.lo)|;
    SpelledIsProper(s.lo, t, p + 3);
    SpelledIsProper(s.hi, t, q + 1);
    var r1 := Parsed([A.E(A.Ident(s.v))], p + 2, false);
    RangeComplete(s.lo, s.hi, t, r1);
    r := Parsed([A.E(A.Ident(s.v)), A.E(Abstract(s.lo)), A.E(Abstract(s.hi))], q + 1 + |Yield(s.hi)|, false);
    assert r1.val + [A.E(Abstract(s.lo))] + [A.E(Abstract(s.hi))] == r.val;
  }

  lemma {:induction false} ForComplete(s: Stm, t: Toks, p: nat)
    requires Terminated(t) && s.For? && Spells(s, t, p)
    ensures Good(s) && p + 1 < |t|
    ensures Some1(A.ForStmt, ForRest(t, p + 1)) == Parsed(Some(Flatten(s)), p + Len(s), false)
    decreases Len(s), 3
  {
    hide StmtSpec.Block, StmtSpec.ForRest, SpellsBlock, FlattenList, Spells;
    var r := ForHead(s, t, p);
    BlockComplete(s.loop, t, r, false);
  }

  /** The first token of a statement. */
  lemma SpellsStart(s: Stm, t: Toks, p: nat)
    requires Terminated(t) && Spells(s, t, p)
    ensures p < |t| && !EndsList(t[p].kind)
    ensures s.Let? ==> t[p].kind == LET
    ensures s.Return? ==> t[p].kind == RETURN
    ensures s.If? ==> t[p].kind == IF
    ensures s.For? ==> t[p].kind == FOR
  {
    hide SpellsExpr, SpellsArgs, SpellsList, SpellsTail, ArgsLen, Len, Good, Flatten;
    if s.Assign? {
      AssignComplete(s, t, p);
    }
  }

  /** A spelled statement is parsed, without error, to its flattened tree. */
  lemma {:induction false} StatementComplete(s: Stm, t: Toks, p: nat)
    requires Terminated(t) && Spells(s, t, p)
    ensures p < |t| && !EndsList(t[p].kind)
    ensures Good(s) && Statement(t, p) == Parsed(Some(Flatten(s)), p + Len(s), false)
    decreases Len(s), 4
  {
    hide StmtSpec.Statement, StmtSpec.IfRest, StmtSpec.ForRest, StmtSpec.AssignRest, StmtSpec.LetRest, StmtSpec.ReturnRest,
         Spells, Good, Flatten, Len;
    SpellsStart(s, t, p);
    match s
    case Let(_, _, _) => LetComplete(s, t, p); StatementOfLet(t, p);
    case Call(_, _) => CallComplete(s, t, p);
    case Return(_) => ReturnComplete(s, t, p); StatementOfReturn(t, p);
    case Assign(_, _) => AssignComplete(s, t, p); StatementOfAssign(t, p);
    case If(c, b, rest) => IfStmComplete(s, t, p); StatementOfIf(t, p);
    case For(_, _, _, _) => ForComplete(s, t, p); StatementOfFor(t, p);
  }

  lemma {:induction false} IfStmComplete(s: Stm, t: Toks, p: nat)
    requires Terminated(t) && s.If? && Spells(s, t, p)
    ensures Good(s) && p < |t| && t[p].kind == IF
    ensures Some1(A.IfStmt, IfRest(t, From(p))) == Parsed(Some(Flatten(s)), p + Len(s), false)
    decreases Len(s), 3, 1
  {
    hide StmtSpec.IfRest, SpellsArm, SpellsTail;
    IfComplete(IF, s.cond, s.body, s.rest, t, From(p));
    var kids := [A.E(Abstract(s.cond))] + BodyOr(FlattenList(s.body)) + FlattenTail(s.rest);
    assert [] + kids == kids;
  }

  // ===== soundness =====
  // Each lemma finds the spelling; completeness then gives tree and position.

  lemma TakeSound<T>(t: Toks, r: Parsed<T>, k: Tok)
    requires Terminated(t) && r.pos < |t| && !k.EOF? && !Then(t, r, k).err
    ensures Is(t, r.pos, k) && !r.err && r.pos + 1 < |t| && Then(t, r, k) == Parsed(r.val, r.pos + 1, false)
  {
  }

  lemma OccursIn(t: Toks, p: nat, q: nat)
    requires p <= q <= |t|
    ensures Occurs(t, p, t[p..q])
  {
  }

  lemma ExprSound(t: Toks, r: Nodes) returns (c: Cst)
    requires Terminated(t) && r.pos < |t| && !ThenExpr(t, r).err
    ensures var q := r.pos + |Yield(c)|;
            && !r.err && q < |t| && ThenExpr(t, r).pos == q
            && (!t[q].kind.Dot? ==> SpellsExpr(c, t, r.pos))
  {
    hide ParseSpec.Climb, ParseSpec.Prec;
    c := ClimbSound(t, r.pos, 1);
    OccursIn(t, r.pos, ThenExpr(t, r).pos);
  }

  /** An expression and the token after it. */
  lemma ExprTakeSound(t: Toks, r: Nodes, k: Tok) returns (c: Cst)
    requires Terminated(t) && r.pos < |t| && !k.EOF? && !k.Dot? && !Then(t, ThenExpr(t, r), k).err
    ensures var q := r.pos + |Yield(c)|;
            && SpellsExpr(c, t, r.pos) && Is(t, q, k) && !r.err && q + 1 < |t|
            && Then(t, ThenExpr(t, r), k).pos == q + 1
  {
    hide *;
    TakeSound(t, ThenExpr(t, r), k);
    c := ExprSound(t, r);
    KindOfIs(t, ThenExpr(t, r).pos, k);
  }

  lemma LetSound(t: Toks, p: nat) returns (s: Stm)
    requires Terminated(t) && Is(t, p, LET) && p + 1 < |t| && !LetRest(t, p + 1).err
    ensures Spells(s, t, p)
  {
    hide StmtSpec.Then, StmtSpec.ThenExpr, SpellsExpr, Grammar.Yield, Proper, ParseSpec.Prec;
    var typed := t[p+2].kind.Colon?;
    var a := if typed then Adv(t, p + 3) else p + 2;
    var r := Parsed([A.E(A.Ident(t[p+1].text))], a, false);
    var c := ExprTakeSound(t, Then(t, r, Eq), Semicolon);
    TakeSound(t, r, Eq);
    s := Let(t[p+1].text, typed, c);
  }

  lemma CallEnds(t: Toks, r: Nodes) returns (c: Cst)
    requires Terminated(t) && r.pos < |t| && !CloseCall(t, ThenExpr(t, r)).err
    ensures var q := r.pos + |Yield(c)|;
            SpellsExpr(c, t, r.pos) && Is(t, q, RParen) && Is(t, q + 1, Semicolon) && !r.err
  {
    hide StmtSpec.Then, StmtSpec.ThenExpr, SpellsExpr, Grammar.Yield, Proper, ParseSpec.Prec;
    TakeSound(t, Then(t, ThenExpr(t, r), RParen), Semicolon);
    c := ExprTakeSound(t, r, RParen);
  }

  lemma ArgsOfOne(a: Cst, t: Toks, p: nat)
    requires SpellsExpr(a, t, p)
    ensures SpellsArgs([a], t, p) && ArgsLen([a]) == |Yield(a)|
  {
    hide Grammar.Yield, Proper, ParseSpec.Prec;
  }

  lemma ArgsOfTwo(a: Cst, b: Cst, t: Toks, p: nat)
    requires SpellsExpr(a, t, p) && Is(t, p + |Yield(a)|, Comma) && SpellsExpr(b, t, p + |Yield(a)| + 1)
    ensures SpellsArgs([a, b], t, p) && ArgsLen([a, b]) == |Yield(a)| + 1 + |Yield(b)|
  {
    hide Grammar.Yield, Proper, ParseSpec.Prec, SpellsExpr;
    ArgsOfOne(b, t, p + |Yield(a)| + 1);
    assert [a, b][1..] == [b];
  }

  lemma TwoArgsSound(t: Toks, p: nat) returns (args: seq<Cst>)
    requires Terminated(t) && p < |t| && !TwoArgs(t, p).err
    ensures |args| == 2 && Is(t, p, LParen) && SpellsArgs(args, t, p + 1)
    ensures var q := p + 1 + ArgsLen(args); Is(t, q, RParen) && Is(t, q + 1, Semicolon)
  {
    hide StmtSpec.Then, StmtSpec.ThenExpr, StmtSpec.CloseCall, SpellsExpr, SpellsArgs, ArgsLen, Grammar.Yield, Proper, ParseSpec.Prec;
    var r := Then(t, OpenArg(t, p), Comma);
    var b := CallEnds(t, r);
    var a := ExprTakeSound(t, Then(t, From(p), LParen), Comma);
    TakeSound(t, From(p), LParen);
    args := [a, b];
    ArgsOfTwo(a, b, t, p + 1);
  }

  lemma OneArgSound(t: Toks, p: nat) returns (args: seq<Cst>)
    requires Terminated(t) && p < |t| && !CloseCall(t, OpenArg(t, p)).err
    ensures |args| == 1 && Is(t, p, LParen) && SpellsArgs(args, t, p + 1)
    ensures var q := p + 1 + ArgsLen(args); Is(t, q, RParen) && Is(t, q + 1, Semicolon)
  {
    hide StmtSpec.Then, StmtSpec.ThenExpr, StmtSpec.CloseCall, SpellsExpr, SpellsArgs, ArgsLen, Grammar.Yield, Proper, ParseSpec.Prec;
    var a := CallEnds(t, Then(t, From(p), LParen));
    TakeSound(t, From(p), LParen);
    args := [a];
    ArgsOfOne(a, t, p + 1);
  }

  lemma EmitArgsSound(t: Toks, p: nat) returns (args: seq<Cst>)
    requires Terminated(t) && p < |t| && !EmitArgs(t, p).err
    ensures |args| in {1, 2} && Is(t, p, LParen) && SpellsArgs(args, t, p + 1)
    ensures var q := p + 1 + ArgsLen(args); Is(t, q, RParen) && Is(t, q + 1, Semicolon)
  {
    hide StmtSpec.Then, StmtSpec.ThenExpr, StmtSpec.CloseCall, SpellsExpr, SpellsArgs, ArgsLen, Grammar.Yield, Proper, ParseSpec.Prec;
    var o := OpenArg(t, p);
    if t[o.pos].kind.Comma? {
      var b := CallEnds(t, Parsed(o.val, o.pos + 1, o.err));
      var a := ExprSound(t, Then(t, From(p), LParen));
      TakeSound(t, From(p), LParen);
      args := [a, b];
      ArgsOfTwo(a, b, t, p + 1);
    } else {
      args := OneArgSound(t, p);
    }
  }

  lemma {:induction false} LogArgsSound(t: Toks, p: nat) returns (args: seq<Cst>)
    requires Terminated(t) && p < |t| && !LogArgs(t, p).err && !t[LogArgs(t, p).pos].kind.Dot?
    ensures args != [] && SpellsArgs(args, t, p) && LogArgs(t, p).pos == p + ArgsLen(args)
    decreases |t| - p
  {
    hide ParseSpec.Climb, SpellsExpr, Grammar.Yield, Proper, ParseSpec.Prec;
    var x := ThenExpr(t, From(p));
    var a := ExprSound(t, From(p));
    if t[x.pos].kind.Comma? {
      var rest := LogArgsSound(t, x.pos + 1);
      args := [a] + rest;
      assert args[1..] == rest;
    } else {
      args := [a];
    }
  }

  lemma CallSound(t: Toks, p: nat, kind: A.Kind) returns (s: Stm)
    requires Terminated(t) && Is(t, p, Keyword(kind)) && !Keyword(kind).EOF? && !Statement(t, p).err
    ensures Spells(s, t, p)
  {
    hide StmtSpec.Statement, StmtSpec.Then, StmtSpec.ThenExpr, StmtSpec.TwoArgs, StmtSpec.EmitArgs, StmtSpec.CloseCall,
         StmtSpec.OpenArg, StmtSpec.LogArgs, SpellsExpr, SpellsArgs, ArgsLen;
    StatementOfCall(t, p, kind);
    var args;
    match kind
    case RegWriteStmt | WaitStmt | ArmStmt =>
      args := TwoArgsSound(t, p + 1);
      s := Call(kind, args);
    case EmitStmt =>
      args := EmitArgsSound(t, p + 1);
      s := Call(kind, args);
    case CancelStmt =>
      args := OneArgSound(t, p + 1);
      s := Call(kind, args);
    case LogStmt =>
      args := LogCallSound(t, p + 1);
      s := Call(kind, args);
  }

  lemma LogCallSound(t: Toks, p: nat) returns (args: seq<Cst>)
    requires Terminated(t) && p < |t| && !LogCall(t, p).err
    ensures |args| >= 1 && Is(t, p, LParen) && SpellsArgs(args, t, p + 1)
    ensures var q := p + 1 + ArgsLen(args); Is(t, q, RParen) && Is(t, q + 1, Semicolon)
  {
    hide StmtSpec.Then, StmtSpec.LogArgs, SpellsArgs, ArgsLen;
    var o := Then(t, From(p), LParen);
    var r := LogArgs(t, o.pos);
    var q := Parsed(r.val, r.pos, o.err || r.err);
    TakeSound(t, Then(t, q, RParen), Semicolon);
    TakeSound(t, q, RParen);
    TakeSound(t, From(p), LParen);
    args := LogArgsSound(t, p + 1);
  }

  lemma ReturnSound(t: Toks, p: nat) returns (s: Stm)
    requires Terminated(t) && Is(t, p, RETURN) && p + 1 < |t| && !ReturnRest(t, p + 1).err
    ensures Spells(s, t, p)
  {
    hide StmtSpec.Then, StmtSpec.ThenExpr, SpellsExpr, Grammar.Yield, Proper, ParseSpec.Prec;
    if t[p+1].kind.Semicolon? {
      s := Return(None);
    } else {
      var c := ExprTakeSound(t, From(p + 1), Semicolon);
      s := Return(Some(c));
    }
  }

  lemma AssignSound(t: Toks, p: nat) returns (s: Stm)
    requires Terminated(t) && p < |t| && !AssignRest(t, p).err
    ensures Spells(s, t, p)
  {
    hide StmtSpec.Then, StmtSpec.ThenExpr, SpellsExpr, Grammar.Yield, Proper, ParseSpec.Prec;
    var l := ThenExpr(t, From(p));
    var r := Parsed(l.val, l.pos + 1, l.err);
    var b := ExprTakeSound(t, r, Semicolon);
    var a := ExprSound(t, From(p));
    s := Assign(a, b);
  }

  lemma {:induction false} ListSound(t: Toks, p: nat) returns (ss: seq<Stm>)
    requires Terminated(t) && p < |t| && !StatementList(t, p).err
    ensures SpellsList(ss, t, p) && p + ListLen(ss) == StatementList(t, p).pos
    decreases |t| - p, 4
  {
    hide StmtSpec.Statement, Spells, Good, Flatten, Len;
    if EndsList(t[p].kind) {
      ss := [];
    } else {
      var s := StatementSound(t, p);
      StatementComplete(s, t, p);
      var rest := ListSound(t, p + Len(s));
      ss := [s] + rest;
      assert ss[1..] == rest;
    }
  }

  lemma BlockParts(t: Toks, r: Nodes, sub: bool)
    requires Terminated(t) && r.pos < |t| && !Block(t, r, sub).err
    ensures Is(t, r.pos, LBrace) && !r.err && r.pos + 1 < |t| && !StatementList(t, r.pos + 1).err
    ensures var q := StatementList(t, r.pos + 1).pos; Is(t, q, RBrace) && Block(t, r, sub).pos == q + 1
  {
    hide StmtSpec.Then, StmtSpec.StatementList;
    var o := Then(t, r, LBrace);
    var b := StatementList(t, o.pos);
    TakeSound(t, Parsed(r.val + (if sub then BodyOr(b.val) else b.val), b.pos, o.err || b.err), RBrace);
    TakeSound(t, r, LBrace);
  }

  lemma {:induction false} BlockSound(t: Toks, r: Nodes, sub: bool) returns (b: seq<Stm>)
    requires Terminated(t) && r.pos < |t| && !Block(t, r, sub).err
    ensures SpellsBlock(b, t, r.pos) && !r.err && Block(t, r, sub).pos == r.pos + BlockLen(b)
    decreases |t| - r.pos, 5
  {
    hide StmtSpec.Block, StmtSpec.StatementList, SpellsList;
    BlockParts(t, r, sub);
    b := ListSound(t, r.pos + 1);
  }

  /** Condition and body of an arm. */
  lemma {:induction false} ArmSound(t: Toks, r: Nodes) returns (c: Cst, b: seq<Stm>)
    requires Terminated(t) && r.pos < |t| && (t[r.pos].kind == IF || t[r.pos].kind == ELIF) && !Arm(t, r).err
    ensures SpellsArm(t[r.pos].kind, c, b, t, r.pos) && !r.err && Arm(t, r).pos == r.pos + ArmLen(c, b)
    decreases |t| - r.pos, 0
  {
    hide StmtSpec.Block, StmtSpec.Then, StmtSpec.ThenExpr, SpellsExpr, SpellsBlock, BlockLen, Grammar.Yield, Proper;
    var r1 := Parsed(r.val, r.pos + 1, r.err);
    var r2 := Then(t, ThenExpr(t, Then(t, r1, LParen)), RParen);
    b := BlockSound(t, r2, true);
    c := ExprTakeSound(t, Then(t, r1, LParen), RParen);
    TakeSound(t, r1, LParen);
  }

  lemma {:induction false} IfSound(t: Toks, r: Nodes) returns (c: Cst, b: seq<Stm>, rest: Tail)
    requires Terminated(t) && r.pos < |t| && (t[r.pos].kind == IF || t[r.pos].kind == ELIF) && !IfRest(t, r).err
    ensures SpellsArm(t[r.pos].kind, c, b, t, r.pos) && SpellsTail(rest, t, r.pos + ArmLen(c, b)) && !r.err
    decreases |t| - r.pos, 1
  {
    hide StmtSpec.IfRest, StmtSpec.Arm, StmtSpec.Block, SpellsArm, SpellsBlock, ArmLen, BlockLen;
    IfRestStep(t, r);
    var arm := Arm(t, r);
    if t[arm.pos].kind == ELIF {
      var c2, b2, rest2 := IfSound(t, arm);
      rest := Elif(c2, b2, rest2);
    } else if t[arm.pos].kind == ELSE {
      var b2 := BlockSound(t, Parsed(arm.val, arm.pos + 1, arm.err), true);
      rest := Else(b2);
    } else {
      rest := Fi;
    }
    c, b := ArmSound(t, r);
  }

  lemma {:induction false} ForSound(t: Toks, p: nat) returns (s: Stm)
    requires Terminated(t) && Is(t, p, FOR) && p + 1 < |t| && !ForRest(t, p + 1).err
    ensures Spells(s, t, p)
    decreases |t| - p, 1
  {
    hide StmtSpec.Block, StmtSpec.Then, StmtSpec.ThenExpr, SpellsExpr, SpellsBlock, BlockLen, Grammar.Yield, Proper;
    var v := Parsed([A.E(A.Ident(t[p+1].text))], Adv(t, p + 1), false);
    var r := ThenExpr(t, Then(t, ThenExpr(t, Then(t, v, IN)), DotDot));
    var b := BlockSound(t, r, false);
    var hi := ExprSound(t, Then(t, ThenExpr(t, Then(t, v, IN)), DotDot));
    var lo := ExprTakeSound(t, Then(t, v, IN), DotDot);
    TakeSound(t, v, IN);
    BraceIsNoDot(b, t, r.pos);
    s := For(t[p+1].text, lo, hi, b);
  }

  lemma BraceIsNoDot(b: seq<Stm>, t: Toks, p: nat)
    requires SpellsBlock(b, t, p)
    ensures p < |t| && !t[p].kind.Dot?
  {
  }

  /** An error-free statement is one the grammar spells at that place. */
  lemma {:induction false} StatementSound(t: Toks, p: nat) returns (s: Stm)
    requires Terminated(t) && p < |t| && !Statement(t, p).err
    ensures Spells(s, t, p)
    decreases |t| - p, 3
  {
    hide StmtSpec.Statement, StmtSpec.IfRest, StmtSpec.ForRest, StmtSpec.AssignRest, StmtSpec.LetRest, StmtSpec.ReturnRest,
         Spells, SpellsArm, SpellsTail, ArmLen;
    var k := t[p].kind;
    if k == LET {
      StatementOfLet(t, p);
      s := LetSound(t, p);
    } else if k == RETURN {
      StatementOfReturn(t, p);
      s := ReturnSound(t, p);
    } else if k == IF {
      StatementOfIf(t, p);
      var c, b, rest := IfSound(t, From(p));
      s := If(c, b, rest);
      SpellsIf(c, b, rest, t, p);
    } else if k == FOR {
      StatementOfFor(t, p);
      s := ForSound(t, p);
    } else {
      s := SimpleSound(t, p);
    }
  }

  lemma SpellsIf(c: Cst, b: seq<Stm>, rest: Tail, t: Toks, p: nat)
    requires SpellsArm(IF, c, b, t, p) && SpellsTail(rest, t, p + ArmLen(c, b))
    ensures Spells(If(c, b, rest), t, p)
  {
    hide SpellsArm, SpellsTail, ArmLen, SpellsExpr, SpellsBlock;
  }

  /** Calls and assignments. */
  lemma SimpleSound(t: Toks, p: nat) returns (s: Stm)
    requires Terminated(t) && p < |t| && !Statement(t, p).err && t[p].kind !in {LET, RETURN, IF, FOR}
    ensures Spells(s, t, p)
  {
    hide StmtSpec.IfRest, StmtSpec.ForRest, StmtSpec.AssignRest, StmtSpec.LetRest, StmtSpec.ReturnRest,
         StmtSpec.TwoArgs, StmtSpec.EmitArgs, StmtSpec.CloseCall, StmtSpec.OpenArg, StmtSpec.LogCall, Spells;
    var k := t[p].kind;
    if k == WRITE {
      s := CallSound(t, p, A.RegWriteStmt);
    } else if k == EMIT {
      s := CallSound(t, p, A.EmitStmt);
    } else if k == WAIT {
      s := CallSound(t, p, A.WaitStmt);
    } else if k == ARM {
      s := CallSound(t, p, A.ArmStmt);
    } else if k == CANCEL {
      s := CallSound(t, p, A.CancelStmt);
    } else if k == LOG {
      s := CallSound(t, p, A.LogStmt);
    } else {
      s := AssignSound(t, p);
    }
  }

  /** A statement list is parsed without error exactly when it is spelled at its place up
      to a closing brace or the end; the nodes are then the flattened statements. */
  lemma StatementListIff(t: Toks, p: nat)
    requires Terminated(t) && p < |t|
    ensures !StatementList(t, p).err
       <==> exists ss :: SpellsList(ss, t, p) && p + ListLen(ss) < |t| && EndsList(t[p + ListLen(ss)].kind)
    ensures forall ss :: SpellsList(ss, t, p) && p + ListLen(ss) < |t| && EndsList(t[p + ListLen(ss)].kind)
              ==> GoodList(ss) && StatementList(t, p) == Parsed(FlattenList(ss), p + ListLen(ss), false)
  {
    hide StmtSpec.StatementList, SpellsList, FlattenList, ListLen, GoodList;
    forall ss | SpellsList(ss, t, p) && p + ListLen(ss) < |t| && EndsList(t[p + ListLen(ss)].kind)
      ensures GoodList(ss) && StatementList(t, p) == Parsed(FlattenList(ss), p + ListLen(ss), false)
    {
      ListComplete(ss, t, p);
    }
    if !StatementList(t, p).err {
      var ss := ListSound(t, p);
      assert SpellsList(ss, t, p);
    }
  }
}
