/** Statements written out in tokens are spelled as the statement grammar spells them. */
module StmtText {
  import opened Wrappers
  import opened Tokens
  import opened ParseSpec
  import opened Grammar
  import opened StmtGrammar
  import opened TokenText
  import opened DeclGrammar
  import A = Ast
  import StmtProofs

  /** The tokens stand in `t` at `p`, and something behind them. */
  ghost predicate Stands(t: seq<Lexeme>, p: nat, ts: seq<Lexeme>) {
    Terminated(t) && Occurs(t, p, ts) && p + |ts| < |t|
  }

  lemma Split(t: seq<Lexeme>, p: nat, a: seq<Lexeme>, b: seq<Lexeme>)
    requires Stands(t, p, a + b)
    ensures Stands(t, p, a) && Stands(t, p + |a|, b)
  {
    OccursSplit(t, p, a, b);
  }

  lemma First(t: seq<Lexeme>, p: nat, ts: seq<Lexeme>)
    requires Stands(t, p, ts) && ts != []
    ensures p < |t| && t[p] == ts[0]
  {
    assert t[p + 0] == ts[0];
  }

  lemma Two(t: seq<Lexeme>, p: nat, a: Lexeme, b: Lexeme)
    requires Stands(t, p, [a, b])
    ensures Terminated(t) && p + 2 < |t| && t[p] == a && t[p + 1] == b
  {
    assert t[p + 0] == [a, b][0] && t[p + 1] == [a, b][1];
  }

  lemma Three(t: seq<Lexeme>, p: nat, a: Lexeme, b: Lexeme, c: Lexeme)
    requires Stands(t, p, [a, b, c])
    ensures Terminated(t) && p + 3 < |t| && t[p] == a && t[p + 1] == b && t[p + 2] == c
  {
    assert t[p + 0] == [a, b, c][0] && t[p + 1] == [a, b, c][1] && t[p + 2] == [a, b, c][2];
  }

  /** The kind of the token behind. */
  ghost function Behind(t: seq<Lexeme>, p: nat, ts: seq<Lexeme>): Tok
    requires Stands(t, p, ts)
  {
    t[p + |ts|].kind
  }

  /** A token that cannot continue an expression. */
  predicate EndsExpr(k: Tok) { Prec(k) == 0 && !k.Dot? }

  lemma ExprSpelled(c: Cst, t: seq<Lexeme>, p: nat)
    requires Proper(c) && Stands(t, p, Yield(c)) && EndsExpr(Behind(t, p, Yield(c)))
    ensures SpellsExpr(c, t, p)
  {
  }

  // ===== lengths =====

  lemma {:induction false} ArgsLength(args: seq<Cst>)
    ensures ArgsLen(args) == |ArgsTokens(args)|
  {
    if |args| > 1 {
      ArgsLength(args[1..]);
    }
  }

  lemma {:induction false} StmLength(s: Stm)
    ensures Len(s) == |StmTokens(s)|
    decreases s, 1
  {
    match s
    case Call(_, args) => ArgsLength(args);
    case If(c, b, rest) =>
      ArmLength("if", c, b);
      TailLength(rest);
    case For(_, _, _, b) => ListLength(b);
    case _ =>
  }

  lemma {:induction false} ArmLength(word: string, c: Cst, b: seq<Stm>)
    ensures ArmLen(c, b) == |ArmTokens(word, c, b)|
    decreases b, 2
  {
    ListLength(b);
  }

  lemma {:induction false} TailLength(r: Tail)
    ensures TailLen(r) == |TailTokens(r)|
    decreases r, 0
  {
    match r
    case Fi =>
    case Elif(c, b, rest) =>
      ArmLength("elif", c, b);
      TailLength(rest);
    case Else(b) => ListLength(b);
  }

  lemma {:induction false} ListLength(ss: seq<Stm>)
    ensures ListLen(ss) == |ListTokens(ss)|
    decreases ss, 0
  {
    if ss != [] {
      StmLength(ss[0]);
      ListLength(ss[1..]);
    }
  }

  // ===== spelling =====

  /** What may follow a statement: not the words that would go on with an if. */
  predicate Leaves(k: Tok) { k != Kw("elif") && k != Kw("else") }

  lemma {:induction false} ArgsSpelled(args: seq<Cst>, t: seq<Lexeme>, p: nat)
    requires args != [] && forall c :: c in args ==> Proper(c)
    requires Stands(t, p, ArgsTokens(args)) && EndsExpr(Behind(t, p, ArgsTokens(args)))
    ensures SpellsArgs(args, t, p)
    decreases |args|
  {
    hide EndsExpr, Stands, Terminated, Grammar.Yield, Proper, SpellsExpr, Occurs, ParseSpec.Prec;
    var first := Yield(args[0]);
    assert args[0] in args;
    if |args| > 1 {
      Split(t, p, first, [COMMA] + ArgsTokens(args[1..]));
      Split(t, p + |first|, [COMMA], ArgsTokens(args[1..]));
      First(t, p + |first|, [COMMA]);
      CommaEnds();
      ExprSpelled(args[0], t, p);
      ArgsSpelled(args[1..], t, p + |first| + 1);
    } else {
      assert ArgsTokens(args) == first;
      ExprSpelled(args[0], t, p);
    }
  }

  lemma CommaEnds()
    ensures EndsExpr(Comma) && EndsExpr(RParen) && EndsExpr(Semicolon) && EndsExpr(Eq) && EndsExpr(DotDot)
    ensures EndsExpr(LBrace) && EndsExpr(Kw("in"))
  {
  }

  /** An expression and the semicolon behind it. */
  lemma ValueSpelled(e: Cst, t: seq<Lexeme>, p: nat)
    requires Proper(e) && Stands(t, p, Yield(e) + [SEMICOLON])
    ensures SpellsExpr(e, t, p) && Is(t, p + |Yield(e)|, Semicolon)
  {
    hide Stands, Terminated, Grammar.Yield, Proper, SpellsExpr, Occurs, ParseSpec.Prec;
    Split(t, p, Yield(e), [SEMICOLON]);
    First(t, p + |Yield(e)|, [SEMICOLON]);
    CommaEnds();
    ExprSpelled(e, t, p);
  }

  lemma LetSpelled(s: Stm, t: seq<Lexeme>, p: nat)
    requires s.Let? && Good(s) && Stands(t, p, StmTokens(s))
    ensures Spells(s, t, p)
  {
    hide Stands, Terminated, Grammar.Yield, Proper, SpellsExpr, Occurs;
    var ty, value := if s.typed then [COLON, Key("u32")] else [], Yield(s.init) + [SEMICOLON];
    Split(t, p, [Key("let"), Word(s.name)], ty + ([EQUALS] + value));
    Two(t, p, Key("let"), Word(s.name));
    Split(t, p + 2, ty, [EQUALS] + value);
    if s.typed {
      Two(t, p + 2, COLON, Key("u32"));
    }
    var a := p + 2 + |ty|;
    Split(t, a, [EQUALS], value);
    First(t, a, [EQUALS]);
    ValueSpelled(s.init, t, a + 1);
  }

  lemma CallSpelled(s: Stm, t: seq<Lexeme>, p: nat)
    requires s.Call? && Good(s) && Stands(t, p, StmTokens(s))
    ensures Spells(s, t, p)
  {
    hide EndsExpr, Stands, Terminated, Grammar.Yield, Proper, SpellsArgs, Occurs, ParseSpec.Prec, ArgsTokens, ArgsLen;
    var args := ArgsTokens(s.args);
    ArgsLength(s.args);
    Split(t, p, [Key(CallWord(s.kind)), LPAREN], args + [RPAREN, SEMICOLON]);
    Two(t, p, Key(CallWord(s.kind)), LPAREN);
    Split(t, p + 2, args, [RPAREN, SEMICOLON]);
    Two(t, p + 2 + |args|, RPAREN, SEMICOLON);
    CommaEnds();
    assert s.args != [];
    ArgsSpelled(s.args, t, p + 2);
  }

  lemma ReturnSpelled(s: Stm, t: seq<Lexeme>, p: nat)
    requires s.Return? && Good(s) && Stands(t, p, StmTokens(s))
    ensures Spells(s, t, p)
  {
    hide Stands, Terminated, Grammar.Yield, Proper, SpellsExpr, Occurs;
    if s.val.Some? {
      Split(t, p, [Key("return")], Yield(s.val.value) + [SEMICOLON]);
      First(t, p, [Key("return")]);
      ValueSpelled(s.val.value, t, p + 1);
    } else {
      assert StmTokens(s) == [Key("return"), SEMICOLON];
      Two(t, p, Key("return"), SEMICOLON);
    }
  }

  lemma AssignSpelled(s: Stm, t: seq<Lexeme>, p: nat)
    requires s.Assign? && Good(s) && Stands(t, p, StmTokens(s))
    ensures Spells(s, t, p)
  {
    hide Stands, Terminated, Grammar.Yield, Proper, SpellsExpr, Occurs, ParseSpec.Prec;
    var l, value := Yield(s.lhs), Yield(s.rhs) + [SEMICOLON];
    Split(t, p, l, [EQUALS] + value);
    Split(t, p + |l|, [EQUALS], value);
    First(t, p + |l|, [EQUALS]);
    CommaEnds();
    ExprSpelled(s.lhs, t, p);
    ValueSpelled(s.rhs, t, p + |l| + 1);
  }

  /** Statements between braces. */
  lemma {:induction false} BlockSpelled(b: seq<Stm>, t: seq<Lexeme>, p: nat)
    requires GoodList(b) && Stands(t, p, [LBRACE] + (ListTokens(b) + [RBRACE]))
    ensures SpellsBlock(b, t, p) && BlockLen(b) == |[LBRACE] + (ListTokens(b) + [RBRACE])|
    decreases b, 3
  {
    hide Stands, Terminated, Occurs, ListTokens, GoodList, SpellsList;
    var ts := ListTokens(b);
    ListLength(b);
    Split(t, p, [LBRACE], ts + [RBRACE]);
    First(t, p, [LBRACE]);
    Split(t, p + 1, ts, [RBRACE]);
    First(t, p + 1 + |ts|, [RBRACE]);
    ListSpelled(b, t, p + 1);
  }

  lemma {:induction false} ArmSpelled(word: string, c: Cst, b: seq<Stm>, t: seq<Lexeme>, p: nat)
    requires Proper(c) && GoodList(b) && Stands(t, p, ArmTokens(word, c, b))
    ensures SpellsArm(Kw(word), c, b, t, p)
    decreases b, 4
  {
    hide EndsExpr, Stands, Terminated, Occurs, ListTokens, GoodList, SpellsBlock, Grammar.Yield, Proper, SpellsExpr, ParseSpec.Prec;
    var e, block := Yield(c), [LBRACE] + (ListTokens(b) + [RBRACE]);
    assert [RPAREN, LBRACE] + (ListTokens(b) + [RBRACE]) == [RPAREN] + block;
    Split(t, p, [Key(word), LPAREN], e + ([RPAREN] + block));
    Two(t, p, Key(word), LPAREN);
    Split(t, p + 2, e, [RPAREN] + block);
    Split(t, p + 2 + |e|, [RPAREN], block);
    First(t, p + 2 + |e|, [RPAREN]);
    CommaEnds();
    ExprSpelled(c, t, p + 2);
    BlockSpelled(b, t, p + 2 + |e| + 1);
  }

  lemma {:induction false} TailSpelled(r: Tail, t: seq<Lexeme>, p: nat)
    requires GoodTail(r) && Stands(t, p, TailTokens(r)) && (!r.Else? ==> Leaves(Behind(t, p, TailTokens(r))))
    ensures SpellsTail(r, t, p)
    decreases r, 5
  {
    hide Occurs, ArmTokens, GoodList, SpellsArm, SpellsBlock, Proper, ListTokens;
    match r
    case Fi =>
    case Elif(c, b, rest) =>
      var arm := ArmTokens("elif", c, b);
      ArmLength("elif", c, b);
      Split(t, p, arm, TailTokens(rest));
      ArmSpelled("elif", c, b, t, p);
      TailSpelled(rest, t, p + |arm|);
    case Else(b) =>
      var block := [LBRACE] + (ListTokens(b) + [RBRACE]);
      assert TailTokens(r) == [Key("else")] + block;
      Split(t, p, [Key("else")], block);
      First(t, p, [Key("else")]);
      BlockSpelled(b, t, p + 1);
  }

  lemma {:induction false} ForSpelled(s: Stm, t: seq<Lexeme>, p: nat)
    requires s.For? && Good(s) && Stands(t, p, StmTokens(s))
    ensures Spells(s, t, p)
    decreases s, 0
  {
    hide EndsExpr, Stands, Terminated, Occurs, ListTokens, GoodList, SpellsBlock, Grammar.Yield, Proper, SpellsExpr, ParseSpec.Prec, BlockLen;
    var lo, hi, block := Yield(s.lo), Yield(s.hi), [LBRACE] + (ListTokens(s.loop) + [RBRACE]);
    Split(t, p, [Key("for"), Word(s.v), Key("in")], lo + ([DOTS] + (hi + block)));
    Three(t, p, Key("for"), Word(s.v), Key("in"));
    Split(t, p + 3, lo, [DOTS] + (hi + block));
    var q := p + 3 + |lo|;
    Split(t, q, [DOTS], hi + block);
    First(t, q, [DOTS]);
    Split(t, q + 1, hi, block);
    First(t, q + 1 + |hi|, block);
    CommaEnds();
    ExprSpelled(s.lo, t, p + 3);
    ExprSpelled(s.hi, t, q + 1);
    BlockSpelled(s.loop, t, q + 1 + |hi|);
  }

  lemma {:induction false} IfSpelled(s: Stm, t: seq<Lexeme>, p: nat)
    requires s.If? && Good(s) && Stands(t, p, StmTokens(s)) && Leaves(Behind(t, p, StmTokens(s)))
    ensures Spells(s, t, p)
    decreases s, 0
  {
    hide Stands, Terminated, Occurs, ArmTokens, TailTokens, GoodList, GoodTail, SpellsArm, SpellsTail, Proper;
    var arm, tail := ArmTokens("if", s.cond, s.body), TailTokens(s.rest);
    ArmLength("if", s.cond, s.body);
    Split(t, p, arm, tail);
    ArmSpelled("if", s.cond, s.body, t, p);
    TailSpelled(s.rest, t, p + |arm|);
  }

  /** A statement written out at a place is spelled there. */
  lemma {:induction false} StmSpelled(s: Stm, t: seq<Lexeme>, p: nat)
    requires Good(s) && Stands(t, p, StmTokens(s)) && Leaves(Behind(t, p, StmTokens(s)))
    ensures Spells(s, t, p)
    decreases s, 1
  {
    hide Occurs, Good, StmTokens, Spells;
    match s
    case Let(_, _, _) => LetSpelled(s, t, p);
    case Call(_, _) => CallSpelled(s, t, p);
    case Return(_) => ReturnSpelled(s, t, p);
    case Assign(_, _) => AssignSpelled(s, t, p);
    case If(_, _, _) => IfSpelled(s, t, p);
    case For(_, _, _, _) => ForSpelled(s, t, p);
  }

  /** No statement begins with `elif` or `else`. */
  lemma StmBegins(s: Stm)
    requires Good(s)
    ensures StmTokens(s) != [] && Leaves(StmTokens(s)[0].kind)
  {
    hide Grammar.Yield, Proper, ListTokens, ArgsTokens, TailTokens;
    if s.Assign? {
      StmtProofs.FirstToken(s.lhs);
    }
  }

  lemma {:induction false} ListSpelled(ss: seq<Stm>, t: seq<Lexeme>, p: nat)
    requires GoodList(ss) && Stands(t, p, ListTokens(ss)) && Behind(t, p, ListTokens(ss)).RBrace?
    ensures SpellsList(ss, t, p)
    decreases ss, 2
  {
    hide Occurs, Good, StmTokens, Spells;
    if ss != [] {
      var first, rest := StmTokens(ss[0]), ListTokens(ss[1..]);
      StmLength(ss[0]);
      Split(t, p, first, rest);
      if |ss| > 1 {
        StmBegins(ss[1]);
        First(t, p + |first|, rest);
      }
      StmSpelled(ss[0], t, p);
      ListSpelled(ss[1..], t, p + |first|);
    }
  }
}
