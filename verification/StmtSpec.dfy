/** What the statement parser computes (compiler/parser.c). A body parsed inside a
    statement is appended to that statement's child list. */
module StmtSpec {
  import opened Wrappers
  import opened Tokens
  import opened ParseSpec
  import A = Ast

  const LET := Kw("let")
  const WRITE := Kw("write")
  const EMIT := Kw("emit")
  const WAIT := Kw("wait")
  const ARM := Kw("arm")
  const CANCEL := Kw("cancel")
  const RETURN := Kw("return")
  const LOG := Kw("log")
  const IF := Kw("if")
  const ELIF := Kw("elif")
  const ELSE := Kw("else")
  const FOR := Kw("for")
  const IN := Kw("in")

  /** kdal_ast_add_child of an expression: adding a null pointer changes nothing. */
  function Kid(e: A.Expr): seq<A.Node> {
    if e.Null? then [] else [A.E(e)]
  }

  /** The statement list with no statement stands for an INVALID node. */
  function BodyOr(body: seq<A.Node>): seq<A.Node> {
    if body == [] then [A.S(A.Invalid, [])] else body
  }

  /** p_expect, keeping the error flag of what came before. */
  function Then<T>(t: seq<Lexeme>, r: Parsed<T>, k: Tok): (s: Parsed<T>)
    requires r.pos < |t|
    ensures r.pos <= s.pos < |t| && s.val == r.val
    ensures !s.err <==> !r.err && t[r.pos].kind == k
  {
    var x := Expect(t, r.pos, k);
    Parsed(r.val, x.pos, r.err || x.err)
  }

  /** parse_expr and kdal_ast_add_child. */
  function ThenExpr(t: seq<Lexeme>, r: Parsed<seq<A.Node>>): (s: Parsed<seq<A.Node>>)
    requires Terminated(t) && r.pos < |t|
    ensures r.pos <= s.pos < |t| && (!s.err ==> !r.err)
  {
    var x := Climb(t, r.pos, 1);
    Parsed(r.val + Kid(x.val), x.pos, r.err || x.err)
  }

  function From(p: nat): Parsed<seq<A.Node>> { Parsed([], p, false) }

  /** `(e)` up to but not including the closing parenthesis. */
  function OpenArg(t: seq<Lexeme>, p: nat): (s: Parsed<seq<A.Node>>)
    requires Terminated(t) && p < |t|
    ensures p <= s.pos < |t|
  {
    ThenExpr(t, Then(t, From(p), LParen))
  }

  function CloseCall(t: seq<Lexeme>, r: Parsed<seq<A.Node>>): (s: Parsed<seq<A.Node>>)
    requires r.pos < |t|
    ensures r.pos <= s.pos < |t| && s.val == r.val && (!s.err ==> !r.err)
  {
    Then(t, Then(t, r, RParen), Semicolon)
  }

  /** The operands of write, wait and arm. */
  function TwoArgs(t: seq<Lexeme>, p: nat): (s: Parsed<seq<A.Node>>)
    requires Terminated(t) && p < |t|
    ensures p <= s.pos < |t|
  {
    CloseCall(t, ThenExpr(t, Then(t, OpenArg(t, p), Comma)))
  }

  /** The operands of emit. */
  function EmitArgs(t: seq<Lexeme>, p: nat): (s: Parsed<seq<A.Node>>)
    requires Terminated(t) && p < |t|
    ensures p <= s.pos < |t|
  {
    var a := OpenArg(t, p);
    CloseCall(t, if t[a.pos].kind.Comma? then ThenExpr(t, Parsed(a.val, a.pos + 1, a.err)) else a)
  }

  /** The operands of log: at least one expression, separated by commas. */
  function LogArgs(t: seq<Lexeme>, p: nat): (s: Parsed<seq<A.Node>>)
    requires Terminated(t) && p < |t|
    ensures p <= s.pos < |t|
    decreases |t| - p
  {
    var x := Climb(t, p, 1);
    if x.val.Null? then Parsed([], x.pos, true)
    else if t[x.pos].kind.Comma? then
      var r := LogArgs(t, x.pos + 1);
      Parsed([A.E(x.val)] + r.val, r.pos, x.err || r.err)
    else Parsed([A.E(x.val)], x.pos, x.err)
  }

  function LogCall(t: seq<Lexeme>, p: nat): (s: Parsed<seq<A.Node>>)
    requires Terminated(t) && p < |t|
    ensures p <= s.pos < |t|
  {
    var o := Then(t, From(p), LParen);
    var r := LogArgs(t, o.pos);
    CloseCall(t, Parsed(r.val, r.pos, o.err || r.err))
  }

  /** The rest of a let statement; no node when the name is missing. */
  function LetRest(t: seq<Lexeme>, p: nat): (s: Parsed<Option<A.Node>>)
    requires Terminated(t) && p < |t|
    ensures p <= s.pos < |t| && (s.val.None? ==> s.err)
  {
    if !t[p].kind.Ident? then Parsed(None, p, true)
    else
      var q := if t[p+1].kind.Colon? then Adv(t, p + 2) else p + 1;
      var e := ThenExpr(t, Then(t, Parsed([A.E(A.Ident(t[p].text))], q, false), Eq));
      var s := Then(t, e, Semicolon);
      Parsed(Some(A.S(A.LetStmt, s.val)), s.pos, s.err)
  }

  function ReturnRest(t: seq<Lexeme>, p: nat): (s: Parsed<seq<A.Node>>)
    requires Terminated(t) && p < |t|
    ensures p <= s.pos < |t|
  {
    Then(t, if t[p].kind.Semicolon? then From(p) else ThenExpr(t, From(p)), Semicolon)
  }

  function AssignRest(t: seq<Lexeme>, p: nat): (s: Parsed<Option<A.Node>>)
    requires Terminated(t) && p < |t|
    ensures p <= s.pos < |t| && (s.val.None? ==> s.err) && (s.val.Some? ==> p < s.pos)
  {
    var l := ThenExpr(t, From(p));
    if t[l.pos].kind.Eq? then
      var r := Then(t, ThenExpr(t, Parsed(l.val, l.pos + 1, l.err)), Semicolon);
      Parsed(Some(A.S(A.AssignStmt, r.val)), r.pos, r.err)
    else Parsed(None, l.pos, true)
  }

  /** A braced statement list, appended to `r.val`; `sub` replaces an empty list. */
  function Block(t: seq<Lexeme>, r: Parsed<seq<A.Node>>, sub: bool): (s: Parsed<seq<A.Node>>)
    requires Terminated(t) && r.pos < |t|
    ensures r.pos <= s.pos < |t| && (!s.err ==> !r.err)
    decreases |t| - r.pos, 5
  {
    var o := Then(t, r, LBrace);
    var b := StatementList(t, o.pos);
    Then(t, Parsed(r.val + (if sub then BodyOr(b.val) else b.val), b.pos, o.err || b.err), RBrace)
  }

  /** One `if` or `elif` arm: condition and body. */
  function Arm(t: seq<Lexeme>, r: Parsed<seq<A.Node>>): (s: Parsed<seq<A.Node>>)
    requires Terminated(t) && r.pos < |t| && (t[r.pos].kind == IF || t[r.pos].kind == ELIF)
    ensures r.pos < s.pos < |t| && (!s.err ==> !r.err)
    decreases |t| - r.pos, 0
  {
    var cond := ThenExpr(t, Then(t, Parsed(r.val, r.pos + 1, r.err), LParen));
    Block(t, Then(t, cond, RParen), true)
  }

  /** The arms of an if statement, at an `if` or `elif`, and its else part. */
  function IfRest(t: seq<Lexeme>, r: Parsed<seq<A.Node>>): (s: Parsed<seq<A.Node>>)
    requires Terminated(t) && r.pos < |t| && (t[r.pos].kind == IF || t[r.pos].kind == ELIF)
    ensures r.pos < s.pos < |t| && (!s.err ==> !r.err)
    decreases |t| - r.pos, 1
  {
    var arm := Arm(t, r);
    if t[arm.pos].kind == ELIF then IfRest(t, arm)
    else if t[arm.pos].kind == ELSE then Block(t, Parsed(arm.val, arm.pos + 1, arm.err), true)
    else arm
  }

  function ForRest(t: seq<Lexeme>, p: nat): (s: Parsed<seq<A.Node>>)
    requires Terminated(t) && p < |t|
    ensures p <= s.pos < |t|
    decreases |t| - p, 6
  {
    var v := Then(t, Parsed([A.E(A.Ident(t[p].text))], Adv(t, p), false), IN);
    Block(t, ThenExpr(t, Then(t, ThenExpr(t, v), DotDot)), false)
  }

  function Some1(kind: A.Kind, r: Parsed<seq<A.Node>>): Parsed<Option<A.Node>> {
    Parsed(Some(A.S(kind, r.val)), r.pos, r.err)
  }

  function Statement(t: seq<Lexeme>, p: nat): (s: Parsed<Option<A.Node>>)
    requires Terminated(t) && p < |t|
    ensures p <= s.pos < |t|
    ensures s.val.Some? ==> p < s.pos
    ensures s.val.None? ==> s.err
    decreases |t| - p, 3
  {
    var k := t[p].kind;
    if k == LET then LetRest(t, p + 1)
    else if k == WRITE then Some1(A.RegWriteStmt, TwoArgs(t, p + 1))
    else if k == EMIT then Some1(A.EmitStmt, EmitArgs(t, p + 1))
    else if k == WAIT then Some1(A.WaitStmt, TwoArgs(t, p + 1))
    else if k == ARM then Some1(A.ArmStmt, TwoArgs(t, p + 1))
    else if k == CANCEL then Some1(A.CancelStmt, CloseCall(t, OpenArg(t, p + 1)))
    else if k == RETURN then Some1(A.ReturnStmt, ReturnRest(t, p + 1))
    else if k == LOG then Some1(A.LogStmt, LogCall(t, p + 1))
    else if k == IF then Some1(A.IfStmt, IfRest(t, From(p)))
    else if k == FOR then Some1(A.ForStmt, ForRest(t, p + 1))
    else AssignRest(t, p)
  }

  predicate EndsList(k: Tok) { k.RBrace? || k.EOF? }

  function StatementList(t: seq<Lexeme>, p: nat): (s: Parsed<seq<A.Node>>)
    requires Terminated(t) && p < |t|
    ensures p <= s.pos < |t| && EndsList(t[s.pos].kind)
    decreases |t| - p, 4
  {
    if EndsList(t[p].kind) then From(p)
    else
      var s := Statement(t, p);
      if s.val.Some? then
        var r := StatementList(t, s.pos);
        Parsed([s.val.value] + r.val, r.pos, s.err || r.err)
      else
        var r := StatementList(t, Adv(t, s.pos));
        Parsed(r.val, r.pos, true)
  }

  // ===== single steps =====

  /** The keyword of a call statement. */
  function Keyword(kind: A.Kind): Tok {
    match kind
    case RegWriteStmt => WRITE
    case EmitStmt => EMIT
    case WaitStmt => WAIT
    case ArmStmt => ARM
    case CancelStmt => CANCEL
    case LogStmt => LOG
    case _ => EOF
  }

  lemma StatementOfCall(t: seq<Lexeme>, p: nat, kind: A.Kind)
    requires Terminated(t) && p < |t| && t[p].kind == Keyword(kind) && !Keyword(kind).EOF?
    ensures p + 1 < |t|
    ensures kind.RegWriteStmt? || kind.WaitStmt? || kind.ArmStmt? ==> Statement(t, p) == Some1(kind, TwoArgs(t, p + 1))
    ensures kind.EmitStmt? ==> Statement(t, p) == Some1(kind, EmitArgs(t, p + 1))
    ensures kind.CancelStmt? ==> Statement(t, p) == Some1(kind, CloseCall(t, OpenArg(t, p + 1)))
    ensures kind.LogStmt? ==> Statement(t, p) == Some1(kind, LogCall(t, p + 1))
  {
    hide TwoArgs, EmitArgs, CloseCall, OpenArg, LogCall, IfRest,
         ForRest, AssignRest, LetRest, ReturnRest;
  }

  lemma StatementOfLet(t: seq<Lexeme>, p: nat)
    requires Terminated(t) && p < |t| && t[p].kind == LET
    ensures p + 1 < |t| && Statement(t, p) == LetRest(t, p + 1)
  {
    hide TwoArgs, EmitArgs, CloseCall, OpenArg, LogCall, IfRest,
         ForRest, AssignRest, LetRest, ReturnRest;
  }

  lemma StatementOfReturn(t: seq<Lexeme>, p: nat)
    requires Terminated(t) && p < |t| && t[p].kind == RETURN
    ensures p + 1 < |t| && Statement(t, p) == Some1(A.ReturnStmt, ReturnRest(t, p + 1))
  {
    hide TwoArgs, EmitArgs, CloseCall, OpenArg, LogCall, IfRest,
         ForRest, AssignRest, LetRest, ReturnRest;
  }

  lemma StatementOfIf(t: seq<Lexeme>, p: nat)
    requires Terminated(t) && p < |t| && t[p].kind == IF
    ensures Statement(t, p) == Some1(A.IfStmt, IfRest(t, From(p)))
  {
    hide TwoArgs, EmitArgs, CloseCall, OpenArg, LogCall, IfRest,
         ForRest, AssignRest, LetRest, ReturnRest;
  }

  lemma StatementOfFor(t: seq<Lexeme>, p: nat)
    requires Terminated(t) && p < |t| && t[p].kind == FOR
    ensures p + 1 < |t| && Statement(t, p) == Some1(A.ForStmt, ForRest(t, p + 1))
  {
    hide TwoArgs, EmitArgs, CloseCall, OpenArg, LogCall, IfRest,
         ForRest, AssignRest, LetRest, ReturnRest;
  }

  lemma StatementOfAssign(t: seq<Lexeme>, p: nat)
    requires Terminated(t) && p < |t| && t[p].kind !in {LET, FOR, IF, WRITE, EMIT, WAIT, ARM, CANCEL, RETURN, LOG}
    ensures Statement(t, p) == AssignRest(t, p)
  {
    hide TwoArgs, EmitArgs, CloseCall, OpenArg, LogCall, IfRest,
         ForRest, AssignRest, LetRest, ReturnRest;
  }

  lemma LogArgsStep(t: seq<Lexeme>, p: nat)
    requires Terminated(t) && p < |t|
    ensures var x := Climb(t, p, 1);
            && (x.val.Null? ==> LogArgs(t, p) == Parsed([], x.pos, true))
            && (!x.val.Null? && !t[x.pos].kind.Comma? ==> LogArgs(t, p) == Parsed([A.E(x.val)], x.pos, x.err))
            && (!x.val.Null? && t[x.pos].kind.Comma? ==>
                  && x.pos + 1 < |t|
                  && var r := LogArgs(t, x.pos + 1);
                     LogArgs(t, p) == Parsed([A.E(x.val)] + r.val, r.pos, x.err || r.err))
  {
    hide ParseSpec.Climb;
  }

  lemma ArmStep(t: seq<Lexeme>, r: Parsed<seq<A.Node>>)
    requires Terminated(t) && r.pos < |t| && (t[r.pos].kind == IF || t[r.pos].kind == ELIF)
    ensures r.pos + 1 < |t|
    ensures Arm(t, r) == Block(t, Then(t, ThenExpr(t, Then(t, Parsed(r.val, r.pos + 1, r.err), LParen)), RParen), true)
  {
    hide Then, ThenExpr, Block, StatementList;
  }

  lemma IfRestStep(t: seq<Lexeme>, r: Parsed<seq<A.Node>>)
    requires Terminated(t) && r.pos < |t| && (t[r.pos].kind == IF || t[r.pos].kind == ELIF)
    ensures r.pos < Arm(t, r).pos < |t|
    ensures var arm := Arm(t, r);
            IfRest(t, r) == if t[arm.pos].kind == ELIF then IfRest(t, arm)
                            else if t[arm.pos].kind == ELSE then Block(t, Parsed(arm.val, arm.pos + 1, arm.err), true)
                            else arm
  {
    hide Then, ThenExpr, Arm, Block, StatementList;
  }
}
