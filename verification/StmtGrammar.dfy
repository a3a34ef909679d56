/** The statement parser accepts exactly the statement grammar, and its trees are the
    flattened statements. */
module StmtGrammar {
  import opened Wrappers
  import opened Tokens
  import opened ParseSpec
  import opened StmtSpec
  import opened Grammar
  import A = Ast

  // ----- concrete statements -----

  datatype Stm =
    | Let(name: string, typed: bool, init: Cst)
    | Call(kind: A.Kind, args: seq<Cst>)
    | Return(val: Option<Cst>)
    | Assign(lhs: Cst, rhs: Cst)
    | If(cond: Cst, body: seq<Stm>, rest: Tail)
    | For(v: string, lo: Cst, hi: Cst, loop: seq<Stm>)

  /** What follows the first arm of an if. */
  datatype Tail = Fi | Elif(cond: Cst, body: seq<Stm>, rest: Tail) | Else(body: seq<Stm>)

  predicate Arity(kind: A.Kind, n: nat) {
    match kind
    case RegWriteStmt | WaitStmt | ArmStmt => n == 2
    case EmitStmt => n == 1 || n == 2
    case CancelStmt => n == 1
    case LogStmt => n >= 1
    case _ => false
  }

  // ----- number of tokens -----

  function ArgsLen(args: seq<Cst>): nat {
    if args == [] then 0
    else |Yield(args[0])| + (if |args| > 1 then 1 + ArgsLen(args[1..]) else 0)
  }

  function Len(s: Stm): (n: nat)
    ensures n > 0
    decreases s, 0
  {
    match s
    case Let(_, typed, e) => (if typed then 5 else 3) + |Yield(e)| + 1
    case Call(_, args) => 2 + ArgsLen(args) + 2
    case Return(v) => 1 + (if v.Some? then |Yield(v.value)| else 0) + 1
    case Assign(l, r) => |Yield(l)| + 1 + |Yield(r)| + 1
    case If(c, b, rest) => ArmLen(c, b) + TailLen(rest)
    case For(_, lo, hi, b) => 3 + |Yield(lo)| + 1 + |Yield(hi)| + BlockLen(b)
  }

  function ArmLen(c: Cst, b: seq<Stm>): nat
    decreases b, 2
  {
    2 + |Yield(c)| + 1 + BlockLen(b)
  }

  function BlockLen(b: seq<Stm>): nat
    decreases b, 1
  {
    2 + ListLen(b)
  }

  function TailLen(r: Tail): nat
    decreases r, 0
  {
    match r
    case Fi => 0
    case Elif(c, b, rest) => ArmLen(c, b) + TailLen(rest)
    case Else(b) => 1 + BlockLen(b)
  }

  function ListLen(ss: seq<Stm>): nat
    decreases ss, 0
  {
    if ss == [] then 0 else Len(ss[0]) + ListLen(ss[1..])
  }

  // ----- how statements are spelled in a token array -----

  predicate Is(t: seq<Lexeme>, p: nat, k: Tok) {
    p < |t| && t[p].kind == k
  }

  /** The expression stands at `p` and the token after it cannot continue it. */
  ghost predicate SpellsExpr(c: Cst, t: seq<Lexeme>, p: nat) {
    && Proper(c) && Occurs(t, p, Yield(c)) && p + |Yield(c)| < |t|
    && Prec(t[p + |Yield(c)|].kind) == 0 && !t[p + |Yield(c)|].kind.Dot?
  }

  ghost predicate SpellsArgs(args: seq<Cst>, t: seq<Lexeme>, p: nat) {
    && args != [] && SpellsExpr(args[0], t, p)
    && (|args| > 1 ==> Is(t, p + |Yield(args[0])|, Comma) && SpellsArgs(args[1..], t, p + |Yield(args[0])| + 1))
  }

  ghost predicate Spells(s: Stm, t: seq<Lexeme>, p: nat)
    decreases s, 0
  {
    match s
    case Let(name, typed, e) =>
      var a := p + if typed then 4 else 2;
      && Is(t, p, LET) && Is(t, p + 1, Tok.Ident) && t[p+1].text == name
      && (typed ==> Is(t, p + 2, Colon))
      && Is(t, a, Eq) && SpellsExpr(e, t, a + 1) && Is(t, a + 1 + |Yield(e)|, Semicolon)
    case Call(kind, args) =>
      var q := p + 2 + ArgsLen(args);
      && Arity(kind, |args|) && Is(t, p, Keyword(kind)) && Is(t, p + 1, LParen)
      && SpellsArgs(args, t, p + 2) && Is(t, q, RParen) && Is(t, q + 1, Semicolon)
    case Return(v) =>
      && Is(t, p, RETURN)
      && if v.None? then Is(t, p + 1, Semicolon)
         else SpellsExpr(v.value, t, p + 1) && Is(t, p + 1 + |Yield(v.value)|, Semicolon)
    case Assign(l, r) =>
      var q := p + |Yield(l)|;
      && SpellsExpr(l, t, p) && Is(t, q, Eq)
      && SpellsExpr(r, t, q + 1) && Is(t, q + 1 + |Yield(r)|, Semicolon)
    case If(c, b, rest) => SpellsArm(IF, c, b, t, p) && SpellsTail(rest, t, p + ArmLen(c, b))
    case For(v, lo, hi, b) =>
      var q := p + 3 + |Yield(lo)|;
      && Is(t, p, FOR) && p + 1 < |t| && t[p+1].text == v && Is(t, p + 2, IN)
      && SpellsExpr(lo, t, p + 3) && Is(t, q, DotDot)
      && SpellsExpr(hi, t, q + 1) && SpellsBlock(b, t, q + 1 + |Yield(hi)|)
  }

  ghost predicate SpellsArm(kw: Tok, c: Cst, b: seq<Stm>, t: seq<Lexeme>, p: nat)
    decreases b, 2
  {
    && Is(t, p, kw) && Is(t, p + 1, LParen) && SpellsExpr(c, t, p + 2) && Is(t, p + 2 + |Yield(c)|, RParen)
    && SpellsBlock(b, t, p + 2 + |Yield(c)| + 1)
  }

  ghost predicate SpellsBlock(b: seq<Stm>, t: seq<Lexeme>, p: nat)
    decreases b, 1
  {
    Is(t, p, LBrace) && SpellsList(b, t, p + 1) && Is(t, p + 1 + ListLen(b), RBrace)
  }

  ghost predicate SpellsTail(r: Tail, t: seq<Lexeme>, p: nat)
    decreases r, 0
  {
    match r
    case Fi => p < |t| && t[p].kind != ELIF && t[p].kind != ELSE
    case Elif(c, b, rest) => SpellsArm(ELIF, c, b, t, p) && SpellsTail(rest, t, p + ArmLen(c, b))
    case Else(b) => Is(t, p, ELSE) && SpellsBlock(b, t, p + 1)
  }

  ghost predicate SpellsList(ss: seq<Stm>, t: seq<Lexeme>, p: nat)
    decreases ss, 0
  {
    ss == [] || (Spells(ss[0], t, p) && SpellsList(ss[1..], t, p + Len(ss[0])))
  }

  // ----- the trees: bodies are spliced into the child list -----

  ghost function Kids(args: seq<Cst>): seq<A.Node>
    requires forall c :: c in args ==> Proper(c)
  {
    if args == [] then [] else [A.E(Abstract(args[0]))] + Kids(args[1..])
  }

  /** All expressions inside are proper. */
  ghost predicate Good(s: Stm)
    decreases s, 0
  {
    match s
    case Let(_, _, e) => Proper(e)
    case Call(kind, args) => Arity(kind, |args|) && forall c :: c in args ==> Proper(c)
    case Return(v) => v.Some? ==> Proper(v.value)
    case Assign(l, r) => Proper(l) && Proper(r)
    case If(c, b, rest) => Proper(c) && GoodList(b) && GoodTail(rest)
    case For(_, lo, hi, b) => Proper(lo) && Proper(hi) && GoodList(b)
  }

  ghost predicate GoodTail(r: Tail)
    decreases r, 0
  {
    match r
    case Fi => true
    case Elif(c, b, rest) => Proper(c) && GoodList(b) && GoodTail(rest)
    case Else(b) => GoodList(b)
  }

  ghost predicate GoodList(ss: seq<Stm>)
    decreases ss, 0
  {
    ss == [] || (Good(ss[0]) && GoodList(ss[1..]))
  }

  ghost function Flatten(s: Stm): A.Node
    requires Good(s)
    decreases s, 0
  {
    match s
    case Let(name, _, e) => A.S(A.LetStmt, [A.E(A.Ident(name)), A.E(Abstract(e))])
    case Call(kind, args) => A.S(kind, Kids(args))
    case Return(v) => A.S(A.ReturnStmt, if v.Some? then [A.E(Abstract(v.value))] else [])
    case Assign(l, r) => A.S(A.AssignStmt, [A.E(Abstract(l)), A.E(Abstract(r))])
    case If(c, b, rest) => A.S(A.IfStmt, [A.E(Abstract(c))] + BodyOr(FlattenList(b)) + FlattenTail(rest))
    case For(v, lo, hi, b) =>
      A.S(A.ForStmt, [A.E(A.Ident(v)), A.E(Abstract(lo)), A.E(Abstract(hi))] + FlattenList(b))
  }

  ghost function FlattenTail(r: Tail): seq<A.Node>
    requires GoodTail(r)
    decreases r, 0
  {
    match r
    case Fi => []
    case Elif(c, b, rest) => [A.E(Abstract(c))] + BodyOr(FlattenList(b)) + FlattenTail(rest)
    case Else(b) => BodyOr(FlattenList(b))
  }

  ghost function FlattenList(ss: seq<Stm>): seq<A.Node>
    requires GoodList(ss)
    decreases ss, 0
  {
    if ss == [] then [] else [Flatten(ss[0])] + FlattenList(ss[1..])
  }
}
