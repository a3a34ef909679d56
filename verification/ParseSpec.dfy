/** What the expression parser computes (compiler/parser.c), as functions from a
    position of the token array to a tree, the next position and an error flag. */
module ParseSpec {
  import opened Tokens
  import A = Ast

  /** A token array whose only EOF is its last element. */
  ghost predicate Terminated(t: seq<Lexeme>) {
    t != [] && forall i :: 0 <= i < |t| ==> (t[i].kind.EOF? <==> i == |t| - 1)
  }

  /** Result of a parse function: value, next position, and whether it reported. */
  datatype Parsed<T> = Parsed(val: T, pos: nat, err: bool)

  /** p_advance: the last token is never passed. */
  function Adv(t: seq<Lexeme>, p: nat): (q: nat)
    requires p < |t|
    ensures p <= q < |t|
  {
    if p < |t| - 1 then p + 1 else p
  }

  /** p_expect: skip a token of kind `k`, or report and stay. */
  function Expect(t: seq<Lexeme>, p: nat, k: Tok): (r: Parsed<()>)
    requires p < |t|
    ensures p <= r.pos < |t|
    ensures !r.err <==> t[p].kind == k
  {
    if t[p].kind == k then Parsed((), Adv(t, p), false) else Parsed((), p, true)
  }

  function Prec(k: Tok): (n: nat)
    ensures n <= 10 && (k.EOF? || k.Dot? || k.RParen? ==> n == 0)
  {
    match k
    case PipePipe => 1
    case AmpAmp => 2
    case Pipe => 3
    case Caret => 4
    case Amp => 5
    case EqEq | Neq => 6
    case Lt | Le | Gt | Ge => 7
    case Shl | Shr => 8
    case Plus | Minus => 9
    case Star | Slash | Percent => 10
    case _ => 0
  }

  function BinOpOf(k: Tok): A.BinOp {
    match k
    case Plus => A.Add case Minus => A.Sub case Star => A.Mul case Slash => A.Div
    case Percent => A.Mod case Shl => A.Shl case Shr => A.Shr case Amp => A.And
    case Pipe => A.Or case Caret => A.Xor case EqEq => A.Eq case Neq => A.Neq
    case Lt => A.Lt case Le => A.Le case Gt => A.Gt case Ge => A.Ge
    case AmpAmp => A.Land case PipePipe => A.Lor
    case _ => A.Add
  }

  predicate IsUnary(k: Tok) { k.Minus? || k.Bang? || k.Tilde? }

  function UnOpOf(k: Tok): A.UnOp
    requires IsUnary(k)
  {
    if k.Minus? then A.Neg else if k.Bang? then A.Not else A.Inv
  }

  const READ := Kw("read")

  /** The further components of a path of which `n` have been read. */
  function PathTail(t: seq<Lexeme>, p: nat, n: nat): (r: Parsed<seq<string>>)
    requires Terminated(t) && p < |t|
    ensures p <= r.pos < |t| && |r.val| <= (if n < 4 then 4 - n else 0)
    decreases |t| - p
  {
    if t[p].kind.Dot? && t[p+1].kind.Ident? && n < 4 then
      var r := PathTail(t, p + 2, n + 1);
      Parsed([t[p+1].text] + r.val, r.pos, false)
    else Parsed([], p, false)
  }

  function PathOf(names: seq<string>): A.Expr
    requires names != []
  {
    if |names| > 1 then A.Path(names) else A.Ident(names[0])
  }

  function Primary(t: seq<Lexeme>, p: nat): (r: Parsed<A.Expr>)
    requires Terminated(t) && p < |t|
    ensures p <= r.pos < |t|
    ensures !r.val.Null? ==> p < r.pos
    ensures r.val.Null? ==> r.err
    ensures !r.err ==> A.Complete(r.val)
    decreases |t| - p, 0
  {
    var k := t[p].kind;
    if k.Int? || k.Hex? || k.BinLit? then Parsed(A.IntLit(t[p].ival), p + 1, false)
    else if k.BoolTrue? || k.BoolFalse? then Parsed(A.BoolLit(t[p].ival != 0), p + 1, false)
    else if k.Str? then Parsed(A.StrLit(t[p].text), p + 1, false)
    else if k == READ then
      var o := Expect(t, p + 1, LParen);
      var x := Climb(t, o.pos, 1);
      var c := Expect(t, x.pos, RParen);
      Parsed(A.Read(x.val), c.pos, o.err || x.err || c.err)
    else if k.Ident? then
      var r := PathTail(t, p + 1, 1);
      Parsed(PathOf([t[p].text] + r.val), r.pos, false)
    else if k.LParen? then
      var x := Climb(t, p + 1, 1);
      var c := Expect(t, x.pos, RParen);
      Parsed(x.val, c.pos, x.err || c.err)
    else if IsUnary(k) then
      var x := Primary(t, p + 1);
      Parsed(A.Un(UnOpOf(k), x.val), x.pos, x.err)
    else Parsed(A.Null, Adv(t, p), true)
  }

  /** parse_expr_prec. */
  function Climb(t: seq<Lexeme>, p: nat, min: nat): (r: Parsed<A.Expr>)
    requires Terminated(t) && p < |t| && min >= 1
    ensures p <= r.pos < |t|
    ensures !r.val.Null? ==> p < r.pos
    ensures r.val.Null? ==> r.err
    ensures !r.err ==> A.Complete(r.val)
    decreases |t| - p, 2
  {
    var l := Primary(t, p);
    if l.val.Null? then l else Operators(t, l.pos, min, l.val, l.err)
  }

  /** The loop of parse_expr_prec, entered at `p` with a left operand. */
  function Operators(t: seq<Lexeme>, p: nat, min: nat, lhs: A.Expr, err: bool): (r: Parsed<A.Expr>)
    requires Terminated(t) && p < |t| && min >= 1 && !lhs.Null?
    ensures p <= r.pos < |t|
    ensures !r.val.Null?
    ensures !r.err ==> !err && (A.Complete(lhs) ==> A.Complete(r.val))
    decreases |t| - p, 1
  {
    var prec := Prec(t[p].kind);
    if prec < min then Parsed(lhs, p, err)
    else
      var r := Climb(t, p + 1, prec + 1);
      if r.val.Null? then Parsed(lhs, r.pos, true)
      else Operators(t, r.pos, min, A.Bin(BinOpOf(t[p].kind), lhs, r.val), err || r.err)
  }
}
