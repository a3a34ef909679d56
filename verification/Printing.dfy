/** Printing a syntax tree with only the parentheses the grammar requires. */
module Printing {
  import opened Numerals
  import opened Tokens
  import opened ParseSpec
  import opened Grammar
  import opened LexSpec
  import A = Ast

  function OpKind(op: A.BinOp): (k: Tok)
    ensures BinOpOf(k) == op && 1 <= Prec(k)
  {
    match op
    case Add => Plus case Sub => Minus case Mul => Star case Div => Slash case Mod => Percent
    case Shl => Tok.Shl case Shr => Tok.Shr case And => Amp case Or => Pipe case Xor => Caret
    case Eq => EqEq case Neq => Tok.Neq case Lt => Tok.Lt case Le => Tok.Le
    case Gt => Tok.Gt case Ge => Tok.Ge case Land => AmpAmp case Lor => PipePipe
  }

  function UnKind(op: A.UnOp): (k: Tok)
    ensures IsUnary(k) && UnOpOf(k) == op
  {
    match op case Neg => Minus case Not => Bang case Inv => Tilde
  }

  /** emit_expr's operator spellings (op_str and uop_str). */
  function Spelling(op: A.BinOp): (s: string)
    ensures s != ""
  {
    match op
    case Add => "+" case Sub => "-" case Mul => "*" case Div => "/" case Mod => "%"
    case Shl => "<<" case Shr => ">>" case And => "&" case Or => "|" case Xor => "^"
    case Eq => "==" case Neq => "!=" case Lt => "<" case Le => "<="
    case Gt => ">" case Ge => ">=" case Land => "&&" case Lor => "||"
  }

  function UnSpelling(op: A.UnOp): string {
    match op case Neg => "-" case Not => "!" case Inv => "~"
  }

  function WordLexeme(name: string): Lexeme { Lexeme(Tok.Ident, name, 0) }
  function OpLexeme(op: A.BinOp): Lexeme { Lexeme(OpKind(op), Spelling(op), 0) }
  function UnLexeme(op: A.UnOp): Lexeme { Lexeme(UnKind(op), UnSpelling(op), 0) }
  const OPEN := Lexeme(LParen, "(", 0)
  const CLOSE := Lexeme(RParen, ")", 0)
  const DOT := Lexeme(Dot, ".", 0)

  function DottedLexemes(parts: seq<string>): seq<Lexeme>
    requires parts != []
  {
    if |parts| == 1 then [WordLexeme(parts[0])]
    else [WordLexeme(parts[0]), DOT] + DottedLexemes(parts[1..])
  }

  /** Trees whose literals are not negative: what the parser can return. */
  predicate Printable(e: A.Expr) {
    match e
    case IntLit(v) => v >= 0
    case Read(x) => Printable(x)
    case Un(_, x) => Printable(x)
    case Bin(_, l, r) => Printable(l) && Printable(r)
    case _ => true
  }

  /** Parenthesise only when the level asked for is higher. */
  function Fit(c: Cst, level: nat): Cst {
    if Level(c) >= level then c else Paren(OPEN, c, CLOSE)
  }

  function Print(e: A.Expr): (c: Cst)
    requires A.Complete(e) && Printable(e)
  {
    match e
    case IntLit(v) => Atom(Lexeme(Int, Decimal(v), v))
    case BoolLit(b) => Atom(Lexeme(if b then BoolTrue else BoolFalse, if b then "true" else "false", if b then 1 else 0))
    case StrLit(text) => Atom(Lexeme(Str, text, 0))
    case Ident(name) => Dotted([WordLexeme(name)])
    case Path(parts) => Dotted(DottedLexemes(parts))
    case Read(x) => ReadC(Lexeme(Kw("read"), "read", 0), OPEN, Print(x), CLOSE)
    case Un(op, x) => Prefix(UnLexeme(op), Fit(Print(x), 11))
    case Bin(op, l, r) =>
      var n := Prec(OpKind(op));
      Infix(OpLexeme(op), Fit(Print(l), n), Fit(Print(r), n + 1))
  }

  lemma {:induction false} DottedIsPath(parts: seq<string>)
    requires parts != []
    ensures var ts := DottedLexemes(parts);
            Alternates(ts) && |ts| == 2 * |parts| - 1 && Names(ts) == parts
  {
    if |parts| > 1 {
      DottedIsPath(parts[1..]);
      assert DottedLexemes(parts)[2..] == DottedLexemes(parts[1..]);
    }
  }

  lemma FitIsProper(c: Cst, level: nat)
    requires Proper(c) && level <= 11
    ensures var f := Fit(c, level);
            Proper(f) && Level(f) >= level && Abstract(f) == Abstract(c) && (level == 11 ==> !f.Infix?)
  {
    hide ParseSpec.Prec;
  }

  lemma {:induction false} PrintIsProper(e: A.Expr)
    requires A.Complete(e) && Printable(e)
    ensures Proper(Print(e)) && Abstract(Print(e)) == e
  {
    hide ParseSpec.Prec, ParseSpec.BinOpOf, OpKind, UnKind, Spelling, UnSpelling, Numerals.Decimal;
    match e
    case Path(parts) => DottedIsPath(parts);
    case Read(x) => PrintIsProper(x);
    case Un(_, x) => PrintIsProper(x); FitIsProper(Print(x), 11);
    case Bin(op, l, r) =>
      var n := Prec(OpKind(op));
      PrintIsProper(l);
      PrintIsProper(r);
      FitIsProper(Print(l), n);
      FitIsProper(Print(r), n + 1);
      InfixBuild(OpLexeme(op), Fit(Print(l), n), Fit(Print(r), n + 1));
    case _ =>
  }

  /** Every tree, printed with only the parentheses it needs and followed by neither an
      operator nor a dot, is parsed back to itself. */
  lemma PrintThenParse(e: A.Expr, t: seq<Lexeme>, p: nat)
    requires A.Complete(e) && Printable(e) && Terminated(t)
    requires var n := |Yield(Print(e))|;
             && Occurs(t, p, Yield(Print(e))) && p + n < |t|
             && Prec(t[p + n].kind) == 0 && !t[p + n].kind.Dot?
    ensures Climb(t, p, 1) == Parsed(e, p + |Yield(Print(e))|, false)
  {
    PrintIsProper(e);
    ClimbComplete(Print(e), t, p, 1);
  }

  /** The binary operators by level, from `||` to `*`: sections 6.5.14 down to 6.5.5 of
      ISO/IEC 9899:1999. */
  const C_LEVELS: seq<seq<string>> := [
    ["||"], ["&&"], ["|"], ["^"], ["&"], ["==", "!="], ["<", "<=", ">", ">="], ["<<", ">>"], ["+", "-"], ["*", "/", "%"]]

  /** Operators bind as the same operators bind in C, the language they are emitted to. */
  lemma PrecedenceIsThatOfC(op: A.BinOp)
    ensures var n := Prec(OpKind(op)); 1 <= n <= |C_LEVELS| && Spelling(op) in C_LEVELS[n-1]
  {
  }

  /** No proper text of the tree is shorter: none of the parentheses can be spared. */
  lemma {:induction false} PrintIsShortest(d: Cst, level: nat)
    requires Proper(d) && Printable(Abstract(d)) && Level(d) >= level
    ensures A.Complete(Abstract(d))
    ensures |Yield(d)| >= |Yield(Fit(Print(Abstract(d)), level))|
  {
    hide ParseSpec.Prec, ParseSpec.BinOpOf, OpKind, UnKind, Spelling, UnSpelling, Numerals.Decimal;
    YieldIsPrintable(d);
    match d
    case Atom(_) =>
    case Dotted(ts) => NamesLength(ts);
    case ReadC(_, _, x, _) => PrintIsShortest(x, 1);
    case Paren(_, x, _) =>
      PrintIsShortest(x, 1);
    case Prefix(op, x) =>
      PrintIsShortest(x, 11);
      assert |Yield(Print(Abstract(d)))| == 1 + |Yield(Fit(Print(Abstract(x)), 11))|;
    case Infix(op, l, r) =>
      SamePrecedence(op.kind);
      assert Level(Print(Abstract(d))) == Level(d);
      PrintIsShortest(l, Prec(op.kind));
      PrintIsShortest(r, Prec(op.kind) + 1);
  }

  lemma SamePrecedence(k: Tok)
    requires 1 <= Prec(k)
    ensures OpKind(BinOpOf(k)) == k
  {
  }

  lemma {:induction false} NamesLength(ts: seq<Lexeme>)
    requires Alternates(ts)
    ensures |ts| == 2 * |Names(ts)| - 1
    ensures |DottedLexemes(Names(ts))| == |ts|
  {
    DottedIsPath(Names(ts));
    if |ts| > 1 {
      NamesLength(ts[2..]);
    }
  }
}
