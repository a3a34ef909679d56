/** The expression emitter (compiler/codegen.c, `emit_expr`) and the round trip
    emitter - lexer - parser. */
module Codegen {
  import opened Numerals
  import opened Tokens
  import opened LexSpec
  import opened LexProofs
  import opened ParseSpec
  import opened Grammar
  import opened Printing
  import opened Seqs
  import A = Ast

  /** printf "%lld". */
  function Signed(v: int): string {
    if v >= 0 then Decimal(v) else "-" + Decimal(-v)
  }

  function Fields(parts: seq<string>): string {
    if parts == [] then "" else "." + parts[0] + Fields(parts[1..])
  }

  /** The text emit_expr writes. A bool shares its storage with the integer that is
      printed (the node is zeroed and the host is little-endian). */
  function Emit(e: A.Expr): string {
    match e
    case Null => "0"
    case IntLit(v) => Signed(v)
    case BoolLit(b) => Signed(if b then 1 else 0)
    case StrLit(text) => text
    case Ident(name) => name
    case Path(parts) => "ctx->regs" + if parts == [] then "" else Fields(parts[1..])
    case Read(x) => "kdal_reg_read(&ctx->kdal, " + Emit(x) + ")"
    case Bin(op, l, r) => "(" + (Emit(l) + (" " + Spelling(op) + " " + (Emit(r) + ")")))
    case Un(op, x) => UnSpelling(op) + ("(" + (Emit(x) + ")"))
  }

  class Writer {
    var out: string

    constructor ()
      ensures out == ""
    {
      out := "";
    }

    method Put(s: string)
      modifies this
      ensures out == old(out) + s
    {
      out := out + s;
    }

    method EmitPath(parts: seq<string>)
      modifies this
      ensures out == old(out) + Emit(A.Path(parts))
    {
      Put("ctx->regs");
      ghost var base, done := out, "";
      var i := 1;
      while i < |parts|
        invariant 1 <= i && (i <= |parts| || parts == [])
        invariant out == base + done
        invariant parts != [] ==> Fields(parts[1..]) == done + Fields(parts[i..])
        invariant parts == [] ==> done == ""
      {
        DropDrop(parts, i, 1);
        Put("." + parts[i]);
        done := done + ("." + parts[i]);
        i := i + 1;
      }
      assert parts != [] ==> parts[i..] == [] && Fields(parts[1..]) == done;
    }

    method EmitExpr(e: A.Expr)
      modifies this
      ensures out == old(out) + Emit(e)
      decreases e, 1
    {
      hide Printing.Spelling, Printing.UnSpelling, Numerals.Decimal;
      match e
      case Null => Put("0");
      case IntLit(v) => Put(Signed(v));
      case BoolLit(b) => Put(Signed(if b then 1 else 0));
      case StrLit(text) => Put(text);
      case Ident(name) => Put(name);
      case Path(parts) => EmitPath(parts);
      case Read(x) => EmitWrapped("kdal_reg_read(&ctx->kdal, ", x);
      case Bin(op, l, r) => EmitBinary(op, l, r);
      case Un(op, x) =>
        EmitWrapped(UnSpelling(op) + "(", x);
        assert (UnSpelling(op) + "(") + Emit(x) + ")" == Emit(e);
    }

    method EmitWrapped(prefix: string, x: A.Expr)
      modifies this
      ensures out == old(out) + (prefix + Emit(x) + ")")
      decreases x, 2
    {
      Put(prefix);
      EmitExpr(x);
      Put(")");
    }

    method EmitBinary(op: A.BinOp, l: A.Expr, r: A.Expr)
      modifies this
      ensures out == old(out) + Emit(A.Bin(op, l, r))
      decreases A.Bin(op, l, r), 0
    {
      hide Printing.Spelling, Emit;
      Put("(");
      EmitExpr(l);
      Put(" " + Spelling(op) + " ");
      EmitExpr(r);
      Put(")");
      Append5(old(out), "(", Emit(l), " " + Spelling(op) + " ", Emit(r), ")");
      EmitBin(op, l, r);
    }
  }

  lemma EmitBin(op: A.BinOp, l: A.Expr, r: A.Expr)
    ensures Emit(A.Bin(op, l, r)) == "(" + (Emit(l) + (" " + Spelling(op) + " " + (Emit(r) + ")")))
  {
  }

  /** Identifiers of the language that are no keywords. */
  predicate IsName(w: string) {
    && w != "" && IsIdentStart(w[0])
    && (forall i :: 0 <= i < |w| ==> In(w[i], IdentChar))
    && Classify(w) == Tok.Ident
  }

  /** Trees of 63-bit literals, bools, names and operators. */
  predicate Plain(e: A.Expr) {
    match e
    case IntLit(v) => 0 <= v <= LLONG_MAX
    case BoolLit(_) => true
    case Ident(name) => IsName(name)
    case Un(_, x) => Plain(x)
    case Bin(_, l, r) => Plain(l) && Plain(r)
    case _ => false
  }

  /** Bools become the integers 0 and 1. */
  function Normal(e: A.Expr): A.Expr {
    match e
    case BoolLit(b) => A.IntLit(if b then 1 else 0)
    case Un(op, x) => A.Un(op, Normal(x))
    case Bin(op, l, r) => A.Bin(op, Normal(l), Normal(r))
    case _ => e
  }

  function IntLexeme(v: nat): Lexeme { Lexeme(Int, Decimal(v), v) }

  /** The fully parenthesised concrete tree of the emitted text. */
  function Full(e: A.Expr): Cst
    requires Plain(e)
  {
    match e
    case IntLit(v) => Atom(IntLexeme(v))
    case BoolLit(b) => Atom(IntLexeme(if b then 1 else 0))
    case Ident(name) => Dotted([WordLexeme(name)])
    case Un(op, x) => Prefix(UnLexeme(op), Paren(OPEN, Full(x), CLOSE))
    case Bin(op, l, r) => Paren(OPEN, Infix(OpLexeme(op), Full(l), Full(r)), CLOSE)
  }

  lemma {:induction false} FullIsProper(e: A.Expr)
    requires Plain(e)
    ensures Proper(Full(e)) && Level(Full(e)) == 11 && Abstract(Full(e)) == Normal(e)
  {
    hide ParseSpec.Prec, ParseSpec.BinOpOf, Printing.OpKind;
    match e
    case Un(_, x) => FullIsProper(x);
    case Bin(op, l, r) =>
      FullIsProper(l);
      FullIsProper(r);
      InfixBuild(OpLexeme(op), Full(l), Full(r));
    case _ =>
  }

  // ----- lexing the emitted text -----

  lemma DecimalLexes(v: nat, rest: string)
    requires v <= LLONG_MAX && (rest == "" || !In(rest[0], IdentChar))
    ensures Next(Decimal(v) + rest) == Found(IntLexeme(v))
  {
    hide LexSpec.Next, Numerals.Decimal, LexSpec.Span, Numerals.DigitsValue;
    var w := Decimal(v);
    var s := w + rest;
    SpanIs(w, rest, Digit);
    DecimalValue(v);
    assert s[..|w|] == w;
    assert s[0] == w[0] && w[0] in w;
    if |s| > 1 {
      assert if |w| > 1 then s[1] == w[1] && w[1] in w else s[1] == rest[0];
    }
    assert NumberLexeme(s) == IntLexeme(v);
    NextOfDigit(s);
  }

  lemma NextOfDigit(s: string)
    requires s != "" && IsDigit(s[0])
    ensures Next(s) == Found(NumberLexeme(s))
  {
    hide LexSpec.NumberLexeme, LexSpec.Span, LexSpec.CommentRest, LexSpec.StringRest, LexSpec.Two, LexSpec.One;
    var c := s[0];
    assert !IsSpace(c) && c != '/' && !IsIdentStart(c);
  }

  lemma NextOfWord(s: string)
    requires s != "" && IsIdentStart(s[0])
    ensures Next(s) == Found(IdentLexeme(s[..Span(s, IdentChar)]))
  {
    hide LexSpec.IdentLexeme, LexSpec.Span, LexSpec.CommentRest, LexSpec.StringRest, LexSpec.Two, LexSpec.One;
  }

  lemma NextOfPunctuation(s: string, k: Tok, n: nat)
    requires 1 <= n <= |s| && n <= 2 && !k.EOF?
    requires n == 2 ==> Two(s[0], s[1]) == k
    requires n == 1 ==> One(s[0]) == k && |s| > 1 && Two(s[0], s[1]).EOF? && s[1] != '/' && s[1] != '*'
    requires !IsSpace(s[0]) && !IsIdentStart(s[0]) && !IsDigit(s[0]) && s[0] != '"'
    ensures Next(s) == Found(Lexeme(k, s[..n], 0))
  {
    hide LexSpec.NumberLexeme, LexSpec.Span, LexSpec.One;
  }

  lemma NameLexes(w: string, rest: string)
    requires IsName(w) && (rest == "" || !In(rest[0], IdentChar))
    ensures Next(w + rest) == Found(WordLexeme(w))
  {
    hide LexSpec.Next, Tokens.Classify;
    SpanIs(w, rest, IdentChar);
    assert (w + rest)[..|w|] == w && (w + rest)[0] == w[0];
    NextOfWord(w + rest);
  }

  lemma OperatorShape(op: A.BinOp)
    ensures var w, k := Spelling(op), OpKind(op);
            && 1 <= |w| <= 2 && !k.EOF?
            && (if |w| == 2 then Two(w[0], w[1]) == k else One(w[0]) == k && Two(w[0], ' ').EOF?)
            && !IsSpace(w[0]) && !IsIdentStart(w[0]) && !IsDigit(w[0]) && w[0] != '"'
  {
    hide ParseSpec.Prec, ParseSpec.BinOpOf;
  }

  lemma OperatorLexes(op: A.BinOp, rest: string)
    ensures Next(Spelling(op) + (" " + rest)) == Found(OpLexeme(op))
  {
    hide LexSpec.Next, Printing.Spelling, Printing.OpKind, LexSpec.Two, LexSpec.One;
    OperatorShape(op);
    var w := Spelling(op);
    var s := w + (" " + rest);
    assert s[..|w|] == w && s[0] == w[0] && s[1] == if |w| > 1 then w[1] else ' ';
    NextOfPunctuation(s, OpKind(op), |w|);
  }

  lemma BracketLexes(rest: string)
    ensures Next("(" + rest) == Found(OPEN) && Next(")" + rest) == Found(CLOSE)
  {
    assert ("(" + rest)[..1] == "(" && (")" + rest)[..1] == ")";
  }

  lemma UnaryLexes(op: A.UnOp, rest: string)
    ensures Next(UnSpelling(op) + ("(" + rest)) == Found(UnLexeme(op))
  {
    hide LexSpec.Span, LexSpec.NumberLexeme, LexSpec.CommentRest, LexSpec.StringRest;
    var w := UnSpelling(op);
    var s := w + ("(" + rest);
    assert s[..1] == w && s[1] == '(';
  }

  /** Lexing `s` gives `toks` and goes on with `rest`. */
  ghost predicate LexesTo(s: string, toks: seq<Lexeme>, rest: string) {
    Lexemes(s).toks == toks + Lexemes(rest).toks && Lexemes(s).err == Lexemes(rest).err
  }

  lemma LexThen(s: string, a: seq<Lexeme>, mid: string, b: seq<Lexeme>, rest: string)
    requires LexesTo(s, a, mid) && LexesTo(mid, b, rest)
    ensures LexesTo(s, a + b, rest)
  {
    hide LexSpec.Lexemes;
  }

  lemma LexOne(w: string, rest: string, l: Lexeme)
    requires w != "" && l.text == w && Next(w + rest) == Found(l)
    ensures LexesTo(w + rest, [l], rest)
  {
    hide LexSpec.Next;
    assert (w + rest)[|w|..] == rest;
  }

  lemma LexSpace(rest: string)
    ensures LexesTo(" " + rest, [], rest)
  {
    assert Next(" " + rest) == Skip(1, false);
    assert (" " + rest)[1..] == rest;
  }

  /** The lexemes of the emitted text are the tokens of the fully parenthesised tree,
      whatever text follows that does not extend its last word. */
  lemma {:induction false} EmitLexes(e: A.Expr, rest: string)
    requires Plain(e) && (rest == "" || !In(rest[0], IdentChar))
    ensures LexesTo(Emit(e) + rest, Yield(Full(e)), rest)
    decreases e, 1
  {
    hide LexesTo, LexSpec.Next, LexSpec.Lexemes, Numerals.Decimal;
    match e
    case IntLit(v) =>
      DecimalLexes(v, rest);
      LexOne(Decimal(v), rest, IntLexeme(v));
    case BoolLit(b) =>
      var v := if b then 1 else 0;
      DecimalLexes(v, rest);
      LexOne(Decimal(v), rest, IntLexeme(v));
    case Ident(name) =>
      NameLexes(name, rest);
      LexOne(name, rest, WordLexeme(name));
    case Un(op, x) =>
      UnaryEmitLexes(op, x, rest);
    case Bin(op, l, r) =>
      BinaryEmitLexes(op, l, r, rest);
  }

  lemma UnaryEmitShape(op: A.UnOp, x: A.Expr, rest: string)
    ensures Emit(A.Un(op, x)) + rest == UnSpelling(op) + ("(" + (Emit(x) + (")" + rest)))
  {
    hide Printing.UnSpelling;
    var a := Emit(x) + ")";
    assert a + rest == Emit(x) + (")" + rest);
    assert ("(" + a) + rest == "(" + (a + rest);
    assert (UnSpelling(op) + ("(" + a)) + rest == UnSpelling(op) + (("(" + a) + rest);
  }

  lemma UnaryYieldShape(op: A.UnOp, x: A.Expr)
    requires Plain(x)
    ensures Yield(Full(A.Un(op, x))) == [UnLexeme(op)] + ([OPEN] + (Yield(Full(x)) + [CLOSE]))
  {
    hide Printing.UnSpelling, Printing.UnKind;
    var y := Yield(Full(x));
    assert Yield(Paren(OPEN, Full(x), CLOSE)) == [OPEN] + y + [CLOSE] == [OPEN] + (y + [CLOSE]);
  }

  lemma {:induction false} UnaryEmitLexes(op: A.UnOp, x: A.Expr, rest: string)
    requires Plain(x) && (rest == "" || !In(rest[0], IdentChar))
    ensures LexesTo(Emit(A.Un(op, x)) + rest, Yield(Full(A.Un(op, x))), rest)
    decreases A.Un(op, x), 0
  {
    hide Plain, IsName, LexesTo, LexSpec.Next, LexSpec.Lexemes, Printing.UnSpelling, Printing.UnKind, Emit, Full, Grammar.Yield;
    UnaryEmitShape(op, x, rest);
    UnaryYieldShape(op, x);
    var s1 := ")" + rest;
    var s2 := Emit(x) + s1;
    BracketLexes(rest);
    LexOne(")", rest, CLOSE);
    EmitLexes(x, s1);
    LexThen(s2, Yield(Full(x)), s1, [CLOSE], rest);
    BracketLexes(s2);
    LexOne("(", s2, OPEN);
    LexThen("(" + s2, [OPEN], s2, Yield(Full(x)) + [CLOSE], rest);
    UnaryLexes(op, s2);
    LexOne(UnSpelling(op), "(" + s2, UnLexeme(op));
    LexThen(UnSpelling(op) + ("(" + s2), [UnLexeme(op)], "(" + s2, [OPEN] + (Yield(Full(x)) + [CLOSE]), rest);
  }

  lemma BinaryEmitShape(op: A.BinOp, l: A.Expr, r: A.Expr, rest: string)
    ensures Emit(A.Bin(op, l, r)) + rest
         == "(" + (Emit(l) + (" " + (Spelling(op) + (" " + (Emit(r) + (")" + rest))))))
  {
    hide Printing.Spelling;
    var w := Spelling(op);
    var a := Emit(r) + ")";
    assert a + rest == Emit(r) + (")" + rest);
    var b := " " + w + " " + a;
    assert b + rest == " " + (w + (" " + (a + rest)));
    var c := Emit(l) + b;
    assert c + rest == Emit(l) + (b + rest);
    assert ("(" + c) + rest == "(" + (c + rest);
  }

  lemma Reassociate<T>(a: seq<T>, b: seq<T>, c: seq<T>, pre: seq<T>, post: seq<T>)
    ensures pre + (a + b + c) + post == pre + (a + (b + (c + post)))
  {
  }

  lemma BinaryYieldShape(op: A.BinOp, l: A.Expr, r: A.Expr)
    requires Plain(l) && Plain(r)
    ensures Yield(Full(A.Bin(op, l, r)))
         == [OPEN] + (Yield(Full(l)) + ([OpLexeme(op)] + (Yield(Full(r)) + [CLOSE])))
  {
    hide Printing.Spelling, Printing.OpKind;
    var fl, fr, o := Full(l), Full(r), [OpLexeme(op)];
    var y := Yield(Infix(OpLexeme(op), fl, fr));
    assert Full(A.Bin(op, l, r)) == Paren(OPEN, Infix(OpLexeme(op), fl, fr), CLOSE);
    assert Yield(Full(A.Bin(op, l, r))) == [OPEN] + y + [CLOSE];
    Reassociate(Yield(fl), o, Yield(fr), [OPEN], [CLOSE]);
  }

  lemma {:induction false} BinaryEmitLexes(op: A.BinOp, l: A.Expr, r: A.Expr, rest: string)
    requires Plain(l) && Plain(r) && (rest == "" || !In(rest[0], IdentChar))
    ensures LexesTo(Emit(A.Bin(op, l, r)) + rest, Yield(Full(A.Bin(op, l, r))), rest)
    decreases A.Bin(op, l, r), 0
  {
    hide Plain, IsName, LexesTo, LexSpec.Next, LexSpec.Lexemes, Printing.Spelling, Printing.OpKind, Emit, Full, Grammar.Yield;
    BinaryEmitShape(op, l, r, rest);
    BinaryYieldShape(op, l, r);
    var yl, yr := Yield(Full(l)), Yield(Full(r));
    var s1 := ")" + rest;
    var s2 := Emit(r) + s1;
    var s3 := " " + s2;
    var s4 := Spelling(op) + s3;
    var s5 := " " + s4;
    var s6 := Emit(l) + s5;
    BracketLexes(rest);
    LexOne(")", rest, CLOSE);
    EmitLexes(r, s1);
    LexThen(s2, yr, s1, [CLOSE], rest);
    LexSpace(s2);
    LexThen(s3, [], s2, yr + [CLOSE], rest);
    OperatorLexes(op, s2);
    LexOne(Spelling(op), s3, OpLexeme(op));
    assert [] + (yr + [CLOSE]) == yr + [CLOSE];
    LexThen(s4, [OpLexeme(op)], s3, yr + [CLOSE], rest);
    var right := [OpLexeme(op)] + (yr + [CLOSE]);
    LexSpace(s4);
    LexThen(s5, [], s4, right, rest);
    assert [] + right == right;
    EmitLexes(l, s5);
    LexThen(s6, yl, s5, right, rest);
    BracketLexes(s6);
    LexOne("(", s6, OPEN);
    LexThen("(" + s6, [OPEN], s6, yl + right, rest);
  }

  /** The emitted text of a plain tree lexes without a diagnostic and parses, up to its
      end of text, to the same tree with bools turned into 0 and 1. */
  lemma {:induction false} EmitLexParse(e: A.Expr)
    requires Plain(e)
    ensures var lx := Lexemes(Emit(e));
            && !lx.err && Terminated(lx.toks)
            && Climb(lx.toks, 0, 1) == Parsed(Normal(e), |lx.toks| - 1, false)
  {
    hide LexSpec.Next, ParseSpec.Climb;
    var y := Yield(Full(e));
    assert Emit(e) + "" == Emit(e);
    EmitLexes(e, "");
    assert Lexemes("") == Lexed([EOF_LEXEME], false);
    var t := Lexemes(Emit(e)).toks;
    assert t == y + [EOF_LEXEME];
    FullIsProper(e);
    YieldIsPrintable(Full(e));
    ClimbComplete(Full(e), t, 0, 1);
  }

  // ----- paths and reads, which have no counterpart in the language -----

  predicate AllNames(names: seq<string>) {
    forall i :: 0 <= i < |names| ==> IsName(names[i])
  }

  const ARROW := Lexeme(Arrow, "->", 0)
  const COMMA := Lexeme(Comma, ",", 0)
  const AMPERSAND := Lexeme(Amp, "&", 0)

  /** `.name` for each name. */
  function FieldTokens(names: seq<string>): seq<Lexeme> {
    if names == [] then [] else [DOT, WordLexeme(names[0])] + FieldTokens(names[1..])
  }

  /** A member access `ctx->regs.REG.member`: the components behind the first, in order. */
  function PathTokens(parts: seq<string>): seq<Lexeme>
    requires parts != []
  {
    [WordLexeme("ctx"), ARROW, WordLexeme("regs")] + FieldTokens(parts[1..])
  }

  lemma CtxIsName()
    ensures IsName("ctx")
  {
  }

  lemma RegsIsName()
    ensures IsName("regs")
  {
  }

  lemma KdalIsName()
    ensures IsName("kdal")
  {
  }

  lemma KdalRegReadIsName()
    ensures IsName("kdal_reg_read")
  {
  }

  lemma DotLexes(name: string, rest: string)
    requires IsName(name)
    ensures Next("." + (name + rest)) == Found(DOT)
  {
    hide LexSpec.Span, LexSpec.NumberLexeme, LexSpec.CommentRest, LexSpec.StringRest;
    assert ("." + (name + rest))[..1] == ".";
  }

  lemma {:induction false} FieldsLex(names: seq<string>, rest: string)
    requires AllNames(names) && (rest == "" || !In(rest[0], IdentChar))
    ensures LexesTo(Fields(names) + rest, FieldTokens(names), rest)
    decreases names
  {
    hide LexesTo, LexSpec.Next, LexSpec.Lexemes, IsName;
    if names == [] {
      assert Fields(names) + rest == rest;
      LexNothing(rest);
    } else {
      var more := Fields(names[1..]) + rest;
      assert Fields(names) + rest == "." + (names[0] + more);
      FieldsLex(names[1..], rest);
      FieldsBegin(names[1..], rest);
      NameLexes(names[0], more);
      NameIsText(names[0]);
      LexOne(names[0], more, WordLexeme(names[0]));
      LexThen(names[0] + more, [WordLexeme(names[0])], more, FieldTokens(names[1..]), rest);
      DotLexes(names[0], more);
      LexOne(".", names[0] + more, DOT);
      LexThen("." + (names[0] + more), [DOT], names[0] + more, [WordLexeme(names[0])] + FieldTokens(names[1..]), rest);
      assert FieldTokens(names) == [DOT] + ([WordLexeme(names[0])] + FieldTokens(names[1..]));
    }
  }

  lemma NameIsText(name: string)
    requires IsName(name)
    ensures name != ""
  {
  }

  lemma LexNothing(rest: string)
    ensures LexesTo(rest, [], rest)
  {
  }

  lemma FieldsBegin(names: seq<string>, rest: string)
    requires rest == "" || !In(rest[0], IdentChar)
    ensures var s := Fields(names) + rest; s == "" || !In(s[0], IdentChar)
  {
  }

  lemma ArrowLexes(rest: string)
    ensures Next("->" + rest) == Found(ARROW) && Next("&" + ("ctx" + rest)) == Found(AMPERSAND)
    ensures Next(", " + rest) == Found(COMMA)
  {
    hide LexSpec.Span, LexSpec.NumberLexeme, LexSpec.CommentRest, LexSpec.StringRest;
    assert ("->" + rest)[..2] == "->" && ("&" + ("ctx" + rest))[..1] == "&" && (", " + rest)[..1] == ",";
  }

  lemma PathText(parts: seq<string>, rest: string)
    requires parts != []
    ensures Emit(A.Path(parts)) + rest == "ctx" + ("->" + ("regs" + (Fields(parts[1..]) + rest)))
  {
    hide Fields;
    var fields := Fields(parts[1..]);
    assert "ctx->regs" == "ctx" + ("->" + "regs");
    assert ("ctx" + ("->" + "regs")) + fields + rest == "ctx" + ("->" + ("regs" + (fields + rest)));
  }

  /** The emitted text of a path is that member access. */
  lemma EmitPathLexes(parts: seq<string>, rest: string)
    requires parts != [] && AllNames(parts) && (rest == "" || !In(rest[0], IdentChar))
    ensures LexesTo(Emit(A.Path(parts)) + rest, PathTokens(parts), rest)
  {
    hide LexesTo, LexSpec.Next, LexSpec.Lexemes, IsName, Fields, FieldTokens, Emit;
    var fields := Fields(parts[1..]) + rest;
    PathText(parts, rest);
    FieldsLex(parts[1..], rest);
    FieldsBegin(parts[1..], rest);
    RegsIsName();
    NameLexes("regs", fields);
    LexOne("regs", fields, WordLexeme("regs"));
    LexThen("regs" + fields, [WordLexeme("regs")], fields, FieldTokens(parts[1..]), rest);
    ArrowLexes("regs" + fields);
    LexOne("->", "regs" + fields, ARROW);
    var more := [WordLexeme("regs")] + FieldTokens(parts[1..]);
    LexThen("->" + ("regs" + fields), [ARROW], "regs" + fields, more, rest);
    ContextLexes("->" + ("regs" + fields), [ARROW] + more, rest);
    assert PathTokens(parts) == [WordLexeme("ctx")] + ([ARROW] + more);
  }

  lemma ContextLexes(s: string, ts: seq<Lexeme>, rest: string)
    requires LexesTo(s, ts, rest) && s != "" && s[0] == '-'
    ensures LexesTo("ctx" + s, [WordLexeme("ctx")] + ts, rest)
  {
    hide LexesTo, LexSpec.Next, LexSpec.Lexemes, IsName;
    CtxIsName();
    NameLexes("ctx", s);
    LexOne("ctx", s, WordLexeme("ctx"));
    LexThen("ctx" + s, [WordLexeme("ctx")], s, ts, rest);
  }

  /** The emitted text of a read of a path is a call with the context and that access. */
  lemma EmitReadLexes(parts: seq<string>, rest: string)
    requires parts != [] && AllNames(parts)
    ensures LexesTo(Emit(A.Read(A.Path(parts))) + rest,
                    [WordLexeme("kdal_reg_read"), OPEN, AMPERSAND, WordLexeme("ctx"), ARROW, WordLexeme("kdal"), COMMA]
                    + (PathTokens(parts) + [CLOSE]), rest)
  {
    hide LexesTo, LexSpec.Next, LexSpec.Lexemes, IsName, PathTokens;
    var path, tail := Emit(A.Path(parts)), ")" + rest;
    var s0 := path + tail;
    var t0 := PathTokens(parts) + [CLOSE];
    BracketLexes(rest);
    LexOne(")", rest, CLOSE);
    EmitPathLexes(parts, tail);
    LexThen(s0, PathTokens(parts), tail, [CLOSE], rest);
    ArgumentLexes(s0, t0, rest);
    var s1 := "kdal" + (", " + s0);
    var t1 := [WordLexeme("kdal"), COMMA] + t0;
    ArrowLexes(s1);
    LexOne("->", s1, ARROW);
    LexThen("->" + s1, [ARROW], s1, t1, rest);
    var s2 := "->" + s1;
    ContextLexes(s2, [ARROW] + t1, rest);
    var s3, t3 := "ctx" + s2, [WordLexeme("ctx")] + ([ARROW] + t1);
    CallLexes(s2, t3, rest);
    ReadText(path, rest);
    assert [WordLexeme("kdal_reg_read"), OPEN, AMPERSAND, WordLexeme("ctx"), ARROW, WordLexeme("kdal"), COMMA] + t0
        == [WordLexeme("kdal_reg_read"), OPEN, AMPERSAND] + t3;
  }

  lemma ReadText(path: string, rest: string)
    ensures ("kdal_reg_read(&ctx->kdal, " + path + ")") + rest
         == "kdal_reg_read" + ("(" + ("&" + ("ctx" + ("->" + ("kdal" + (", " + (path + (")" + rest))))))))
  {
  }

  lemma ArgumentLexes(s: string, ts: seq<Lexeme>, rest: string)
    requires LexesTo(s, ts, rest)
    ensures LexesTo("kdal" + (", " + s), [WordLexeme("kdal"), COMMA] + ts, rest)
  {
    hide LexesTo, LexSpec.Next, LexSpec.Lexemes, IsName;
    KdalIsName();
    ArrowLexes(s);
    LexSpace(s);
    assert ", " + s == "," + (" " + s);
    LexOne(",", " " + s, COMMA);
    assert [] + ts == ts;
    LexThen(" " + s, [], s, ts, rest);
    LexThen(", " + s, [COMMA], " " + s, ts, rest);
    NameLexes("kdal", ", " + s);
    LexOne("kdal", ", " + s, WordLexeme("kdal"));
    LexThen("kdal" + (", " + s), [WordLexeme("kdal")], ", " + s, [COMMA] + ts, rest);
    assert [WordLexeme("kdal"), COMMA] + ts == [WordLexeme("kdal")] + ([COMMA] + ts);
  }

  lemma CallLexes(s: string, ts: seq<Lexeme>, rest: string)
    requires LexesTo("ctx" + s, ts, rest)
    ensures LexesTo("kdal_reg_read" + ("(" + ("&" + ("ctx" + s))), [WordLexeme("kdal_reg_read"), OPEN, AMPERSAND] + ts, rest)
  {
    hide LexesTo, LexSpec.Next, LexSpec.Lexemes, IsName;
    var s1 := "&" + ("ctx" + s);
    ArrowLexes(s);
    LexOne("&", "ctx" + s, AMPERSAND);
    LexThen(s1, [AMPERSAND], "ctx" + s, ts, rest);
    BracketLexes(s1);
    LexOne("(", s1, OPEN);
    LexThen("(" + s1, [OPEN], s1, [AMPERSAND] + ts, rest);
    KdalRegReadIsName();
    NameLexes("kdal_reg_read", "(" + s1);
    LexOne("kdal_reg_read", "(" + s1, WordLexeme("kdal_reg_read"));
    LexThen("kdal_reg_read" + ("(" + s1), [WordLexeme("kdal_reg_read")], "(" + s1, [OPEN] + ([AMPERSAND] + ts), rest);
    assert [WordLexeme("kdal_reg_read"), OPEN, AMPERSAND] + ts
        == [WordLexeme("kdal_reg_read")] + ([OPEN] + ([AMPERSAND] + ts));
  }

  lemma {:induction false} FieldTokensInjective(p: seq<string>, q: seq<string>)
    requires FieldTokens(p) == FieldTokens(q)
    ensures p == q
    decreases p
  {
    if p != [] && q != [] {
      assert FieldTokens(p)[1] == WordLexeme(p[0]) && FieldTokens(q)[1] == WordLexeme(q[0]);
      assert FieldTokens(p)[2..] == FieldTokens(p[1..]) && FieldTokens(q)[2..] == FieldTokens(q[1..]);
      FieldTokensInjective(p[1..], q[1..]);
    }
  }

  /** Two paths are emitted as the same text exactly when they agree behind their first
      components. */
  lemma EmitPathSameIff(p: seq<string>, q: seq<string>)
    requires p != [] && q != [] && AllNames(p) && AllNames(q)
    ensures Emit(A.Path(p)) == Emit(A.Path(q)) <==> p[1..] == q[1..]
  {
    hide LexSpec.Lexemes, IsName, FieldTokens;
    if Emit(A.Path(p)) == Emit(A.Path(q)) {
      var s := Emit(A.Path(p));
      assert s + "" == s;
      EmitPathLexes(p, "");
      EmitPathLexes(q, "");
      var end := Lexemes("").toks;
      assert PathTokens(p) + end == PathTokens(q) + end;
      assert (PathTokens(p) + end)[..|PathTokens(p)|] == PathTokens(p) && (PathTokens(q) + end)[..|PathTokens(q)|] == PathTokens(q);
      assert FieldTokens(p[1..]) == PathTokens(p)[3..] && FieldTokens(q[1..]) == PathTokens(q)[3..];
      FieldTokensInjective(p[1..], q[1..]);
    }
  }
}
