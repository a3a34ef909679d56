/** Drivers written down as source text, down to the expressions of their statements: the
    front end reads exactly that driver back (compiler/lexer.c, compiler/parser.c). */
module DriverText {
  import opened Wrappers
  import opened Tokens
  import opened ParseSpec
  import opened Grammar
  import opened StmtGrammar
  import opened TokenText
  import opened DeclGrammar
  import opened Sema
  import A = Ast
  import Codegen
  import DeviceText
  import Literals
  import Pipeline
  import Printing
  import X = LexSpec

  // ===== expressions =====

  predicate AllNames(names: seq<string>) {
    forall i :: 0 <= i < |names| ==> Codegen.IsName(names[i])
  }

  /** Expressions that can be written: 63-bit literals, strings with their quotes, and names
      that are identifiers. */
  predicate WritableExpr(e: A.Expr) {
    match e
    case Null => false
    case IntLit(v) => 0 <= v < 0x8000_0000_0000_0000
    case BoolLit(_) => true
    case StrLit(text) => |text| >= 2 && text == Literals.QUOTE + (text[1..|text|-1] + Literals.QUOTE) && Literals.Inside(text[1..|text|-1])
    case Ident(name) => Codegen.IsName(name)
    case Path(parts) => 2 <= |parts| <= 4 && AllNames(parts)
    case Read(x) => WritableExpr(x)
    case Un(_, x) => WritableExpr(x)
    case Bin(_, l, r) => WritableExpr(l) && WritableExpr(r)
  }

  lemma {:induction false} WritableIsPrintable(e: A.Expr)
    requires WritableExpr(e)
    ensures A.Complete(e) && Printing.Printable(e)
  {
    hide Codegen.IsName, AllNames, Literals.Inside;
    match e
    case Read(x) => WritableIsPrintable(x);
    case Un(_, x) => WritableIsPrintable(x);
    case Bin(_, l, r) =>
      WritableIsPrintable(l);
      WritableIsPrintable(r);
    case _ =>
  }

  /** The expression with the parentheses it needs. */
  function Written(e: A.Expr): Cst
    requires WritableExpr(e)
  {
    WritableIsPrintable(e);
    Printing.Print(e)
  }

  lemma OpLexes(op: A.BinOp)
    ensures Lexes(Printing.OpLexeme(op))
  {
    hide Lexes, X.Next;
    var l := Printing.OpLexeme(op);
    var m, p := Literals.OPERATORS, Literals.PAIRS;
    assert m[0] == ("<", Lt) && m[1] == (">", Gt) && m[2] == ("+", Plus) && m[3] == ("-", Minus) && m[4] == ("*", Star);
    assert m[5] == ("/", Slash) && m[6] == ("%", Percent) && m[7] == ("&", Amp) && m[8] == ("|", Pipe) && m[9] == ("^", Caret);
    assert p[0] == ("==", EqEq) && p[1] == ("!=", Neq) && p[2] == ("<=", Le) && p[3] == (">=", Ge) && p[4] == ("<<", Tok.Shl);
    assert p[5] == (">>", Tok.Shr) && p[6] == ("&&", AmpAmp) && p[7] == ("||", PipePipe);
    assert (l.text, l.kind) in m || (l.text, l.kind) in p;
    hide Literals.OPERATORS, Literals.PAIRS, Printing.OpLexeme;
    MarkLexes(l);
  }

  lemma UnLexes(op: A.UnOp)
    ensures Lexes(Printing.UnLexeme(op))
  {
    hide Lexes, X.Next;
    var l := Printing.UnLexeme(op);
    var m := Literals.OPERATORS;
    assert m[3] == ("-", Minus) && m[10] == ("~", Tilde) && m[11] == ("!", Bang);
    assert (l.text, l.kind) in m;
    hide Literals.OPERATORS, Printing.UnLexeme;
    MarkLexes(l);
  }

  lemma BoolLexes(b: bool)
    ensures Lexes(Lexeme(if b then BoolTrue else BoolFalse, if b then "true" else "false", if b then 1 else 0))
  {
    hide X.Next;
    var l := Lexeme(if b then BoolTrue else BoolFalse, if b then "true" else "false", if b then 1 else 0);
    forall tail: string | tail == "" || tail[0] == ' '
      ensures X.Next(l.text + tail) == X.Found(l)
    {
      SpaceIsApart(tail);
      Literals.Truth(tail);
    }
  }

  lemma StringLexes(s: string)
    requires Literals.Inside(s)
    ensures Lexes(Lexeme(Str, Literals.QUOTE + (s + Literals.QUOTE), 0))
  {
    hide X.Next, Literals.Inside;
    var text := Literals.QUOTE + (s + Literals.QUOTE);
    forall tail: string | tail == "" || tail[0] == ' '
      ensures X.Next(text + tail) == X.Found(Lexeme(Str, text, 0))
    {
      assert text + tail == Literals.QUOTE + (s + (Literals.QUOTE + tail));
      Literals.StringLiteral(s, Literals.QUOTE + tail);
    }
  }

  lemma {:induction false} PathLexes(parts: seq<string>)
    requires parts != [] && AllNames(parts)
    ensures AllLex(Printing.DottedLexemes(parts))
  {
    hide Lexes, Codegen.IsName;
    MarksLex();
    WordLexes(parts[0]);
    if |parts| > 1 {
      PathLexes(parts[1..]);
    }
  }

  lemma BracketsLex()
    ensures Lexes(Printing.OPEN) && Lexes(Printing.CLOSE) && Lexes(Lexeme(Kw("read"), "read", 0))
  {
    hide Lexes;
    MarksLex();
    ControlKeysLex();
    assert Printing.OPEN == LPAREN && Printing.CLOSE == RPAREN && Key("read") == Lexeme(Kw("read"), "read", 0);
  }

  lemma FitLexes(c: Cst, level: nat)
    requires AllLex(Yield(c))
    ensures AllLex(Yield(Printing.Fit(c, level)))
  {
    hide Lexes, Level;
    BracketsLex();
  }

  /** Every token of a written expression lexes. */
  lemma {:induction false} WrittenLexes(e: A.Expr)
    requires WritableExpr(e)
    ensures AllLex(Yield(Written(e)))
  {
    hide Lexes, Codegen.IsName, AllNames, Literals.Inside, Printing.OpLexeme, Printing.UnLexeme, Printing.Fit, Printing.DottedLexemes,
         ParseSpec.Prec;
    WritableIsPrintable(e);
    match e
    case IntLit(v) => NumberLexes(v);
    case BoolLit(b) => BoolLexes(b);
    case StrLit(text) => StringLexes(text[1..|text|-1]);
    case Ident(name) => WordLexes(name);
    case Path(parts) => PathLexes(parts);
    case Read(x) =>
      BracketsLex();
      WrittenLexes(x);
    case Un(op, x) =>
      UnLexes(op);
      WrittenLexes(x);
      FitLexes(Written(x), 11);
    case Bin(op, l, r) =>
      OpLexes(op);
      WrittenLexes(l);
      WrittenLexes(r);
      FitLexes(Written(l), Prec(Printing.OpKind(op)));
      FitLexes(Written(r), Prec(Printing.OpKind(op)) + 1);
  }

  /** A written expression is proper and stands for the expression. */
  lemma WrittenMeans(e: A.Expr)
    requires WritableExpr(e)
    ensures Proper(Written(e)) && Abstract(Written(e)) == e
  {
    WritableIsPrintable(e);
    Printing.PrintIsProper(e);
  }

  // ===== statements =====

  /** The tokens of the expression lex. */
  ghost predicate CstLexes(c: Cst) { AllLex(Yield(c)) }

  /** Good statements whose names are identifiers and whose expressions lex. */
  ghost predicate WritableStm(s: Stm)
    decreases s, 0
  {
    match s
    case Let(name, _, e) => Codegen.IsName(name) && CstLexes(e)
    case Call(kind, args) => Arity(kind, |args|) && forall c :: c in args ==> CstLexes(c)
    case Return(v) => v.Some? ==> CstLexes(v.value)
    case Assign(l, r) => CstLexes(l) && CstLexes(r)
    case If(c, b, rest) => CstLexes(c) && WritableList(b) && WritableTail(rest)
    case For(v, lo, hi, b) => Codegen.IsName(v) && CstLexes(lo) && CstLexes(hi) && WritableList(b)
  }

  ghost predicate WritableTail(r: Tail)
    decreases r, 0
  {
    match r
    case Fi => true
    case Elif(c, b, rest) => CstLexes(c) && WritableList(b) && WritableTail(rest)
    case Else(b) => WritableList(b)
  }

  ghost predicate WritableList(ss: seq<Stm>)
    decreases ss, 0
  {
    ss == [] || (WritableStm(ss[0]) && WritableList(ss[1..]))
  }

  lemma {:induction false} ArgsLex(args: seq<Cst>)
    requires forall c :: c in args ==> CstLexes(c)
    ensures AllLex(ArgsTokens(args))
  {
    hide Lexes, Grammar.Yield;
    MarksLex();
    if args != [] {
      assert args[0] in args;
      if |args| > 1 {
        ArgsLex(args[1..]);
      }
    }
  }

  lemma CallWordLexes(kind: A.Kind, n: nat)
    requires Arity(kind, n)
    ensures Lexes(Key(CallWord(kind)))
  {
    hide Lexes;
    StatementKeysLex();
  }

  lemma {:induction false} StmLexes(s: Stm)
    requires WritableStm(s)
    ensures AllLex(StmTokens(s))
    decreases s, 1
  {
    hide Lexes, Grammar.Yield, Codegen.IsName, ArgsTokens, CallWord, ListTokens, WritableList, ArmTokens, TailTokens, WritableTail;
    MarksLex();
    ControlKeysLex();
    match s
    case Let(name, _, e) =>
      StatementKeysLex();
      WordLexes(name);
    case Call(kind, args) =>
      CallWordLexes(kind, |args|);
      ArgsLex(args);
    case Return(_) => StatementKeysLex();
    case Assign(_, _) =>
    case If(c, b, rest) =>
      ArmLexes("if", c, b);
      TailLexes(rest);
    case For(v, _, _, b) =>
      WordLexes(v);
      ListLexes(b);
  }

  lemma {:induction false} ArmLexes(word: string, c: Cst, b: seq<Stm>)
    requires Lexes(Key(word)) && CstLexes(c) && WritableList(b)
    ensures AllLex(ArmTokens(word, c, b))
    decreases b, 2
  {
    hide Lexes, Grammar.Yield, ListTokens, WritableList;
    MarksLex();
    ListLexes(b);
  }

  lemma {:induction false} TailLexes(r: Tail)
    requires WritableTail(r)
    ensures AllLex(TailTokens(r))
    decreases r, 0
  {
    hide Lexes, Grammar.Yield, ListTokens, WritableList, ArmTokens;
    MarksLex();
    ControlKeysLex();
    match r
    case Fi =>
    case Elif(c, b, rest) =>
      ArmLexes("elif", c, b);
      TailLexes(rest);
    case Else(b) => ListLexes(b);
  }

  lemma {:induction false} ListLexes(ss: seq<Stm>)
    requires WritableList(ss)
    ensures AllLex(ListTokens(ss))
    decreases ss, 0
  {
    hide Lexes, StmTokens, WritableStm;
    if ss != [] {
      StmLexes(ss[0]);
      ListLexes(ss[1..]);
    }
  }

  // ===== drivers =====

  ghost predicate WritablePart(p: DriverItem) {
    match p
    case ProbePart(b) => WritableList(b)
    case RemovePart(b) => WritableList(b)
    case HandlerPart(event, args, b) =>
      event in {Key("read"), Key("write"), Key("signal"), Key("power"), Key("timeout")} && AllLex(args) && WritableList(b)
    case OptionPart(toks) => AllLex(toks)
  }

  lemma PartLexes(p: DriverItem)
    requires WritablePart(p)
    ensures AllLex(DriverPartTokens(p))
  {
    hide Lexes, ListTokens, WritableList;
    MarksLex();
    ControlKeysLex();
    DriverKeysLex();
    DeviceKeysLex();
    match p
    case ProbePart(b) => ListLexes(b);
    case RemovePart(b) => ListLexes(b);
    case HandlerPart(_, _, b) => ListLexes(b);
    case OptionPart(_) =>
  }

  lemma {:induction false} PartsLex(ps: seq<DriverItem>)
    requires forall p :: p in ps ==> WritablePart(p)
    ensures AllLex(DriverPartsTokens(ps))
    decreases ps
  {
    hide Lexes, DriverPartTokens, WritablePart;
    if ps != [] {
      PartLexes(ps[0]);
      PartsLex(ps[1..]);
    }
  }

  lemma {:induction false} DottedLex(names: seq<string>)
    requires AllNames(names)
    ensures AllLex(DottedTokens(names))
  {
    hide Lexes, Codegen.IsName;
    if names != [] {
      MarksLex();
      WordLexes(names[0]);
      DottedLex(names[1..]);
    }
  }

  lemma TargetLexes(target: seq<string>)
    requires AllNames(target)
    ensures AllLex(TargetTokens(target))
  {
    hide Lexes, Codegen.IsName, DottedTokens;
    if target != [] {
      ControlKeysLex();
      WordLexes(target[0]);
      DottedLex(target[1..]);
    }
  }

  /** From text to file: the source text of a driver, with probe, remove and handler bodies
      made of any statements, compiles to a file that holds exactly that driver. */
  lemma DriverSurvivesText(name: string, target: seq<string>, ps: seq<DriverItem>)
    requires Codegen.IsName(name) && AllNames(target)
    requires forall p :: p in ps ==> GoodDriverPart(p) && WritablePart(p)
    ensures var f := FileForm(None, [], None, DriverMain(name, target, ps));
            Pipeline.Compiled(DeviceText.Text(f)) == Pipeline.Ready(File(None, Some(DriverPartsMeant(IDLE, ps))))
  {
    hide Lexes, Codegen.IsName, GoodDriverPart, WritablePart, DriverPartsTokens, TargetTokens, DeviceText.Text, DriverPartsMeant,
         AllNames;
    var f := FileForm(None, [], None, DriverMain(name, target, ps));
    MarksLex();
    DriverKeysLex();
    WordLexes(name);
    TargetLexes(target);
    PartsLex(ps);
    assert FileTokens(f) == MainTokens(f.main);
    DeviceText.FileSurvivesText(f);
  }
}
