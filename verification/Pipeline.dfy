/** From source text to a checked file (compiler/codegen.c, `kdal_compile_file` up to code
    generation): the lexer, the parser and the semantic pass, one after the other. */
module Pipeline {
  import opened Wrappers
  import opened Tokens
  import opened LexSpec
  import opened LexProofs
  import opened ParseSpec
  import opened DeclSpec
  import opened Sema
  import L = Lexer
  import D = Declarations
  import DeclProofs
  import S = SemaProofs
  import A = Ast

  /** Every text lexes to a token array whose only EOF is its last element. */
  lemma {:induction false} LexemesAreTerminated(s: string)
    ensures Terminated(Lexemes(s).toks)
    decreases |s|
  {
    hide Next, Lexemes;
    if s == "" {
      EndOfText(s);
      EmptyText();
    } else {
      TurnOfLexemes(s);
      LexemesAreTerminated(s[Next(s).Len()..]);
    }
  }

  lemma EmptyText()
    ensures Lexemes("") == Lexed([EOF_LEXEME], false)
  {
    hide Next;
  }

  datatype Outcome = LexError | ParseError | SemaError | Ready(file: File)

  /** What becomes of a source text. */
  ghost function Compiled(src: string): Outcome {
    LexemesAreTerminated(src);
    var lx := Lexemes(src);
    var f := FileAt(lx.toks);
    if lx.err then LexError
    else if f.next.err then ParseError
    else if Verdict(f.val) < 0 then SemaError
    else Ready(f.val)
  }

  method Compile(src: string) returns (o: Outcome)
    ensures o == Compiled(src)
  {
    hide Lexemes, TokensFrom, FileAt, Verdict, Strip;
    var toks, err := L.KdalLex(src);
    TokensAreLexemes(src, 0);
    LexemesAreTerminated(src);
    assert src[0..] == src;
    if err {
      return LexError;
    }
    var file := D.KdalParse(Strip(toks));
    if file.None? {
      return ParseError;
    }
    var verdict := KdalSema(file.value);
    o := if verdict < 0 then SemaError else Ready(file.value);
  }

  /** Spreading out the tokens of an error-free text with single spaces changes nothing, as
      far as the model gives literals their value: where a prefix has no digits, or another
      prefix behind it, the code reads past the token and the value depends on what is there. */
  lemma SpacingDoesNotMatter(src: string)
    requires !Lexemes(src).err
    ensures Compiled(Spaced(Lexemes(src).toks)) == Compiled(src)
  {
    hide Lexemes, FileAt, Verdict, Spaced;
    LexingIsCanonical(src);
  }

  // ===== the pass has nothing to check =====

  lemma {:induction false} NoSymbolsNoExprErrors(e: A.Expr, writable: bool)
    ensures ExprErrors([], e, writable) == 0
  {
    match e
    case Bin(_, l, r) =>
      NoSymbolsNoExprErrors(l, false);
      NoSymbolsNoExprErrors(r, false);
    case Un(_, x) => NoSymbolsNoExprErrors(x, false);
    case Read(x) => NoSymbolsNoExprErrors(x, false);
    case _ =>
  }

  lemma {:induction false} NoSymbolsNoErrors(ns: seq<A.Node>)
    ensures ListErrors([], ns) == 0
    decreases ns, 0
  {
    if ns != [] {
      NoSymbolsNoStmtErrors(ns[0]);
      NoSymbolsNoErrors(ns[1..]);
    }
  }

  lemma {:induction false} NoSymbolsNoStmtErrors(n: A.Node)
    ensures StmtErrors([], n) == 0
    decreases n, 2
  {
    hide ListErrors, ArmErrors, ExprErrors;
    if n.S? {
      var kids := n.kids;
      match n.kind
      case RegWriteStmt | AssignStmt =>
        if |kids| > 0 && kids[0].E? { NoSymbolsNoExprErrors(kids[0].e, true); }
        if |kids| > 1 && kids[1].E? { NoSymbolsNoExprErrors(kids[1].e, false); }
      case WaitStmt =>
      case ForStmt => if |kids| > 3 { NoSymbolsNoErrors(kids[3..]); }
      case IfStmt => NoSymbolsNoArmErrors(kids);
      case _ => NoSymbolsNoErrors(kids);
    }
  }

  lemma {:induction false} NoSymbolsNoArmErrors(kids: seq<A.Node>)
    ensures ArmErrors([], kids) == 0
    decreases kids, 1
  {
    hide ListErrors, ExprErrors;
    if kids != [] {
      if kids[0].E? { NoSymbolsNoExprErrors(kids[0].e, false); }
      if |kids| > 1 { NoSymbolsNoErrors(kids[1..]); }
      if |kids| > 2 { NoSymbolsNoArmErrors(kids[2..]); }
    }
  }

  lemma {:induction false} NoSymbolsNoHandlerErrors(hs: seq<Handler>)
    ensures HandlerErrors([], hs) == 0
  {
    if hs != [] {
      NoSymbolsNoHandlerErrors(hs[..|hs|-1]);
      NoSymbolsNoErrors(hs[|hs|-1].body);
    }
  }

  /** A file holds a device or a driver, never both: the semantic pass never refuses what
      the parser made of a text, so a text compiles exactly when it lexes and parses. */
  lemma CompilesIff(src: string)
    ensures Terminated(Lexemes(src).toks)
    ensures Compiled(src).Ready? <==> !Lexemes(src).err && !FileAt(Lexemes(src).toks).next.err
    ensures Compiled(src) != SemaError
  {
    hide Lexemes, FileAt, ListErrors, HandlerErrors;
    LexemesAreTerminated(src);
    var f := FileAt(Lexemes(src).toks).val;
    if f.driver.Some? {
      var drv := f.driver.value;
      NoSymbolsNoHandlerErrors(drv.handlers);
      if drv.probe.Some? { NoSymbolsNoErrors(drv.probe.value); }
      if drv.remove.Some? { NoSymbolsNoErrors(drv.remove.value); }
    }
  }
}
