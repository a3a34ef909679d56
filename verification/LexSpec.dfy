/** What the lexer computes, as functions on the text still to be read
    (compiler/lexer.c). The imperative lexer of module Lexer is proved against these. */
module LexSpec {
  import opened Numerals
  import opened Tokens

  // ----- character classes (ctype.h in the C locale) -----

  predicate IsSpace(c: char) { c == ' ' || '\t' <= c <= '\r' }
  predicate IsAlpha(c: char) { 'a' <= c <= 'z' || 'A' <= c <= 'Z' }
  predicate IsIdentStart(c: char) { IsAlpha(c) || c == '_' }

  datatype Class = IdentChar | Digit | HexDigit | BinDigit | NotNewline

  predicate In(c: char, k: Class) {
    match k
    case IdentChar => IsAlpha(c) || IsDigit(c) || c == '_'
    case Digit => IsDigit(c)
    case HexDigit => IsHexDigit(c)
    case BinDigit => c == '0' || c == '1'
    case NotNewline => c != '\n'
  }

  /** Length of the longest prefix of `s` made of characters of class `k`. */
  function Span(s: string, k: Class): (n: nat)
    ensures n <= |s|
    ensures forall i :: 0 <= i < n ==> In(s[i], k)
    ensures n < |s| ==> !In(s[n], k)
  {
    if s == "" || !In(s[0], k) then 0 else 1 + Span(s[1..], k)
  }

  /** How many characters a delimited scan consumes, and whether it ended properly. */
  datatype Scan = Scan(n: nat, ok: bool)

  /** The rest of a block comment whose opening was consumed. */
  function CommentRest(s: string): (r: Scan)
    ensures r.n <= |s| && (!r.ok ==> r.n == |s|)
  {
    if s == "" then Scan(0, false)
    else if s[0] == '*' && |s| > 1 && s[1] == '/' then Scan(2, true)
    else var r := CommentRest(s[1..]); Scan(1 + r.n, r.ok)
  }

  /** The rest of a string literal whose opening quote was consumed; a literal that
      runs into the end of the text is accepted, one that runs into a newline is not. */
  function StringRest(s: string): (r: Scan)
    ensures r.n <= |s|
  {
    if s == "" then Scan(0, true)
    else if s[0] == '"' then Scan(1, true)
    else if s[0] == '\n' then Scan(0, false)
    else if s[0] == '\\' then
      if |s| == 1 then Scan(1, true) else var r := StringRest(s[2..]); Scan(2 + r.n, r.ok)
    else var r := StringRest(s[1..]); Scan(1 + r.n, r.ok)
  }

  // ----- literal values -----

  const LLONG_MAX := 0x7fff_ffff_ffff_ffff

  /** strtoll saturates. */
  function Strtoll(s: string, base: nat): (v: int)
    ensures 0 <= v <= LLONG_MAX
  {
    var v := DigitsValue(s, base);
    if v > LLONG_MAX then LLONG_MAX else v
  }

  // ----- one step -----

  /** Two-character punctuation. */
  function Two(c: char, d: char): (k: Tok)
    ensures k.EOF? || (d != ' ' && d != '\0')
  {
    if c == '=' && d == '=' then EqEq
    else if c == '!' && d == '=' then Neq
    else if c == '<' && d == '=' then Le
    else if c == '>' && d == '=' then Ge
    else if c == '<' && d == '<' then Shl
    else if c == '>' && d == '>' then Shr
    else if c == '&' && d == '&' then AmpAmp
    else if c == '|' && d == '|' then PipePipe
    else if c == '.' && d == '.' then DotDot
    else if c == '-' && d == '>' then Arrow
    else EOF
  }

  /** One-character punctuation; EOF stands for "no such token". */
  function One(c: char): Tok {
    match c
    case '{' => LBrace case '}' => RBrace case '(' => LParen case ')' => RParen
    case '[' => LBracket case ']' => RBracket case ';' => Semicolon case ':' => Colon
    case ',' => Comma case '.' => Dot case '@' => At case '=' => Eq
    case '<' => Lt case '>' => Gt case '+' => Plus case '-' => Minus
    case '*' => Star case '/' => Slash case '%' => Percent case '&' => Amp
    case '|' => Pipe case '^' => Caret case '~' => Tilde case '!' => Bang
    case _ => EOF
  }

  /** What one turn of the lexer's main loop does: skip `n` characters (with or without
      a diagnostic), or emit a token. */
  datatype Turn = Skip(n: nat, bad: bool) | Found(lex: Lexeme) {
    function Len(): nat { if Skip? then n else |lex.text| }
  }

  function IdentLexeme(word: string): Lexeme {
    var k := Classify(word);
    Lexeme(k, word, if k.BoolTrue? then 1 else 0)
  }

  /** The length and kind of the number that starts `s`. */
  function NumberLexeme(s: string): (l: Lexeme)
    requires s != "" && IsDigit(s[0])
    ensures l.text != "" && l.text <= s && (l.kind.Hex? || l.kind.BinLit? || l.kind.Int?)
  {
    var c1 := if |s| > 1 then s[1] else '\0';
    if s[0] == '0' && (c1 == 'x' || c1 == 'X') then
      var text := s[..2 + Span(s[2..], HexDigit)];
      Lexeme(Hex, text, Strtoll(text[2..], 16))
    else if s[0] == '0' && (c1 == 'b' || c1 == 'B') then
      var text := s[..2 + Span(s[2..], BinDigit)];
      Lexeme(BinLit, text, Strtoll(text[2..], 2))
    else
      var text := s[..Span(s, Digit)];
      Lexeme(Int, text, Strtoll(text, 10))
  }

  function Next(s: string): (t: Turn)
    requires s != ""
    ensures 1 <= t.Len() <= |s|
    ensures t.Found? ==> t.lex.text <= s && !t.lex.kind.EOF?
  {
    var c := s[0];
    var c1 := if |s| > 1 then s[1] else '\0';
    if IsSpace(c) then Skip(1, false)
    else if c == '/' && c1 == '/' then Skip(2 + Span(s[2..], NotNewline), false)
    else if c == '/' && c1 == '*' then
      var r := CommentRest(s[2..]);
      Skip(2 + r.n, !r.ok)
    else if IsIdentStart(c) then Found(IdentLexeme(s[..Span(s, IdentChar)]))
    else if IsDigit(c) then Found(NumberLexeme(s))
    else if c == '"' then
      var r := StringRest(s[1..]);
      if r.ok then Found(Lexeme(Str, s[..1 + r.n], 0)) else Skip(1 + r.n, true)
    else if !Two(c, c1).EOF? then Found(Lexeme(Two(c, c1), s[..2], 0))
    else if !One(c).EOF? then Found(Lexeme(One(c), s[..1], 0))
    else Skip(1, true)
  }

  // ----- whole texts -----

  datatype Lexed<T> = Lexed(toks: seq<T>, err: bool)

  const EOF_LEXEME := Lexeme(EOF, "", 0)

  /** The lexemes of a text, without positions. */
  function Lexemes(s: string): (r: Lexed<Lexeme>)
    ensures |r.toks| > 0 && r.toks[|r.toks|-1] == EOF_LEXEME
    decreases |s|
  {
    hide Next;
    if s == "" then Lexed([EOF_LEXEME], false)
    else
      match Next(s)
      case Skip(n, bad) =>
        var r := Lexemes(s[n..]);
        Lexed(r.toks, bad || r.err)
      case Found(l) =>
        var r := Lexemes(s[|l.text|..]);
        Lexed([l] + r.toks, r.err)
  }

  /** Line of offset `p`, counting from 1. */
  function Line(src: string, p: nat): nat
    requires p <= |src|
  {
    if p == 0 then 1 else Line(src, p-1) + if src[p-1] == '\n' then 1 else 0
  }

  /** Column of offset `p`, counting from 1. */
  function Col(src: string, p: nat): (c: nat)
    requires p <= |src|
    ensures c >= 1
  {
    if p == 0 || src[p-1] == '\n' then 1 else Col(src, p-1) + 1
  }

  function TokenAt(src: string, p: nat, l: Lexeme): Token
    requires p <= |src|
  {
    Token(l, p, Line(src, p), Col(src, p))
  }

  /** The tokens of `src` from offset `p` on. */
  function TokensFrom(src: string, p: nat): (r: Lexed<Token>)
    requires p <= |src|
    ensures |r.toks| > 0
    decreases |src| - p
  {
    if p == |src| then Lexed([TokenAt(src, p, EOF_LEXEME)], false)
    else
      match Next(src[p..])
      case Skip(n, bad) =>
        var r := TokensFrom(src, p + n);
        Lexed(r.toks, bad || r.err)
      case Found(l) =>
        var r := TokensFrom(src, p + |l.text|);
        Lexed([TokenAt(src, p, l)] + r.toks, r.err)
  }
}
