/** What the lexer makes of each kind of text (compiler/lexer.c), said without the functions
    that compute it: numbers by their numerals, words and punctuation by their spelling,
    strings, comments and whitespace by their characters. */
module Literals {
  import opened Numerals
  import opened Tokens
  import opened LexSpec
  import opened LexProofs
  import opened Seqs
  import A = Ast
  import Codegen

  /** What follows a word or a number. */
  predicate Apart(rest: string) {
    rest == "" || !In(rest[0], IdentChar)
  }

  /** strtoll stops at 2^63 - 1. */
  function Saturated(n: nat): nat {
    if n < 0x8000_0000_0000_0000 then n else 0x7fff_ffff_ffff_ffff
  }

  // ===== numbers =====

  /** The text of a prefixed literal is its prefix and its digits. */
  lemma PrefixedText(x: char, w: string, rest: string, k: Class)
    requires forall i :: 0 <= i < |w| ==> In(w[i], k)
    requires rest == "" || !In(rest[0], k)
    ensures var s := ['0', x] + w + rest;
            && s[2..] == w + rest && Span(s[2..], k) == |w|
            && s[..2 + |w|] == ['0', x] + w && (['0', x] + w)[2..] == w
  {
    hide Span;
    var s := ['0', x] + w + rest;
    assert s[2..] == w + rest;
    SpanIs(w, rest, k);
  }

  /** `0x` or `0X`, any leading zeros, and a numeral in base 16 with letters of either case. */
  lemma HexLiteral(n: nat, k: nat, x: char, w: string, rest: string)
    requires (x == 'x' || x == 'X') && SameDigits(Zeros(k) + Numerals.Hex(n), w) && Apart(rest)
    ensures Next(['0', x] + w + rest) == Found(Lexeme(Tok.Hex, ['0', x] + w, Saturated(n)))
  {
    hide Next, Span, Numerals.Hex, DigitsValue;
    var s := ['0', x] + w + rest;
    var z := Zeros(k) + Numerals.Hex(n);
    forall i | 0 <= i < |w|
      ensures In(w[i], HexDigit)
    {
      assert z[i] in z;
    }
    PrefixedText(x, w, rest, HexDigit);
    Codegen.NextOfDigit(s);
    CaseDoesNotMatter(z, w, 16);
    LeadingZeros(Numerals.Hex(n), k, 16);
    HexValue(n);
  }

  /** `0b` or `0B`, any leading zeros, and a numeral in base two. */
  lemma BinaryLiteral(n: nat, k: nat, b: char, rest: string)
    requires (b == 'b' || b == 'B') && Apart(rest)
    ensures var w := Zeros(k) + Binary(n);
            Next(['0', b] + w + rest) == Found(Lexeme(BinLit, ['0', b] + w, Saturated(n)))
  {
    hide Next, Span, Binary, DigitsValue;
    var w := Zeros(k) + Binary(n);
    var s := ['0', b] + w + rest;
    forall i | 0 <= i < |w|
      ensures In(w[i], BinDigit)
    {
      assert w[i] in w;
    }
    PrefixedText(b, w, rest, BinDigit);
    Codegen.NextOfDigit(s);
    LeadingZeros(Binary(n), k, 2);
    BinaryValue(n);
  }

  /** Any leading zeros, and a numeral in base ten. */
  lemma DecimalLiteral(n: nat, k: nat, rest: string)
    requires Apart(rest)
    ensures var w := Zeros(k) + Decimal(n);
            Next(w + rest) == Found(Lexeme(Int, w, Saturated(n)))
  {
    hide Next, Span, Decimal, DigitsValue;
    var w := Zeros(k) + Decimal(n);
    var s := w + rest;
    forall i | 0 <= i < |w|
      ensures IsDigit(w[i])
    {
      assert w[i] in w;
    }
    SpanIs(w, rest, Digit);
    assert s[..|w|] == w && s[0] == w[0];
    assert |s| > 1 ==> s[1] == if |w| > 1 then w[1] else rest[0];
    Codegen.NextOfDigit(s);
    LeadingZeros(Decimal(n), k, 10);
    DecimalValue(n);
  }

  // ===== words =====

  const LOWER: set<char> := {
    'a', 'b', 'c', 'd', 'e', 'f', 'g', 'h', 'i', 'j', 'k', 'l', 'm',
    'n', 'o', 'p', 'q', 'r', 's', 't', 'u', 'v', 'w', 'x', 'y', 'z'}

  const UPPER: set<char> := {
    'A', 'B', 'C', 'D', 'E', 'F', 'G', 'H', 'I', 'J', 'K', 'L', 'M',
    'N', 'O', 'P', 'Q', 'R', 'S', 'T', 'U', 'V', 'W', 'X', 'Y', 'Z'}

  const DIGITS: set<char> := {'0', '1', '2', '3', '4', '5', '6', '7', '8', '9'}

  /** The characters words and hexadecimal digits are made of. */
  lemma Alphabet(c: char)
    ensures IsIdentStart(c) <==> c in LOWER || c in UPPER || c == '_'
    ensures In(c, IdentChar) <==> c in LOWER || c in UPPER || c == '_' || c in DIGITS
    ensures In(c, HexDigit) <==> c in DIGITS || c in {'a', 'b', 'c', 'd', 'e', 'f', 'A', 'B', 'C', 'D', 'E', 'F'}
  {
  }

  predicate WordShaped(w: string) {
    w != "" && IsIdentStart(w[0]) && forall i :: 0 <= i < |w| ==> In(w[i], IdentChar)
  }

  predicate AllWordShaped(words: seq<string>) {
    forall i :: 0 <= i < |words| ==> WordShaped(words[i])
  }

  lemma DeviceWordsShaped()
    ensures AllWordShaped(DEVICE_WORDS)
  {
  }

  lemma SignalWordsShaped()
    ensures AllWordShaped(SIGNAL_WORDS)
  {
  }

  lemma DriverWordsShaped()
    ensures AllWordShaped(DRIVER_WORDS)
  {
  }

  lemma TypeWordsShaped()
    ensures AllWordShaped(TYPE_WORDS)
  {
  }

  lemma KeywordIsWord(w: string)
    requires w in KW_TABLE
    ensures WordShaped(w)
  {
    hide DEVICE_WORDS, SIGNAL_WORDS, DRIVER_WORDS, TYPE_WORDS, WordShaped;
    DeviceWordsShaped();
    SignalWordsShaped();
    DriverWordsShaped();
    TypeWordsShaped();
  }

  lemma WordLexeme(w: string, rest: string)
    requires WordShaped(w) && Apart(rest)
    ensures Next(w + rest) == Found(IdentLexeme(w))
  {
    hide Next, Span, IdentLexeme;
    SpanIs(w, rest, IdentChar);
    assert (w + rest)[..|w|] == w && (w + rest)[0] == w[0];
    Codegen.NextOfWord(w + rest);
  }

  /** A word of the keyword table is the token of that keyword. */
  lemma Keyword(w: string, rest: string)
    requires w in KW_TABLE && w != "true" && w != "false" && Apart(rest)
    ensures Next(w + rest) == Found(Lexeme(Kw(w), w, 0))
  {
    hide Next, KW_TABLE, WordShaped;
    KeywordIsWord(w);
    WordLexeme(w, rest);
  }

  /** `true` and `false`. */
  lemma Truth(rest: string)
    requires Apart(rest)
    ensures Next("true" + rest) == Found(Lexeme(BoolTrue, "true", 1))
    ensures Next("false" + rest) == Found(Lexeme(BoolFalse, "false", 0))
  {
    hide Next;
    assert TYPE_WORDS[0] == "true" && TYPE_WORDS[1] == "false";
    assert "true"[0] != "false"[0];
    WordLexeme("true", rest);
    WordLexeme("false", rest);
  }

  /** Any other word is an identifier. */
  lemma Name(w: string, rest: string)
    requires WordShaped(w) && w !in KW_TABLE && Apart(rest)
    ensures Next(w + rest) == Found(Lexeme(Ident, w, 0))
  {
    hide Next, KW_TABLE, WordShaped;
    WordLexeme(w, rest);
  }

  // ===== punctuation =====

  const MARKS: seq<(string, Tok)> := [
    ("{", LBrace), ("}", RBrace), ("(", LParen), (")", RParen), ("[", LBracket), ("]", RBracket),
    (";", Semicolon), (":", Colon), (",", Comma), (".", Dot), ("@", At), ("=", Eq)]

  const OPERATORS: seq<(string, Tok)> := [
    ("<", Lt), (">", Gt), ("+", Plus), ("-", Minus), ("*", Star), ("/", Slash), ("%", Percent),
    ("&", Amp), ("|", Pipe), ("^", Caret), ("~", Tilde), ("!", Bang)]

  const PAIRS: seq<(string, Tok)> := [
    ("==", EqEq), ("!=", Neq), ("<=", Le), (">=", Ge), ("<<", Tok.Shl), (">>", Tok.Shr),
    ("&&", AmpAmp), ("||", PipePipe), ("..", DotDot), ("->", Arrow)]

  /** Every mark, before a space or the end, is its token. */
  lemma Punctuation(m: (string, Tok), rest: string)
    requires m in MARKS || m in OPERATORS || m in PAIRS
    requires rest == "" || rest[0] == ' '
    ensures Next(m.0 + rest) == Found(Lexeme(m.1, m.0, 0))
  {
    hide Next;
    var s := m.0 + " ";
    MarkShape(m);
    assert s[..|m.0|] == m.0 && s[0] == m.0[0] && s[1] == if |m.0| > 1 then m.0[1] else ' ';
    Codegen.NextOfPunctuation(s, m.1, |m.0|);
    Relex(s, rest);
  }

  predicate Shape(m: (string, Tok)) {
    && 1 <= |m.0| <= 2 && !m.1.EOF?
    && (if |m.0| == 2 then Two(m.0[0], m.0[1]) == m.1 else One(m.0[0]) == m.1 && Two(m.0[0], ' ').EOF?)
    && !IsSpace(m.0[0]) && !IsIdentStart(m.0[0]) && !IsDigit(m.0[0]) && m.0[0] != '"'
  }

  lemma MarkShape(m: (string, Tok))
    requires m in MARKS || m in OPERATORS || m in PAIRS
    ensures Shape(m)
  {
    hide Shape, MARKS, OPERATORS, PAIRS;
    if m in MARKS {
      SingleShape(m);
    } else if m in OPERATORS {
      OperatorShape(m);
    } else {
      PairShape(m);
    }
  }

  lemma SingleShape(m: (string, Tok))
    requires m in MARKS
    ensures Shape(m)
  {
  }

  lemma OperatorShape(m: (string, Tok))
    requires m in OPERATORS
    ensures Shape(m)
  {
  }

  lemma PairShape(m: (string, Tok))
    requires m in PAIRS
    ensures Shape(m)
  {
  }

  // ===== strings =====

  const QUOTE := "\""

  /** The inside of a string literal: no quote and no newline but behind a backslash. */
  predicate Inside(s: string) {
    || s == ""
    || (s[0] != '"' && s[0] != '\n' && s[0] != '\\' && Inside(s[1..]))
    || (s[0] == '\\' && |s| > 1 && Inside(s[2..]))
  }

  lemma {:induction false} StringEnds(s: string, more: string)
    requires Inside(s)
    requires more == "" || more[0] == '"' || more[0] == '\n'
    ensures StringRest(s + more)
         == if more == "" then Scan(|s|, true) else if more[0] == '"' then Scan(|s| + 1, true) else Scan(|s|, false)
  {
    if s == "" {
      assert s + more == more;
    } else {
      var k := if s[0] == '\\' then 2 else 1;
      DropAppend(s, more, k);
      StringEnds(s[k..], more);
    }
  }

  /** The inside of a literal followed by a closing quote, by a newline, or by nothing: the
      first is a token, whatever comes next, the second is reported and yields nothing, the
      third is accepted. */
  lemma StringLiteral(s: string, more: string)
    requires Inside(s)
    requires more == "" || more[0] == '"' || more[0] == '\n'
    ensures Next(QUOTE + (s + more))
         == if more == "" then Found(Lexeme(Str, QUOTE + s, 0))
            else if more[0] == '"' then Found(Lexeme(Str, QUOTE + (s + QUOTE), 0))
            else Skip(1 + |s|, true)
  {
    hide StringRest, Next, Inside;
    StringEnds(s, more);
    AfterQuote(s + more);
    assert (s + more)[..|s|] == s;
    assert more != "" && more[0] == '"' ==> (s + more)[..|s| + 1] == s + QUOTE;
  }

  lemma AfterQuote(t: string)
    ensures Next(QUOTE + t) == if StringRest(t).ok then Found(Lexeme(Str, QUOTE + t[..StringRest(t).n], 0))
                               else Skip(1 + StringRest(t).n, true)
  {
    hide StringRest, Span, NumberLexeme, CommentRest, Two, One;
    assert (QUOTE + t)[1..] == t;
    assert (QUOTE + t)[..1 + StringRest(t).n] == QUOTE + t[..StringRest(t).n];
  }

  /** A string is emitted as the literal it came from. */
  lemma EmittedString(s: string, rest: string)
    requires Inside(s)
    ensures var text := QUOTE + (s + QUOTE);
            Codegen.LexesTo(Codegen.Emit(A.StrLit(text)) + rest, [Lexeme(Str, text, 0)], rest)
  {
    hide Next, Inside;
    var text := QUOTE + (s + QUOTE);
    assert text + rest == QUOTE + (s + (QUOTE + rest));
    StringLiteral(s, QUOTE + rest);
    Codegen.LexOne(text, rest, Lexeme(Str, text, 0));
  }

  // ===== what is skipped =====

  /** Space, tab, newline, vertical tab, form feed and carriage return. */
  lemma Whitespace(c: char, rest: string)
    requires c in " \t\n" || c as int in {11, 12, 13}
    ensures Next([c] + rest) == Skip(1, false)
  {
  }

  /** A line comment goes up to its newline or to the end. */
  lemma LineComment(s: string, rest: string)
    requires '\n' !in s && (rest == "" || rest[0] == '\n')
    ensures Next("//" + s + rest) == Skip(2 + |s|, false)
  {
    hide Span;
    var t := "//" + s + rest;
    assert t[2..] == s + rest;
    SpanIs(s, rest, NotNewline);
  }

  predicate Closes(s: string, i: nat) {
    i + 1 < |s| && s[i] == '*' && s[i+1] == '/'
  }

  lemma {:induction false} CommentIs(s: string, rest: string)
    requires forall i: nat :: !Closes(s + "*/", i) || i >= |s|
    ensures CommentRest(s + "*/" + rest) == Scan(|s| + 2, true)
    decreases |s|
  {
    var t := s + "*/";
    if s == "" {
      assert t + rest == "*/" + rest;
    } else {
      assert (t + rest)[1..] == s[1..] + "*/" + rest;
      assert t[1..] == s[1..] + "*/";
      assert forall i: nat :: Closes(t[1..], i) ==> Closes(t, i + 1);
      CommentIs(s[1..], rest);
      assert !Closes(t, 0);
    }
  }

  lemma {:induction false} CommentOpen(s: string)
    requires forall i: nat :: !Closes(s, i)
    ensures CommentRest(s) == Scan(|s|, false)
  {
    if s != "" {
      assert forall i: nat :: Closes(s[1..], i) ==> Closes(s, i + 1);
      CommentOpen(s[1..]);
      assert !Closes(s, 0);
    }
  }

  /** A block comment goes to its first closing mark; without one it is reported and takes
      the rest of the text. */
  lemma BlockComment(s: string, rest: string)
    ensures (forall i: nat :: !Closes(s + "*/", i) || i >= |s|) ==> Next("/*" + s + "*/" + rest) == Skip(|s| + 4, false)
    ensures (forall i: nat :: !Closes(s, i)) ==> Next("/*" + s) == Skip(|s| + 2, true)
  {
    hide CommentRest;
    assert ("/*" + s + "*/" + rest)[2..] == s + "*/" + rest && ("/*" + s)[2..] == s;
    if forall i: nat :: !Closes(s + "*/", i) || i >= |s| {
      CommentIs(s, rest);
    }
    if forall i: nat :: !Closes(s, i) {
      CommentOpen(s);
    }
  }

  /** Any other character is reported and passed over. */
  lemma OtherCharacter(c: char, rest: string)
    requires c in "#$'?\\`" || c as int < 9 || 13 < c as int < 32 || c as int > 126
    ensures Next([c] + rest) == Skip(1, true)
  {
    hide Span, NumberLexeme, CommentRest, StringRest, IdentLexeme;
  }
}
