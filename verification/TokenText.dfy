/** Tokens written as text: spelled-out tokens with one space between them lex to themselves. */
module TokenText {
  import opened Tokens
  import X = LexSpec
  import Codegen
  import Literals
  import LexProofs
  import Printing

  const LBRACE := Lexeme(LBrace, "{", 0)
  const RBRACE := Lexeme(RBrace, "}", 0)
  const LPAREN := Lexeme(LParen, "(", 0)
  const RPAREN := Lexeme(RParen, ")", 0)
  const COLON := Lexeme(Colon, ":", 0)
  const SEMICOLON := Lexeme(Semicolon, ";", 0)
  const COMMA := Lexeme(Comma, ",", 0)
  const DOT := Lexeme(Dot, ".", 0)
  const DOTS := Lexeme(DotDot, "..", 0)
  const AT := Lexeme(At, "@", 0)
  const EQUALS := Lexeme(Eq, "=", 0)

  function Word(name: string): Lexeme { Lexeme(Ident, name, 0) }
  function Key(word: string): Lexeme { Lexeme(Kw(word), word, 0) }
  function Number(v: nat): Lexeme { Codegen.IntLexeme(v) }

  /** The text of the token, before a space or the end, lexes to it. */
  ghost predicate Lexes(l: Lexeme) {
    && l.text != ""
    && forall tail: string :: tail == "" || tail[0] == ' ' ==> X.Next(l.text + tail) == X.Found(l)
  }

  ghost predicate AllLex(ts: seq<Lexeme>) {
    forall l :: l in ts ==> Lexes(l)
  }

  lemma WordLexes(name: string)
    requires Codegen.IsName(name)
    ensures Lexes(Word(name))
  {
    hide X.Next, Codegen.IsName, X.In;
    NameIsText(name);
    forall tail: string | tail == "" || tail[0] == ' '
      ensures X.Next(name + tail) == X.Found(Word(name))
    {
      SpaceIsApart(tail);
      Codegen.NameLexes(name, tail);
    }
  }

  lemma NameIsText(name: string)
    requires Codegen.IsName(name)
    ensures name != ""
  {
  }

  lemma SpaceIsApart(tail: string)
    requires tail == "" || tail[0] == ' '
    ensures Literals.Apart(tail) && (tail == "" || !X.In(tail[0], X.IdentChar))
  {
  }

  lemma NumberLexes(v: nat)
    requires v < 0x8000_0000_0000_0000
    ensures Lexes(Number(v))
  {
    hide X.Next, X.In;
    forall tail: string | tail == "" || tail[0] == ' '
      ensures X.Next(Number(v).text + tail) == X.Found(Number(v))
    {
      SpaceIsApart(tail);
      Codegen.DecimalLexes(v, tail);
    }
  }

  lemma KeyLexes(w: string)
    requires (w in DEVICE_WORDS || w in SIGNAL_WORDS || w in DRIVER_WORDS || w in TYPE_WORDS) && w != "true" && w != "false"
    ensures Lexes(Key(w))
  {
    hide X.Next, X.In, Literals.WordShaped;
    assert w in KW_TABLE;
    hide KW_TABLE, DEVICE_WORDS, SIGNAL_WORDS, DRIVER_WORDS, TYPE_WORDS;
    forall tail: string | tail == "" || tail[0] == ' '
      ensures X.Next(w + tail) == X.Found(Key(w))
    {
      SpaceIsApart(tail);
      Literals.Keyword(w, tail);
    }
    Literals.KeywordIsWord(w);
    ShapedIsText(w);
  }

  lemma ShapedIsText(w: string)
    requires Literals.WordShaped(w)
    ensures w != ""
  {
  }

  lemma MarkLexes(l: Lexeme)
    requires l.ival == 0 && (l.text, l.kind) in Literals.MARKS + Literals.OPERATORS + Literals.PAIRS
    ensures Lexes(l)
  {
    hide X.Next, Literals.MARKS, Literals.OPERATORS, Literals.PAIRS;
    Literals.MarkShape((l.text, l.kind));
    forall tail: string | tail == "" || tail[0] == ' '
      ensures X.Next(l.text + tail) == X.Found(l)
    {
      Literals.Punctuation((l.text, l.kind), tail);
    }
  }

  /** The marks the declarations and statements use. */
  lemma MarksLex()
    ensures Lexes(LBRACE) && Lexes(RBRACE) && Lexes(LPAREN) && Lexes(RPAREN) && Lexes(COLON) && Lexes(SEMICOLON)
    ensures Lexes(COMMA) && Lexes(DOT) && Lexes(DOTS) && Lexes(AT) && Lexes(EQUALS)
  {
    hide Lexes;
    var m, p := Literals.MARKS, Literals.PAIRS;
    assert m[0] == ("{", LBrace) && m[1] == ("}", RBrace) && m[2] == ("(", LParen) && m[3] == (")", RParen);
    assert m[6] == (";", Semicolon) && m[7] == (":", Colon) && m[8] == (",", Comma) && m[9] == (".", Dot);
    assert m[10] == ("@", At) && m[11] == ("=", Eq) && p[8] == ("..", DotDot);
    MarkLexes(LBRACE);
    MarkLexes(RBRACE);
    MarkLexes(LPAREN);
    MarkLexes(RPAREN);
    MarkLexes(COLON);
    MarkLexes(SEMICOLON);
    MarkLexes(COMMA);
    MarkLexes(DOT);
    MarkLexes(DOTS);
    MarkLexes(AT);
    MarkLexes(EQUALS);
  }

  /** The keywords of the statements. */
  lemma StatementKeysLex()
    ensures Lexes(Key("write")) && Lexes(Key("emit")) && Lexes(Key("wait")) && Lexes(Key("arm")) && Lexes(Key("cancel"))
    ensures Lexes(Key("log")) && Lexes(Key("let")) && Lexes(Key("return"))
  {
    hide Lexes, Key;
    var w := DRIVER_WORDS;
    assert w[6] == "write" && w[9] == "emit" && w[10] == "wait" && w[11] == "arm" && w[12] == "cancel";
    assert w[13] == "let" && w[14] == "return" && w[15] == "log";
    KeyLexes("write");
    KeyLexes("emit");
    KeyLexes("wait");
    KeyLexes("arm");
    KeyLexes("cancel");
    KeyLexes("log");
    KeyLexes("let");
    KeyLexes("return");
  }

  /** The keywords of control flow and of expressions. */
  lemma ControlKeysLex()
    ensures Lexes(Key("if")) && Lexes(Key("elif")) && Lexes(Key("else")) && Lexes(Key("for")) && Lexes(Key("in"))
    ensures Lexes(Key("read")) && Lexes(Key("u32"))
  {
    hide Lexes, Key;
    var w := DRIVER_WORDS;
    assert w[16] == "if" && w[17] == "elif" && w[18] == "else" && w[2] == "for" && w[5] == "read";
    assert SIGNAL_WORDS[0] == "in" && TYPE_WORDS[4] == "u32";
    KeyLexes("if");
    KeyLexes("elif");
    KeyLexes("else");
    KeyLexes("for");
    KeyLexes("in");
    KeyLexes("read");
    KeyLexes("u32");
  }

  /** The keywords of a driver. */
  lemma DriverKeysLex()
    ensures Lexes(Key("driver")) && Lexes(Key("probe")) && Lexes(Key("remove")) && Lexes(Key("on"))
    ensures Lexes(Key("write")) && Lexes(Key("signal")) && Lexes(Key("power")) && Lexes(Key("timeout"))
  {
    hide Lexes, Key;
    var w := DRIVER_WORDS;
    assert w[1] == "driver" && w[3] == "probe" && w[4] == "remove" && w[6] == "write" && w[7] == "signal" && w[8] == "timeout";
    assert SIGNAL_WORDS[12] == "on" && DEVICE_WORDS[8] == "power";
    KeyLexes("driver");
    KeyLexes("probe");
    KeyLexes("remove");
    KeyLexes("on");
    KeyLexes("write");
    KeyLexes("signal");
    KeyLexes("power");
    KeyLexes("timeout");
  }

  /** The keywords of the blocks of a device. */
  lemma DeviceKeysLex()
    ensures Lexes(Key("device")) && Lexes(Key("class"))
    ensures Lexes(Key("registers")) && Lexes(Key("signals")) && Lexes(Key("capabilities")) && Lexes(Key("config"))
  {
    hide Lexes, Key;
    var w := DEVICE_WORDS;
    assert w[3] == "device" && w[4] == "class" && w[5] == "registers" && w[6] == "signals";
    assert w[7] == "capabilities" && w[9] == "config";
    KeyLexes("device");
    KeyLexes("class");
    KeyLexes("registers");
    KeyLexes("signals");
    KeyLexes("capabilities");
    KeyLexes("config");
  }

  /** The keywords of a register. */
  lemma RegisterKeysLex()
    ensures Lexes(Key("bitfield")) && Lexes(Key("ro")) && Lexes(Key("wo")) && Lexes(Key("rw")) && Lexes(Key("rc"))
    ensures Lexes(Key("u8")) && Lexes(Key("u16")) && Lexes(Key("u32")) && Lexes(Key("u64"))
  {
    hide Lexes, Key;
    var w, v := DEVICE_WORDS, TYPE_WORDS;
    assert w[10] == "bitfield" && w[11] == "ro" && w[12] == "wo" && w[13] == "rw" && w[14] == "rc";
    assert v[2] == "u8" && v[3] == "u16" && v[4] == "u32" && v[5] == "u64";
    KeyLexes("bitfield");
    KeyLexes("ro");
    KeyLexes("wo");
    KeyLexes("rw");
    KeyLexes("rc");
    KeyLexes("u8");
    KeyLexes("u16");
    KeyLexes("u32");
    KeyLexes("u64");
  }

  // ===== whole texts =====

  /** Tokens that lex to themselves, spaced out, lex to themselves. */
  lemma {:induction false} SpacedLexes(ts: seq<Lexeme>)
    requires AllLex(ts)
    ensures X.Lexemes(LexProofs.Spaced(ts + [X.EOF_LEXEME])) == X.Lexed(ts + [X.EOF_LEXEME], false)
    decreases |ts|
  {
    hide X.Next, X.Lexemes, Lexes, LexProofs.Spaced;
    if ts != [] {
      var l, rest := ts[0], ts[1..] + [X.EOF_LEXEME];
      assert ts + [X.EOF_LEXEME] == [l] + rest && l in ts;
      SpacedLexes(ts[1..]);
      var tail := if |rest| == 1 then "" else " " + LexProofs.Spaced(rest);
      SpacedStep(l, rest);
      LexesIs(l, tail);
      SpaceLexes(tail, LexProofs.Spaced(rest));
      LexStep(l, tail);
    } else {
      NothingLexes();
      assert ts + [X.EOF_LEXEME] == [X.EOF_LEXEME];
    }
  }

  lemma SpacedStep(l: Lexeme, rest: seq<Lexeme>)
    requires rest != []
    ensures LexProofs.Spaced([l] + rest) == l.text + if |rest| == 1 then "" else " " + LexProofs.Spaced(rest)
    ensures |rest| == 1 ==> LexProofs.Spaced(rest) == ""
  {
    assert ([l] + rest)[1..] == rest;
  }

  lemma NothingLexes()
    ensures LexProofs.Spaced([X.EOF_LEXEME]) == "" && X.Lexemes("") == X.Lexed([X.EOF_LEXEME], false)
  {
  }

  lemma LexStep(l: Lexeme, tail: string)
    requires l.text != "" && X.Next(l.text + tail) == X.Found(l)
    ensures X.Lexemes(l.text + tail) == X.Lexed([l] + X.Lexemes(tail).toks, X.Lexemes(tail).err)
  {
    hide X.Next;
    assert (l.text + tail)[|l.text|..] == tail;
  }

  lemma LexesIs(l: Lexeme, tail: string)
    requires Lexes(l) && (tail == "" || tail[0] == ' ')
    ensures l.text != "" && X.Next(l.text + tail) == X.Found(l)
  {
  }

  lemma SpaceLexes(tail: string, s: string)
    requires tail == " " + s || (tail == "" && s == "")
    ensures X.Lexemes(tail) == X.Lexemes(s)
  {
    if tail != "" {
      assert X.Next(tail) == X.Skip(1, false) && tail[1..] == s;
    }
  }
}
