/** The imperative lexer (compiler/lexer.c, `lexer_t` and `kdal_lex`). */
module Lexer {
  import opened Numerals
  import opened Tokens
  import opened LexSpec

  lemma StringRestStep(src: string, p: nat)
    requires p <= |src|
    ensures var r := StringRest(src[p..]);
            if p == |src| then r == Scan(0, true)
            else if src[p] == '"' then r == Scan(1, true)
            else if src[p] == '\n' then r == Scan(0, false)
            else if src[p] == '\\' && p + 1 == |src| then r == Scan(1, true)
            else var k := if src[p] == '\\' then 2 else 1;
                 r == Scan(k + StringRest(src[p+k..]).n, StringRest(src[p+k..]).ok)
  {
    if p < |src| {
      assert src[p..][1..] == src[p+1..];
      assert p + 1 < |src| ==> src[p..][2..] == src[p+2..];
    }
  }

  class Lexer {
    const src: string
    var pos: nat
    var line: nat
    var col: nat
    var tokens: seq<Token>
    var hadError: bool

    ghost predicate Valid()
      reads this
    {
      pos <= |src| && line == Line(src, pos) && col == Col(src, pos)
    }

    constructor (text: string)
      ensures Valid() && src == text && pos == 0 && tokens == [] && !hadError
    {
      src := text;
      pos, line, col, tokens, hadError := 0, 1, 1, [], false;
    }

    function Cur(): char
      reads this
    {
      if pos < |src| then src[pos] else '\0'
    }

    function Peek(ahead: nat): char
      reads this
    {
      if pos + ahead < |src| then src[pos + ahead] else '\0'
    }

    method Advance()
      requires Valid()
      modifies this`pos, this`line, this`col
      ensures Valid() && pos == if old(pos) < |src| then old(pos) + 1 else old(pos)
    {
      if pos < |src| {
        if src[pos] == '\n' {
          line, col := line + 1, 1;
        } else {
          col := col + 1;
        }
        pos := pos + 1;
      }
    }

    /** Skip the characters of one class: the shared shape of the scanning loops. */
    method SkipClass(k: Class)
      requires Valid()
      modifies this`pos, this`line, this`col
      ensures Valid() && pos == old(pos) + Span(src[old(pos)..], k)
    {
      while pos < |src| && In(Cur(), k)
        invariant Valid() && old(pos) <= pos
        invariant pos - old(pos) + Span(src[pos..], k) == Span(src[old(pos)..], k)
        decreases |src| - pos
      {
        assert src[pos..][1..] == src[pos+1..];
        Advance();
      }
    }

    method SkipBlockComment()
      requires Valid()
      modifies this`pos, this`line, this`col, this`hadError
      ensures Valid()
      ensures var r := CommentRest(src[old(pos)..]);
              pos == old(pos) + r.n && hadError == (old(hadError) || !r.ok)
    {
      while pos < |src|
        invariant Valid() && old(pos) <= pos && hadError == old(hadError)
        invariant var r, r0 := CommentRest(src[pos..]), CommentRest(src[old(pos)..]);
                  pos - old(pos) + r.n == r0.n && r.ok == r0.ok
        decreases |src| - pos
      {
        assert src[pos..][1..] == src[pos+1..];
        if Cur() == '*' && Peek(1) == '/' {
          Advance();
          Advance();
          return;
        }
        Advance();
      }
      hadError := true;
    }

    method LexIdent()
      requires Valid() && pos < |src|
      modifies this
      ensures Valid() && hadError == old(hadError)
      ensures var n := Span(src[old(pos)..], IdentChar);
              pos == old(pos) + n &&
              tokens == old(tokens) + [TokenAt(src, old(pos), IdentLexeme(src[old(pos)..][..n]))]
    {
      var start, sline, scol := pos, line, col;
      SkipClass(IdentChar);
      assert src[start..pos] == src[start..][..pos - start];
      var k := ClassifyIdent(src[start..pos]);
      tokens := tokens + [Token(Lexeme(k, src[start..pos], if k.BoolTrue? then 1 else 0), start, sline, scol)];
    }

    method LexNumber()
      requires Valid() && pos < |src| && IsDigit(src[pos])
      modifies this
      ensures Valid() && hadError == old(hadError)
      ensures var l := NumberLexeme(src[old(pos)..]);
              pos == old(pos) + |l.text| && tokens == old(tokens) + [TokenAt(src, old(pos), l)]
    {
      hide LexSpec.Strtoll, LexSpec.Span, LexSpec.Line, LexSpec.Col;
      var start, sline, scol := pos, line, col;
      var c0, c1 := Cur(), Peek(1);
      ghost var rest := src[start..];
      var kind, base, skip := Int, 10, 0;
      if c0 == '0' && (c1 == 'x' || c1 == 'X') {
        kind, base, skip := Hex, 16, 2;
      } else if c0 == '0' && (c1 == 'b' || c1 == 'B') {
        kind, base, skip := BinLit, 2, 2;
      }
      if skip == 2 {
        Advance();
        Advance();
        assert src[pos..] == rest[2..];
      }
      SkipClass(match kind case Hex => HexDigit case BinLit => BinDigit case _ => Digit);
      var text := src[start..pos];
      assert text == rest[..pos - start] == NumberLexeme(rest).text;
      tokens := tokens + [Token(Lexeme(kind, text, Strtoll(text[skip..], base)), start, sline, scol)];
    }

    method LexString()
      requires Valid() && pos < |src| && src[pos] == '"'
      modifies this
      ensures Valid()
      ensures var r := StringRest(src[old(pos)+1..]);
              && pos == old(pos) + 1 + r.n
              && hadError == (old(hadError) || !r.ok)
              && tokens == old(tokens) + if r.ok
                   then [TokenAt(src, old(pos), Lexeme(Str, src[old(pos)..][..1 + r.n], 0))] else []
    {
      hide LexSpec.StringRest, LexSpec.Line, LexSpec.Col;
      var start, sline, scol := pos, line, col;
      Advance();
      ghost var whole := StringRest(src[start+1..]);
      StringRestStep(src, pos);
      while pos < |src|
        invariant Valid() && start < pos && hadError == old(hadError) && tokens == old(tokens)
        invariant var r := StringRest(src[pos..]);
                  pos - (start + 1) + r.n == whole.n && r.ok == whole.ok
        invariant pos == |src| ==> pos - (start + 1) == whole.n && whole.ok
        decreases |src| - pos
      {
        StringRestStep(src, pos);
        var c := Cur();
        if c == '"' {
          Advance();
          break;
        }
        if c == '\n' {
          hadError := true;
          return;
        }
        if c == '\\' {
          Advance();
        }
        Advance();
        StringRestStep(src, pos);
      }
      assert src[start..pos] == src[start..][..pos - start];
      tokens := tokens + [Token(Lexeme(Str, src[start..pos], 0), start, sline, scol)];
    }

    method EmitHere(k: Tok, n: nat)
      requires Valid() && pos + n <= |src| && n in {1, 2}
      modifies this
      ensures Valid() && hadError == old(hadError) && pos == old(pos) + n
      ensures tokens == old(tokens) + [TokenAt(src, old(pos), Lexeme(k, src[old(pos)..][..n], 0))]
    {
      assert src[pos..pos + n] == src[pos..][..n];
      tokens := tokens + [Token(Lexeme(k, src[pos..pos + n], 0), pos, line, col)];
      Advance();
      if n == 2 {
        Advance();
      }
    }

    /** One turn of the main loop. */
    method Turn()
      requires Valid() && pos < |src|
      modifies this
      ensures Valid()
      ensures var t := Next(src[old(pos)..]);
              && pos == old(pos) + t.Len()
              && hadError == (old(hadError) || (t.Skip? && t.bad))
              && tokens == old(tokens) + if t.Found? then [TokenAt(src, old(pos), t.lex)] else []
    {
      var c, c1 := Cur(), Peek(1);
      ghost var rest := src[pos..];
      assert rest[0] == c && (|rest| > 1 ==> rest[1] == c1);
      if IsSpace(c) {
        Advance();
      } else if c == '/' && (c1 == '/' || c1 == '*') {
        Advance();
        Advance();
        assert src[pos..] == rest[2..];
        if c1 == '/' {
          SkipClass(NotNewline);
        } else {
          SkipBlockComment();
        }
      } else if IsIdentStart(c) {
        LexIdent();
      } else if IsDigit(c) {
        LexNumber();
      } else if c == '"' {
        assert src[pos+1..] == rest[1..];
        LexString();
      } else if !Two(c, c1).EOF? {
        EmitHere(Two(c, c1), 2);
      } else if !One(c).EOF? {
        EmitHere(One(c), 1);
      } else {
        hadError := true;
        Advance();
      }
    }

    /** The main loop and the final EOF token. */
    method Lex()
      requires Valid() && pos == 0 && tokens == [] && !hadError
      modifies this
      ensures Valid()
      ensures tokens == TokensFrom(src, 0).toks && hadError == TokensFrom(src, 0).err
    {
      hide Next;
      while pos < |src|
        invariant Valid()
        invariant tokens + TokensFrom(src, pos).toks == TokensFrom(src, 0).toks
        invariant (hadError || TokensFrom(src, pos).err) == TokensFrom(src, 0).err
        decreases |src| - pos
      {
        Turn();
      }
      tokens := tokens + [Token(EOF_LEXEME, pos, line, col)];
    }
  }

  /** kdal_lex: the tokens of a source buffer, and whether any diagnostic was issued
      (the sign of the returned count). */
  method KdalLex(src: string) returns (toks: seq<Token>, err: bool)
    ensures toks == TokensFrom(src, 0).toks && err == TokensFrom(src, 0).err
  {
    var lx := new Lexer(src);
    lx.Lex();
    return lx.tokens, lx.hadError;
  }
}
