/** The lexer is lossless and canonical. */
module LexProofs {
  import opened Numerals
  import opened Tokens
  import opened LexSpec
  import opened Seqs

  // ===== lossless =====

  /** `src[p..q]` is one piece of layout: a whitespace character, a line comment up to
      its newline or the end of the text, or a whole block comment. */
  ghost predicate Piece(src: string, p: nat, q: nat)
    requires p < q <= |src|
  {
    || (q == p + 1 && IsSpace(src[p]))
    || (&& q >= p + 2 && src[p] == '/' && src[p+1] == '/'
        && (forall i :: p <= i < q ==> src[i] != '\n')
        && (q == |src| || src[q] == '\n'))
    || (&& q >= p + 4 && src[p] == '/' && src[p+1] == '*' && src[q-2] == '*' && src[q-1] == '/'
        && forall i :: p + 2 <= i < q - 2 ==> !(src[i] == '*' && src[i+1] == '/'))
  }

  /** `src[p..q]` is layout only. */
  ghost predicate Layout(src: string, p: nat, q: nat)
    requires p <= q <= |src|
    decreases q - p
  {
    p == q || exists m :: p < m <= q && Piece(src, p, m) && Layout(src, m, q)
  }

  /** `t` sits in `src` at its recorded place. */
  ghost predicate Placed(src: string, t: Token) {
    && t.End() <= |src|
    && src[t.start..t.End()] == t.lex.text
    && t.line == 1 + multiset(src[..t.start])['\n']
    && 1 <= t.col <= t.start + 1
    && (forall i :: t.start - (t.col - 1) <= i < t.start ==> src[i] != '\n')
    && (t.col == t.start + 1 || src[t.start - t.col] == '\n')
  }

  /** `toks` covers `src[p..]`: in order, disjoint, only layout between them, and one
      EOF, the last, at the very end. */
  ghost predicate Covers(src: string, p: nat, toks: seq<Token>)
    requires p <= |src|
    decreases |toks|
  {
    && toks != []
    && Placed(src, toks[0])
    && p <= toks[0].start
    && Layout(src, p, toks[0].start)
    && if |toks| == 1 then toks[0].lex == EOF_LEXEME && toks[0].start == |src|
       else !toks[0].lex.kind.EOF? && toks[0].lex.text != "" && Covers(src, toks[0].End(), toks[1..])
  }

  lemma {:induction false} LineCounts(src: string, p: nat)
    requires p <= |src|
    ensures Line(src, p) == 1 + multiset(src[..p])['\n']
  {
    if p > 0 {
      LineCounts(src, p - 1);
      assert src[..p] == src[..p-1] + [src[p-1]];
    }
  }

  lemma {:induction false} ColMeasures(src: string, p: nat)
    requires p <= |src|
    ensures var c := Col(src, p);
            && c <= p + 1
            && (forall i :: p - (c - 1) <= i < p ==> src[i] != '\n')
            && (c == p + 1 || src[p - c] == '\n')
  {
    if p > 0 && src[p-1] != '\n' {
      ColMeasures(src, p - 1);
    }
  }

  lemma PlacedAt(src: string, p: nat, l: Lexeme)
    requires p <= |src| && l.text <= src[p..]
    ensures Placed(src, TokenAt(src, p, l))
  {
    LineCounts(src, p);
    ColMeasures(src, p);
    assert src[p..p + |l.text|] == src[p..][..|l.text|];
  }

  lemma {:induction false} CommentEnds(s: string)
    ensures var r := CommentRest(s);
            r.ok ==> r.n >= 2 && s[r.n-2] == '*' && s[r.n-1] == '/' &&
                     forall i :: 0 <= i < r.n - 2 ==> !(s[i] == '*' && s[i+1] == '/')
  {
    if s != "" && !(s[0] == '*' && |s| > 1 && s[1] == '/') {
      CommentEnds(s[1..]);
      var n := CommentRest(s[1..]).n;
      assert forall i :: 1 <= i < |s| ==> s[i] == s[1..][i-1];
    }
  }

  lemma SkipIsPiece(src: string, p: nat)
    requires p < |src| && Next(src[p..]).Skip? && !Next(src[p..]).bad
    ensures Piece(src, p, p + Next(src[p..]).n)
  {
    var s := src[p..];
    var q := p + Next(s).n;
    if !IsSpace(s[0]) {
      assert forall i {:trigger src[i]} :: p + 2 <= i < |src| ==> src[i] == s[2..][i - p - 2];
      if s[1] == '/' {
        assert q < |src| ==> src[q] == s[2..][Span(s[2..], NotNewline)];
      } else {
        CommentEnds(s[2..]);
      }
    }
  }

  lemma {:induction false} CoversFrom(src: string, p: nat)
    requires p <= |src| && !TokensFrom(src, p).err
    ensures Covers(src, p, TokensFrom(src, p).toks)
    decreases |src| - p
  {
    hide Next, Line, Col, Piece, Placed;
    if p == |src| {
      PlacedAt(src, p, EOF_LEXEME);
    } else {
      match Next(src[p..])
      case Skip(n, bad) =>
        SkipIsPiece(src, p);
        CoversFrom(src, p + n);
      case Found(l) =>
        PlacedAt(src, p, l);
        CoversFrom(src, p + |l.text|);
        assert TokensFrom(src, p).toks[1..] == TokensFrom(src, p + |l.text|).toks;
    }
  }

  /** On error-free input the tokens and the layout between them are the whole text. */
  lemma LexerIsLossless(src: string)
    requires !TokensFrom(src, 0).err
    ensures Covers(src, 0, TokensFrom(src, 0).toks)
  {
    CoversFrom(src, 0);
  }

  /** Dropping positions from the tokens gives the lexemes of the text. */
  function Strip(toks: seq<Token>): (r: seq<Lexeme>)
    ensures |r| == |toks|
    ensures forall i :: 0 <= i < |r| ==> r[i] == toks[i].lex
  {
    seq(|toks|, i requires 0 <= i < |toks| => toks[i].lex)
  }

  lemma StripCons(t: Token, ts: seq<Token>)
    ensures Strip([t] + ts) == [t.lex] + Strip(ts)
  {
  }

  /** One turn of both. */
  lemma TurnOfTokens(src: string, p: nat)
    requires p < |src|
    ensures var n, r := Next(src[p..]), TokensFrom(src, p + Next(src[p..]).Len());
            && (n.Skip? ==> TokensFrom(src, p) == Lexed(r.toks, n.bad || r.err))
            && (n.Found? ==> TokensFrom(src, p) == Lexed([TokenAt(src, p, n.lex)] + r.toks, r.err))
  {
    hide Next, Line, Col;
  }

  lemma TurnOfLexemes(s: string)
    requires s != ""
    ensures var n, r := Next(s), Lexemes(s[Next(s).Len()..]);
            && (n.Skip? ==> Lexemes(s) == Lexed(r.toks, n.bad || r.err))
            && (n.Found? ==> Lexemes(s) == Lexed([n.lex] + r.toks, r.err))
  {
    hide Next;
  }

  lemma {:induction false} TokensAreLexemes(src: string, p: nat)
    requires p <= |src|
    ensures Strip(TokensFrom(src, p).toks) == Lexemes(src[p..]).toks
    ensures TokensFrom(src, p).err == Lexemes(src[p..]).err
    decreases |src| - p
  {
    hide Next, Line, Col, TokensFrom, Lexemes, Strip;
    if p < |src| {
      var s, n := src[p..], Next(src[p..]);
      TurnOfTokens(src, p);
      TurnOfLexemes(s);
      assert s[n.Len()..] == src[p + n.Len()..];
      TokensAreLexemes(src, p + n.Len());
      if n.Found? {
        StripCons(TokenAt(src, p, n.lex), TokensFrom(src, p + n.Len()).toks);
      }
    } else {
      EndOfText(src);
      assert src[p..] == "";
    }
  }

  lemma EndOfText(src: string)
    ensures Strip(TokensFrom(src, |src|).toks) == Lexemes("").toks
    ensures !TokensFrom(src, |src|).err && !Lexemes("").err
  {
    hide Next, Line, Col;
  }

  // ===== canonical =====

  lemma {:induction false} SpanIs(a: string, tail: string, k: Class)
    requires forall i :: 0 <= i < |a| ==> In(a[i], k)
    requires tail == "" || !In(tail[0], k)
    ensures Span(a + tail, k) == |a|
  {
    if a == "" {
      assert a + tail == tail;
    } else {
      assert (a + tail)[1..] == a[1..] + tail;
      SpanIs(a[1..], tail, k);
    }
  }

  /** A string literal is read the same whatever follows it, unless it ran into the
      end of the text. */
  lemma {:induction false} StringIs(s: string, tail: string)
    requires StringRest(s).ok
    requires StringRest(s).n < |s| || tail == ""
    ensures StringRest(s[..StringRest(s).n] + tail) == StringRest(s)
  {
    var n := StringRest(s).n;
    if s == "" || s[0] == '"' {
    } else {
      var k := if s[0] == '\\' then 2 else 1;
      if k <= |s| {
        StringIs(s[k..], tail);
        assert (s[..n] + tail)[k..] == s[k..][..n-k] + tail;
      }
    }
  }

  lemma RelexNumber(s: string, tail: string)
    requires s != "" && IsDigit(s[0])
    requires tail == "" || tail[0] == ' '
    ensures NumberLexeme(NumberLexeme(s).text + tail) == NumberLexeme(s)
  {
    hide LexSpec.Span, LexSpec.Strtoll;
    var l := NumberLexeme(s);
    var t := l.text + tail;
    assert t[..|l.text|] == l.text;
    assert t[0] == s[0] && (|t| > 1 ==> t[1] == if |l.text| > 1 then s[1] else ' ');
    if l.kind.Int? {
      SpanIs(l.text, tail, Digit);
    } else {
      var k := if l.kind.Hex? then HexDigit else BinDigit;
      assert l.text[2..] == s[2..][..Span(s[2..], k)];
      SpanIs(l.text[2..], tail, k);
      DropAppend(l.text, tail, 2);
    }
  }

  lemma RelexPunctuation(s: string, tail: string)
    requires s != "" && Next(s).Found? && !IsIdentStart(s[0]) && !IsDigit(s[0]) && s[0] != '"'
    requires tail == "" || tail[0] == ' '
    ensures Next(Next(s).lex.text + tail) == Next(s)
  {
    hide LexSpec.CommentRest, LexSpec.StringRest, LexSpec.Span, LexSpec.NumberLexeme;
    var l := Next(s).lex;
    var t := l.text + tail;
    assert t[0] == s[0] && t[..|l.text|] == l.text;
    if |l.text| == 1 {
      assert |t| > 1 ==> t[1] == ' ';
    } else {
      assert t[1] == s[1];
    }
  }

  lemma RelexString(s: string, tail: string)
    requires s != "" && Next(s).Found? && s[0] == '"'
    requires tail == "" || |Next(s).lex.text| < |s|
    ensures Next(Next(s).lex.text + tail) == Next(s)
  {
    var l := Next(s).lex;
    var t := l.text + tail;
    StringIs(s[1..], tail);
    DropAppend(l.text, tail, 1);
    assert l.text[1..] == s[1..][..|l.text| - 1];
    assert t[..|l.text|] == l.text;
  }

  /** A token's text followed by a space or by nothing lexes to that token again. */
  lemma Relex(s: string, tail: string)
    requires s != "" && Next(s).Found?
    requires tail == "" || (tail[0] == ' ' && |Next(s).lex.text| < |s|)
    ensures Next(Next(s).lex.text + tail) == Next(s)
  {
    hide LexSpec.CommentRest, LexSpec.StringRest, LexSpec.NumberLexeme;
    var l := Next(s).lex;
    var t := l.text + tail;
    if IsIdentStart(s[0]) {
      SpanIs(l.text, tail, IdentChar);
      assert t[..|l.text|] == l.text && t[0] == s[0];
    } else if IsDigit(s[0]) {
      RelexNumber(s, tail);
      assert t[0] == s[0];
    } else if s[0] == '"' {
      RelexString(s, tail);
    } else {
      RelexPunctuation(s, tail);
    }
  }

  /** The token texts joined by single spaces; the final EOF has no text of its own. */
  function Spaced(toks: seq<Lexeme>): string
  {
    if |toks| <= 1 then ""
    else if |toks| == 2 then toks[0].text
    else toks[0].text + " " + Spaced(toks[1..])
  }

  /** Lexing the spaced-out token texts gives the same kinds and texts, and the same values
      as LexSpec assigns them. (For a literal with no digits behind its prefix the code's own
      conversion reads on past the token, so there its value depends on what follows.) */
  lemma {:induction false} LexingIsCanonical(s: string)
    requires !Lexemes(s).err
    ensures Lexemes(Spaced(Lexemes(s).toks)) == Lexemes(s)
    decreases |s|
  {
    if s != "" {
      match Next(s)
      case Skip(n, bad) =>
        LexingIsCanonical(s[n..]);
      case Found(l) =>
        var rest := s[|l.text|..];
        var r := Lexemes(rest).toks;
        LexingIsCanonical(rest);
        assert ([l] + r)[1..] == r;
        var tail := if |r| == 1 then "" else " " + Spaced(r);
        assert Spaced([l] + r) == l.text + tail;
        Relex(s, tail);
        assert (l.text + tail)[|l.text|..] == tail;
        if |r| > 1 {
          assert tail[1..] == Spaced(r);
        } else {
          assert Lexemes("").toks == r;
        }
    }
  }
}
