/** Declarations spelled in a token array are read there, without an error, as what they
    declare (compiler/parser.c). */
module DeclReads {
  import opened Wrappers
  import opened Tokens
  import opened ParseSpec
  import opened StmtSpec
  import opened Grammar
  import opened StmtGrammar
  import opened TokenText
  import opened DeclGrammar
  import opened StmtText
  import opened DeclSpec
  import opened Sema
  import A = Ast
  import DeclProofs
  import StmtProofs

  function Plus(c: Cursor, n: nat): Cursor { Cursor(c.pos + n, c.err) }

  // ===== tokens =====

  /** The cursor at a token that is not the end. */
  lemma Begin(t: seq<Lexeme>, c: Cursor, l: Lexeme, rest: seq<Lexeme>)
    requires Stands(t, c.pos, [l] + rest) && NotEnd(l)
    ensures In(t, c) && t[c.pos] == l && Stands(t, c.pos + 1, rest)
    ensures Skip(t, c) == Plus(c, 1) && Want(t, c, l.kind) == Plus(c, 1)
  {
    Split(t, c.pos, [l], rest);
    First(t, c.pos, [l]);
  }

  lemma BeginTwo(t: seq<Lexeme>, c: Cursor, l: Lexeme, m: Lexeme, rest: seq<Lexeme>)
    requires Stands(t, c.pos, [l, m] + rest) && NotEnd(l) && NotEnd(m)
    ensures In(t, c) && t[c.pos] == l && Stands(t, c.pos + 2, rest)
    ensures Skip(t, c) == Plus(c, 1) && Want(t, c, l.kind) == Plus(c, 1)
    ensures In(t, Plus(c, 1)) && t[c.pos + 1] == m
    ensures Skip(t, Plus(c, 1)) == Plus(c, 2) && Want(t, Plus(c, 1), m.kind) == Plus(c, 2)
  {
    hide Stands, DeclSpec.Skip, DeclSpec.Want, DeclSpec.In;
    assert [l, m] + rest == [l] + ([m] + rest);
    Begin(t, c, l, [m] + rest);
    Begin(t, Plus(c, 1), m, rest);
  }

  lemma BeginThree(t: seq<Lexeme>, c: Cursor, l: Lexeme, m: Lexeme, n: Lexeme, rest: seq<Lexeme>)
    requires Stands(t, c.pos, [l, m, n] + rest) && NotEnd(l) && NotEnd(m) && NotEnd(n)
    ensures In(t, c) && t[c.pos] == l && Stands(t, c.pos + 3, rest)
    ensures Skip(t, c) == Plus(c, 1) && Want(t, c, l.kind) == Plus(c, 1)
    ensures In(t, Plus(c, 1)) && t[c.pos + 1] == m
    ensures Skip(t, Plus(c, 1)) == Plus(c, 2) && Want(t, Plus(c, 1), m.kind) == Plus(c, 2)
    ensures In(t, Plus(c, 2)) && t[c.pos + 2] == n
    ensures Skip(t, Plus(c, 2)) == Plus(c, 3) && Want(t, Plus(c, 2), n.kind) == Plus(c, 3)
  {
    hide Stands, DeclSpec.Skip, DeclSpec.Want, DeclSpec.In;
    assert [l, m, n] + rest == [l, m] + ([n] + rest);
    BeginTwo(t, c, l, m, [n] + rest);
    Begin(t, Plus(c, 2), n, rest);
  }

  lemma Inside(t: seq<Lexeme>, c: Cursor, ts: seq<Lexeme>)
    requires Stands(t, c.pos, ts)
    ensures In(t, c) && c.pos + |ts| < |t|
  {
  }

  /** A piece and what comes behind it. */
  lemma Cut(t: seq<Lexeme>, c: Cursor, a: seq<Lexeme>, b: seq<Lexeme>)
    requires Stands(t, c.pos, a + b) && b != []
    ensures Stands(t, c.pos, a) && Stands(t, Plus(c, |a|).pos, b) && In(t, c) && In(t, Plus(c, |a|))
    ensures Behind(t, c.pos, a) == b[0].kind && t[c.pos + |a|] == b[0]
  {
    Split(t, c.pos, a, b);
    First(t, c.pos + |a|, b);
  }

  // ===== pieces =====

  lemma ExprReads(t: seq<Lexeme>, c: Cursor, e: Cst)
    requires Proper(e) && Stands(t, c.pos, Yield(e)) && EndsExpr(Behind(t, c.pos, Yield(e)))
    ensures In(t, c) && PastExpr(t, c) == Plus(c, |Yield(e)|)
  {
    hide ParseSpec.Climb, ParseSpec.Prec;
    assert 1 <= Level(e);
    ClimbComplete(e, t, c.pos, 1);
  }

  lemma InitReads(t: seq<Lexeme>, c: Cursor, e: Option<Cst>)
    requires ProperOr(e) && Stands(t, c.pos, Init(e))
    requires EndsExpr(Behind(t, c.pos, Init(e))) && !Behind(t, c.pos, Init(e)).Eq?
    ensures In(t, c) && PastDefault(t, c) == Plus(c, |Init(e)|)
  {
    hide Stands, DeclSpec.Skip, DeclSpec.Want, DeclSpec.In, DeclSpec.PastExpr, EndsExpr, Grammar.Yield, Proper;
    Inside(t, c, Init(e));
    if e.Some? {
      Begin(t, c, EQUALS, Yield(e.value));
      ExprReads(t, Plus(c, 1), e.value);
    }
  }

  /** An expression and the token that ends it. */
  lemma ExprThen(t: seq<Lexeme>, c: Cursor, e: Cst, l: Lexeme, rest: seq<Lexeme>)
    requires Proper(e) && Stands(t, c.pos, Yield(e) + ([l] + rest)) && NotEnd(l) && EndsExpr(l.kind)
    ensures In(t, c) && PastExpr(t, c) == Plus(c, |Yield(e)|) && In(t, Plus(c, |Yield(e)|))
    ensures Want(t, Plus(c, |Yield(e)|), l.kind) == Plus(c, |Yield(e)| + 1) && t[c.pos + |Yield(e)|] == l
    ensures Stands(t, c.pos + |Yield(e)| + 1, rest)
  {
    hide Stands, DeclSpec.Skip, DeclSpec.Want, DeclSpec.In, DeclSpec.PastExpr, Grammar.Yield, Proper, EndsExpr, Behind;
    Cut(t, c, Yield(e), [l] + rest);
    ExprReads(t, c, e);
    Begin(t, Plus(c, |Yield(e)|), l, rest);
  }

  /** An optional default and the semicolon. */
  lemma InitThen(t: seq<Lexeme>, c: Cursor, e: Option<Cst>)
    requires ProperOr(e) && Stands(t, c.pos, Init(e) + [SEMICOLON])
    ensures In(t, c) && PastDefault(t, c) == Plus(c, |Init(e)|) && In(t, Plus(c, |Init(e)|))
    ensures Want(t, Plus(c, |Init(e)|), Semicolon) == Plus(c, |Init(e)| + 1)
  {
    hide Stands, DeclSpec.Skip, DeclSpec.Want, DeclSpec.In, DeclSpec.PastDefault, ProperOr, EndsExpr, Behind, Init;
    Cut(t, c, Init(e), [SEMICOLON]);
    CommaEnds();
    InitReads(t, c, e);
    assert [SEMICOLON] + [] == [SEMICOLON];
    Begin(t, Plus(c, |Init(e)|), SEMICOLON, []);
  }

  lemma LiteralReads(t: seq<Lexeme>, c: Cursor, l: Option<Lexeme>)
    requires NumOr(l) && Stands(t, c.pos, Literal(l))
    requires !Behind(t, c.pos, Literal(l)).Int? && !Behind(t, c.pos, Literal(l)).Hex?
    ensures In(t, c) && PastLiteral(t, c) == Plus(c, |Literal(l)|)
  {
    hide Stands, DeclSpec.Skip, DeclSpec.Want, DeclSpec.In;
    Inside(t, c, Literal(l));
    if l.Some? {
      assert [l.value] + [] == [l.value];
      Begin(t, c, l.value, []);
    }
  }

  lemma OffsetReads(t: seq<Lexeme>, c: Cursor, at: Option<Lexeme>)
    requires NumOr(at) && Stands(t, c.pos, Offset(at)) && !Behind(t, c.pos, Offset(at)).At?
    ensures In(t, c) && PastOffset(t, c) == Plus(c, |Offset(at)|)
  {
    hide Stands, DeclSpec.Skip, DeclSpec.Want, DeclSpec.In;
    Inside(t, c, Offset(at));
    if at.Some? {
      assert [AT, at.value] + [] == [AT, at.value];
      BeginTwo(t, c, AT, at.value, []);
    }
  }

  predicate NoAccess(k: Tok) { k != Kw("ro") && k != Kw("wo") && k != Kw("rw") && k != Kw("rc") }

  lemma QualifierReads(t: seq<Lexeme>, c: Cursor, a: Option<Access>)
    requires Stands(t, c.pos, Qualifier(a)) && NoAccess(Behind(t, c.pos, Qualifier(a)))
    ensures In(t, c) && PastAccess(t, c) == Plus(c, |Qualifier(a)|) && AccessOf(Kind(t, c)) == AccessMeant(a)
  {
    hide Stands, DeclSpec.Skip, DeclSpec.Want, DeclSpec.In;
    Inside(t, c, Qualifier(a));
    if a.Some? {
      assert Qualifier(a) + [] == Qualifier(a);
      Begin(t, c, Key(AccessWord(a.value)), []);
    }
  }

  // ===== members =====

  /** The conversion of a literal is to the 32-bit int that agrees with it modulo 2^32. */
  lemma ToIntIs(v: int, i: int)
    ensures IsInt32(v, i) <==> ToInt(v) == i
  {
  }

  lemma BitsRead(t: seq<Lexeme>, c: Cursor, m: MemberForm)
    requires GoodBits(m.bits) && Stands(t, c.pos, BitsTokens(m.bits))
    requires Behind(t, c.pos, BitsTokens(m.bits)) in {Eq, Semicolon}
    ensures In(t, c)
    ensures BitRange(t, c) == Made(Range(MemberMeant(m).lo, MemberMeant(m).hi), Plus(c, |BitsTokens(m.bits)|))
  {
    hide Stands, DeclSpec.Skip, DeclSpec.Want, DeclSpec.In, DeclSpec.ToInt, IsInt32;
    var ts := BitsTokens(m.bits);
    Inside(t, c, ts);
    assert ts + [] == ts;
    match m.bits
    case NoBits =>
    case OneBit(n, i) =>
      Begin(t, c, n, []);
      ToIntIs(n.ival, i);
    case BitSpan(l, h, lo, hi) =>
      BeginThree(t, c, l, DOTS, h, []);
      ToIntIs(l.ival, lo);
      ToIntIs(h.ival, hi);
  }

  lemma InitBegins(e: Option<Cst>)
    ensures (Init(e) + [SEMICOLON])[0].kind in {Eq, Semicolon}
  {
  }

  lemma MemberReads(t: seq<Lexeme>, c: Cursor, m: MemberForm)
    requires Stands(t, c.pos, MemberTokens(m)) && GoodMember(m)
    ensures In(t, c) && Kind(t, c).Ident? && MemberAt(t, c) == Made(MemberMeant(m), Plus(c, |MemberTokens(m)|))
  {
    hide Stands, DeclSpec.Skip, DeclSpec.Want, DeclSpec.In, DeclSpec.BitRange, DeclSpec.PastDefault, BitsTokens, Init, GoodBits,
         ProperOr, Behind;
    var bits, init := BitsTokens(m.bits), Init(m.init);
    BeginTwo(t, c, Word(m.name), COLON, bits + (init + [SEMICOLON]));
    var d := Plus(c, 2);
    InitBegins(m.init);
    Cut(t, d, bits, init + [SEMICOLON]);
    BitsRead(t, d, m);
    var e := Plus(d, |bits|);
    InitThen(t, e, m.init);
    MemberText(m);
  }

  lemma MemberText(m: MemberForm)
    ensures |MemberTokens(m)| == 2 + |BitsTokens(m.bits)| + |Init(m.init)| + 1 && MemberMeant(m).name == m.name
  {
  }

  lemma {:induction false} MembersRead(t: seq<Lexeme>, c: Cursor, ms: seq<MemberForm>)
    requires Stands(t, c.pos, MembersTokens(ms)) && GoodMembers(ms)
    requires !Behind(t, c.pos, MembersTokens(ms)).Ident?
    ensures In(t, c) && Members(t, c) == Made(MembersMeant(ms), Plus(c, |MembersTokens(ms)|))
    decreases ms
  {
    hide Stands, DeclSpec.MemberAt, MemberTokens, GoodMember, DeclSpec.In, MemberMeant;
    Inside(t, c, MembersTokens(ms));
    if ms != [] {
      var first, rest := MemberTokens(ms[0]), MembersTokens(ms[1..]);
      Split(t, c.pos, first, rest);
      assert ms[0] in ms;
      MemberReads(t, c, ms[0]);
      MembersRead(t, Plus(c, |first|), ms[1..]);
    }
  }

  // ===== registers =====

  lemma WidthReads(width: int)
    requires width in {8, 16, 32, 64}
    ensures IsWidth(Kw(WidthWord(width))) && WidthOf(Kw(WidthWord(width))) == width
    ensures WidthWord(width) != "bitfield"
  {
  }

  /** What comes behind the offset of a register. */
  lemma QualifierBegins(a: Option<Access>, rest: seq<Lexeme>)
    requires rest != [] && rest[0].kind in {Eq, Semicolon, LBrace}
    ensures var k := (Qualifier(a) + rest)[0].kind; !k.At? && !k.Int? && !k.Hex? && !k.Colon?
    ensures NoAccess(rest[0].kind)
  {
  }

  lemma OffsetBegins(at: Option<Lexeme>, rest: seq<Lexeme>)
    requires rest != [] && NumOr(at)
    ensures (Offset(at) + rest) != []
  {
  }

  lemma CompactReads(t: seq<Lexeme>, c: Cursor, r: RegisterForm, simplified: bool)
    requires r.Compact? && Stands(t, c.pos, RegisterTokens(r)) && GoodRegister(r)
    ensures In(t, c) && Kind(t, c).Ident? && RegisterAt(t, c, simplified) == Made(RegisterMeant(r), Plus(c, |RegisterTokens(r)|))
  {
    hide Stands, DeclSpec.Skip, DeclSpec.Want, DeclSpec.In, DeclSpec.PastLiteral, DeclSpec.PastAccess, DeclSpec.AccessOf, Qualifier,
         Behind, NumOr, AccessMeant, NoAccess;
    var l, q := Literal(r.offset), Qualifier(r.access);
    Begin(t, c, Word(r.name), l + (q + [SEMICOLON]));
    var d := Plus(c, 1);
    QualifierBegins(r.access, [SEMICOLON]);
    Cut(t, d, l, q + [SEMICOLON]);
    LiteralReads(t, d, r.offset);
    LiteralIsNoColon(t, d, r.offset, q + [SEMICOLON]);
    var e := Plus(d, |l|);
    Cut(t, e, q, [SEMICOLON]);
    QualifierReads(t, e, r.access);
    assert [SEMICOLON] + [] == [SEMICOLON];
    Begin(t, Plus(e, |q|), SEMICOLON, []);
  }

  lemma LiteralIsNoColon(t: seq<Lexeme>, c: Cursor, l: Option<Lexeme>, rest: seq<Lexeme>)
    requires Stands(t, c.pos, Literal(l) + rest) && NumOr(l) && rest != [] && !rest[0].kind.Colon?
    ensures c.pos < |t| && !t[c.pos].kind.Colon?
  {
    First(t, c.pos, Literal(l) + rest);
  }

  /** Name, colon and a type. */
  lemma TypeReads(t: seq<Lexeme>, c: Cursor, name: string, ty: Lexeme, rest: seq<Lexeme>)
    requires Stands(t, c.pos, [Word(name), COLON, ty] + rest) && NotEnd(ty)
    ensures In(t, c) && t[c.pos] == Word(name) && !IsCompact(t, c, false)
    ensures TypeAt(t, c) == Plus(c, 2) && t[c.pos + 2] == ty && Skip(t, Plus(c, 2)) == Plus(c, 3)
    ensures In(t, Plus(c, 2)) && In(t, Plus(c, 3)) && Stands(t, c.pos + 3, rest)
  {
    hide Stands, DeclSpec.Skip, DeclSpec.Want, DeclSpec.In;
    BeginThree(t, c, Word(name), COLON, ty, rest);
    Inside(t, Plus(c, 3), rest);
  }

  /** Offset and access, and what comes behind them. */
  lemma PlaceReads(t: seq<Lexeme>, c: Cursor, at: Option<Lexeme>, a: Option<Access>, rest: seq<Lexeme>)
    requires Stands(t, c.pos, Offset(at) + (Qualifier(a) + rest)) && NumOr(at)
    requires rest != [] && rest[0].kind in {Eq, Semicolon, LBrace}
    ensures var d := Plus(c, |Offset(at)|);
            && In(t, c) && In(t, d) && PastOffset(t, c) == d && AccessOf(Kind(t, d)) == AccessMeant(a)
            && PastAccess(t, d) == Plus(d, |Qualifier(a)|) && Stands(t, d.pos + |Qualifier(a)|, rest)
  {
    hide Stands, DeclSpec.Skip, DeclSpec.Want, DeclSpec.In, DeclSpec.PastOffset, DeclSpec.PastAccess, DeclSpec.AccessOf, Offset,
         Qualifier, Behind, NumOr, AccessMeant, NoAccess;
    QualifierBegins(a, rest);
    Cut(t, c, Offset(at), Qualifier(a) + rest);
    OffsetReads(t, c, at);
    var d := Plus(c, |Offset(at)|);
    Cut(t, d, Qualifier(a), rest);
    QualifierReads(t, d, a);
  }

  lemma ScalarReads(t: seq<Lexeme>, c: Cursor, r: RegisterForm)
    requires r.Scalar? && Stands(t, c.pos, RegisterTokens(r)) && GoodRegister(r)
    ensures In(t, c) && Kind(t, c).Ident? && RegisterAt(t, c, false) == Made(RegisterMeant(r), Plus(c, |RegisterTokens(r)|))
  {
    hide Stands, DeclSpec.Skip, DeclSpec.Want, DeclSpec.In, DeclSpec.PastOffset, DeclSpec.PastAccess, DeclSpec.AccessOf, Offset,
         Qualifier, Init, WidthWord, DeclSpec.IsWidth, DeclSpec.WidthOf, DeclSpec.PastDefault, DeclSpec.IsCompact, DeclSpec.TypeAt,
         NumOr, ProperOr, AccessMeant;
    var o, q, i := Offset(r.at), Qualifier(r.access), Init(r.init) + [SEMICOLON];
    WidthReads(r.width);
    TypeReads(t, c, r.name, Key(WidthWord(r.width)), o + (q + i));
    InitBegins(r.init);
    PlaceReads(t, Plus(c, 3), r.at, r.access, i);
    InitThen(t, Plus(c, 3 + |o| + |q|), r.init);
  }

  lemma FieldsRead(t: seq<Lexeme>, c: Cursor, r: RegisterForm)
    requires r.Fields? && Stands(t, c.pos, RegisterTokens(r)) && GoodRegister(r)
    ensures In(t, c) && Kind(t, c).Ident? && RegisterAt(t, c, false) == Made(RegisterMeant(r), Plus(c, |RegisterTokens(r)|))
  {
    hide Stands, DeclSpec.Skip, DeclSpec.Want, DeclSpec.In, DeclSpec.PastOffset, DeclSpec.PastAccess, DeclSpec.AccessOf, Offset,
         Qualifier, DeclSpec.IsCompact, DeclSpec.TypeAt, DeclSpec.Members, MembersTokens, MembersMeant, GoodMembers,
         Behind, NumOr, AccessMeant;
    var o, q, ms := Offset(r.at), Qualifier(r.access), MembersTokens(r.members);
    var block := [LBRACE] + (ms + [RBRACE, SEMICOLON]);
    TypeReads(t, c, r.name, Key("bitfield"), o + (q + block));
    PlaceReads(t, Plus(c, 3), r.at, r.access, block);
    var f := Plus(c, 3 + |o| + |q|);
    Begin(t, f, LBRACE, ms + [RBRACE, SEMICOLON]);
    var g := Plus(f, 1);
    Cut(t, g, ms, [RBRACE, SEMICOLON]);
    MembersRead(t, g, r.members);
    assert [RBRACE, SEMICOLON] + [] == [RBRACE, SEMICOLON];
    BeginTwo(t, Plus(g, |ms|), RBRACE, SEMICOLON, []);
  }

  /** Wherever a register is spelled, in whatever form, it is read without an error, as the
      register the form declares. */
  lemma RegisterReads(t: seq<Lexeme>, c: Cursor, r: RegisterForm, simplified: bool)
    requires Stands(t, c.pos, RegisterTokens(r)) && GoodRegister(r) && (simplified ==> r.Compact?)
    ensures In(t, c) && Kind(t, c).Ident?
    ensures RegisterAt(t, c, simplified) == Made(RegisterMeant(r), Plus(c, |RegisterTokens(r)|))
  {
    hide Stands, RegisterTokens, DeclSpec.RegisterAt, RegisterMeant, DeclSpec.In;
    match r
    case Compact(_, _, _) => CompactReads(t, c, r, simplified);
    case Scalar(_, _, _, _, _) => ScalarReads(t, c, r);
    case Fields(_, _, _, _) => FieldsRead(t, c, r);
  }

  ghost predicate AllGood(rs: seq<RegisterForm>, simplified: bool) {
    forall r :: r in rs ==> GoodRegister(r) && (simplified ==> r.Compact?)
  }

  lemma {:induction false} RegistersRead(t: seq<Lexeme>, c: Cursor, rs: seq<RegisterForm>, simplified: bool)
    requires Stands(t, c.pos, RegistersTokens(rs)) && AllGood(rs, simplified)
    requires Behind(t, c.pos, RegistersTokens(rs)).RBrace?
    ensures In(t, c) && Registers(t, c, simplified) == Made(RegistersMeant(rs), Plus(c, |RegistersTokens(rs)|))
    decreases rs
  {
    hide Stands, DeclSpec.RegisterAt, RegisterTokens, GoodRegister, RegisterMeant, DeclSpec.In;
    Inside(t, c, RegistersTokens(rs));
    if rs != [] {
      var first, rest := RegisterTokens(rs[0]), RegistersTokens(rs[1..]);
      Split(t, c.pos, first, rest);
      assert rs[0] in rs;
      RegisterReads(t, c, rs[0], simplified);
      RegistersRead(t, Plus(c, |first|), rs[1..], simplified);
    }
  }

  // ===== the other declarations =====

  lemma DirectionReads(t: seq<Lexeme>, c: Cursor, d: Option<Direction>)
    requires Stands(t, c.pos, DirectionTokens(d)) && !Behind(t, c.pos, DirectionTokens(d)).Ident?
    requires Behind(t, c.pos, DirectionTokens(d)) != Kw("in")
    ensures In(t, c) && PastDirection(t, c) == Plus(c, |DirectionTokens(d)|)
  {
    hide Stands, DeclSpec.Skip, DeclSpec.In;
    var ts := DirectionTokens(d);
    Inside(t, c, ts);
    assert ts + [] == ts;
    if d.Some? {
      Begin(t, c, ts[0], []);
    }
  }

  /** `word ( what )`. */
  lemma CallReads(t: seq<Lexeme>, c: Cursor, word: string, what: string)
    requires Stands(t, c.pos, [Key(word), LPAREN, Key(what), RPAREN])
    ensures In(t, c) && Kind(t, c) == Kw(word)
    ensures Want(t, Skip(t, Want(t, Skip(t, c), LParen)), RParen) == Plus(c, 4)
  {
    hide Stands, DeclSpec.Skip, DeclSpec.Want, DeclSpec.In;
    var tail := [Key(what), RPAREN];
    assert [Key(word), LPAREN, Key(what), RPAREN] == [Key(word), LPAREN] + tail && tail == tail + [];
    BeginTwo(t, c, Key(word), LPAREN, tail);
    BeginTwo(t, Plus(c, 2), Key(what), RPAREN, []);
  }

  lemma TimeoutReads(t: seq<Lexeme>, c: Cursor, e: Cst)
    requires Proper(e) && Stands(t, c.pos, [Key("timeout"), LPAREN] + (Yield(e) + [RPAREN]))
    ensures In(t, c) && Kind(t, c) == Kw("timeout")
    ensures Want(t, Skip(t, c), LParen) == Plus(c, 2) && In(t, Plus(c, 2))
    ensures Want(t, PastExpr(t, Plus(c, 2)), RParen) == Plus(c, 2 + |Yield(e)| + 1)
  {
    hide Stands, DeclSpec.Skip, DeclSpec.Want, DeclSpec.In, DeclSpec.PastExpr, Grammar.Yield, Proper, EndsExpr;
    BeginTwo(t, c, Key("timeout"), LPAREN, Yield(e) + [RPAREN]);
    assert [RPAREN] + [] == [RPAREN];
    CommaEnds();
    ExprThen(t, Plus(c, 2), e, RPAREN, []);
  }

  lemma TriggerReads(t: seq<Lexeme>, c: Cursor, g: Option<Trigger>)
    requires Stands(t, c.pos, TriggerTokens(g)) && (g.Some? ==> GoodTrigger(g.value))
    requires Behind(t, c.pos, TriggerTokens(g)).Semicolon?
    ensures In(t, c) && PastTrigger(t, c) == Plus(c, |TriggerTokens(g)|)
  {
    hide Stands, DeclSpec.Skip, DeclSpec.Want, DeclSpec.In, DeclSpec.PastExpr, Grammar.Yield, Proper, Behind;
    var ts := TriggerTokens(g);
    Inside(t, c, ts);
    match g
    case None => BehindNothing(t, c.pos);
    case Some(Completion) =>
      assert ts + [] == ts;
      Begin(t, c, Key("completion"), []);
    case Some(OnEdge(w)) => CallReads(t, c, "edge", w);
    case Some(OnLevel(w)) => CallReads(t, c, "level", w);
    case Some(Timeout(e)) => TimeoutReads(t, c, e);
  }

  lemma BehindNothing(t: seq<Lexeme>, p: nat)
    requires Stands(t, p, [])
    ensures Behind(t, p, []) == t[p].kind
  {
  }

  lemma TriggerBegins(g: Option<Trigger>)
    ensures var k := (TriggerTokens(g) + [SEMICOLON])[0].kind; !k.Ident? && k != Kw("in")
  {
  }

  lemma SignalReads(t: seq<Lexeme>, c: Cursor, f: NamedForm)
    requires f.Signal? && Stands(t, c.pos, NamedTokens(f)) && GoodNamed(f)
    ensures In(t, c) && t[c.pos] == Word(f.name) && PastSignal(t, c) == Plus(c, |NamedTokens(f)|)
  {
    hide Stands, DeclSpec.Skip, DeclSpec.Want, DeclSpec.In, DirectionTokens, TriggerTokens, DeclSpec.PastTrigger,
         DeclSpec.PastDirection, Behind, GoodTrigger;
    if f.typed {
      var d, g := DirectionTokens(f.dir), TriggerTokens(f.trigger) + [SEMICOLON];
      BeginTwo(t, c, Word(f.name), COLON, d + g);
      TriggerBegins(f.trigger);
      Cut(t, Plus(c, 2), d, g);
      DirectionReads(t, Plus(c, 2), f.dir);
      var e := Plus(c, 2 + |d|);
      Cut(t, e, TriggerTokens(f.trigger), [SEMICOLON]);
      TriggerReads(t, e, f.trigger);
      assert [SEMICOLON] + [] == [SEMICOLON];
      Begin(t, Plus(e, |TriggerTokens(f.trigger)|), SEMICOLON, []);
    } else {
      assert [Word(f.name), SEMICOLON] + [] == [Word(f.name), SEMICOLON];
      BeginTwo(t, c, Word(f.name), SEMICOLON, []);
    }
  }

  lemma CapabilityReads(t: seq<Lexeme>, c: Cursor, f: NamedForm)
    requires f.Capability? && Stands(t, c.pos, NamedTokens(f)) && GoodNamed(f)
    ensures In(t, c) && t[c.pos] == Word(f.name) && PastCapability(t, c) == Plus(c, |NamedTokens(f)|)
  {
    hide Stands, NamedTokens, DeclSpec.In, DeclSpec.PastCapability;
    CapabilityText(f);
    if f.value.None? {
      BareCapability(t, c, f.name);
    } else {
      CapabilityValue(t, c, f.name, f.equals, f.value.value);
    }
  }

  lemma CapabilityText(f: NamedForm)
    requires f.Capability? && GoodNamed(f)
    ensures f.value.None? ==> NamedTokens(f) == [Word(f.name), SEMICOLON] + []
    ensures f.value.Some? ==>
      var value := Yield(f.value.value) + ([SEMICOLON] + []);
      Proper(f.value.value) && NamedTokens(f) == if f.equals then [Word(f.name), EQUALS] + value else [Word(f.name)] + value
  {
    hide Grammar.Yield, Proper;
  }

  lemma BareCapability(t: seq<Lexeme>, c: Cursor, name: string)
    requires Stands(t, c.pos, [Word(name), SEMICOLON] + [])
    ensures In(t, c) && t[c.pos] == Word(name) && PastCapability(t, c) == Plus(c, 2)
  {
    hide Stands, DeclSpec.Skip, DeclSpec.Want, DeclSpec.In, DeclSpec.PastExpr;
    BeginTwo(t, c, Word(name), SEMICOLON, []);
  }

  lemma CapabilityValue(t: seq<Lexeme>, c: Cursor, name: string, equals: bool, e: Cst)
    requires Proper(e)
    requires Stands(t, c.pos, (if equals then [Word(name), EQUALS] else [Word(name)]) + (Yield(e) + ([SEMICOLON] + [])))
    ensures In(t, c) && t[c.pos] == Word(name)
    ensures PastCapability(t, c) == Plus(c, (if equals then 2 else 1) + |Yield(e)| + 1)
  {
    hide Stands, DeclSpec.In, DeclSpec.PastCapability, Grammar.Yield, Proper;
    if equals {
      EqualCapability(t, c, name, e);
    } else {
      PlainCapability(t, c, name, e);
    }
  }

  lemma EqualCapability(t: seq<Lexeme>, c: Cursor, name: string, e: Cst)
    requires Proper(e) && Stands(t, c.pos, [Word(name), EQUALS] + (Yield(e) + ([SEMICOLON] + [])))
    ensures In(t, c) && t[c.pos] == Word(name) && PastCapability(t, c) == Plus(c, 2 + |Yield(e)| + 1)
  {
    hide Stands, DeclSpec.Skip, DeclSpec.Want, DeclSpec.In, DeclSpec.PastExpr, Grammar.Yield, Proper, EndsExpr;
    CommaEnds();
    BeginTwo(t, c, Word(name), EQUALS, Yield(e) + ([SEMICOLON] + []));
    ExprThen(t, Plus(c, 2), e, SEMICOLON, []);
  }

  lemma PlainCapability(t: seq<Lexeme>, c: Cursor, name: string, e: Cst)
    requires Proper(e) && Stands(t, c.pos, [Word(name)] + (Yield(e) + ([SEMICOLON] + [])))
    ensures In(t, c) && t[c.pos] == Word(name) && PastCapability(t, c) == Plus(c, 1 + |Yield(e)| + 1)
  {
    hide Stands, DeclSpec.Skip, DeclSpec.Want, DeclSpec.In, DeclSpec.PastExpr, Grammar.Yield, Proper, EndsExpr;
    CommaEnds();
    Begin(t, c, Word(name), Yield(e) + ([SEMICOLON] + []));
    StmtProofs.FirstToken(e);
    First(t, c.pos + 1, Yield(e) + ([SEMICOLON] + []));
    ExprThen(t, Plus(c, 1), e, SEMICOLON, []);
  }

  lemma StateReads(t: seq<Lexeme>, c: Cursor, f: NamedForm, simplified: bool)
    requires f.PowerState? && Stands(t, c.pos, NamedTokens(f)) && GoodNamed(f) && (simplified ==> f.spec.None?)
    ensures In(t, c) && t[c.pos] == f.tok && PastPowerState(t, c, simplified) == Plus(c, |NamedTokens(f)|)
  {
    hide Stands, DeclSpec.Skip, DeclSpec.Want, DeclSpec.In, NamedTokens;
    StateText(f);
    assert NotEnd(f.tok);
    hide GoodNamed;
    if f.spec.None? {
      BeginTwo(t, c, f.tok, SEMICOLON, []);
    } else {
      BeginThree(t, c, f.tok, COLON, f.spec.value, [SEMICOLON] + []);
      Begin(t, Plus(c, 3), SEMICOLON, []);
    }
  }

  lemma StateText(f: NamedForm)
    requires f.PowerState? && GoodNamed(f)
    ensures NamedTokens(f) == if f.spec.None? then [f.tok, SEMICOLON] + []
                              else [f.tok, COLON, f.spec.value] + ([SEMICOLON] + [])
    ensures f.spec.Some? ==> NotEnd(f.spec.value)
  {
  }

  /** An optional range and the semicolon. */
  lemma RangeThen(t: seq<Lexeme>, c: Cursor, r: Option<(Cst, Cst)>)
    requires Stands(t, c.pos, RangeTokens(r) + [SEMICOLON]) && (r.Some? ==> Proper(r.value.0) && Proper(r.value.1))
    ensures var d := Plus(c, |RangeTokens(r)|);
            In(t, c) && PastRange(t, c) == d && In(t, d) && Want(t, d, Semicolon) == Plus(d, 1)
  {
    hide Stands, DeclSpec.Skip, DeclSpec.Want, DeclSpec.In, DeclSpec.PastExpr, RangeTokens;
    RangeText(r);
    if r.None? {
      Begin(t, c, SEMICOLON, []);
    } else {
      RangeReads(t, c, r.value.0, r.value.1);
    }
  }

  lemma RangeText(r: Option<(Cst, Cst)>)
    ensures RangeTokens(r) + [SEMICOLON]
         == if r.None? then [SEMICOLON] + []
            else [Key("in")] + (Yield(r.value.0) + ([DOTS] + (Yield(r.value.1) + ([SEMICOLON] + []))))
    ensures |RangeTokens(r)| == if r.None? then 0 else 2 + |Yield(r.value.0)| + |Yield(r.value.1)|
  {
    hide Grammar.Yield;
    if r.Some? {
      Reassociated([Key("in")], Yield(r.value.0), DOTS, Yield(r.value.1));
    }
  }

  lemma RangeReads(t: seq<Lexeme>, c: Cursor, lo: Cst, hi: Cst)
    requires Proper(lo) && Proper(hi)
    requires Stands(t, c.pos, [Key("in")] + (Yield(lo) + ([DOTS] + (Yield(hi) + ([SEMICOLON] + [])))))
    ensures In(t, c) && PastRange(t, c) == Plus(c, 2 + |Yield(lo)| + |Yield(hi)|) && In(t, PastRange(t, c))
    ensures Want(t, PastRange(t, c), Semicolon) == Plus(c, 3 + |Yield(lo)| + |Yield(hi)|)
  {
    hide Stands, DeclSpec.Skip, DeclSpec.Want, DeclSpec.In, DeclSpec.PastExpr, Grammar.Yield, Proper, EndsExpr;
    CommaEnds();
    Begin(t, c, Key("in"), Yield(lo) + ([DOTS] + (Yield(hi) + ([SEMICOLON] + []))));
    ExprThen(t, Plus(c, 1), lo, DOTS, Yield(hi) + ([SEMICOLON] + []));
    ExprThen(t, Plus(c, 2 + |Yield(lo)|), hi, SEMICOLON, []);
  }

  lemma RangeBegins(r: Option<(Cst, Cst)>)
    ensures EndsExpr((RangeTokens(r) + [SEMICOLON])[0].kind) && !(RangeTokens(r) + [SEMICOLON])[0].kind.Eq?
  {
  }

  lemma FieldReads(t: seq<Lexeme>, c: Cursor, f: NamedForm)
    requires f.Field? && Stands(t, c.pos, NamedTokens(f)) && GoodNamed(f)
    ensures In(t, c) && t[c.pos] == Word(f.name) && PastConfig(t, c) == Plus(c, |NamedTokens(f)|)
  {
    hide Stands, DeclSpec.Skip, DeclSpec.Want, DeclSpec.In, DeclSpec.PastDefault, DeclSpec.PastRange, Init, RangeTokens, Behind,
         ProperOr, Proper, EndsExpr;
    var i, r := Init(f.init), RangeTokens(f.range) + [SEMICOLON];
    BeginThree(t, c, Word(f.name), COLON, f.ty, i + r);
    RangeBegins(f.range);
    Cut(t, Plus(c, 3), i, r);
    InitReads(t, Plus(c, 3), f.init);
    RangeThen(t, Plus(c, 3 + |i|), f.range);
  }

  /** The form belongs into the block. */
  predicate Fits(f: NamedForm, block: Block) {
    match block
    case Signals => f.Signal?
    case Capabilities => f.Capability?
    case Power(simplified) => f.PowerState? && (simplified ==> f.spec.None?)
    case Config => f.Field?
  }

  /** Wherever such a declaration is spelled it is read without an error, name and all. */
  lemma NamedReads(t: seq<Lexeme>, c: Cursor, f: NamedForm, block: Block)
    requires Stands(t, c.pos, NamedTokens(f)) && GoodNamed(f) && Fits(f, block)
    ensures In(t, c) && !EndsList(Kind(t, c)) && Starts(block, Kind(t, c)) && t[c.pos].text == NameMeant(f)
    ensures PastNamed(t, c, block) == Plus(c, |NamedTokens(f)|)
  {
    hide Stands, DeclSpec.In, NamedTokens, DeclSpec.PastSignal, DeclSpec.PastCapability, DeclSpec.PastPowerState, DeclSpec.PastConfig;
    match block
    case Signals => SignalReads(t, c, f);
    case Capabilities => CapabilityReads(t, c, f);
    case Power(simplified) => StateReads(t, c, f, simplified);
    case Config => FieldReads(t, c, f);
  }

  ghost predicate AllFit(fs: seq<NamedForm>, block: Block) {
    forall f :: f in fs ==> GoodNamed(f) && Fits(f, block)
  }

  lemma {:induction false} NamesRead(t: seq<Lexeme>, c: Cursor, fs: seq<NamedForm>, block: Block)
    requires Stands(t, c.pos, NamesTokens(fs)) && AllFit(fs, block)
    requires Behind(t, c.pos, NamesTokens(fs)).RBrace?
    ensures In(t, c) && Named(t, c, block) == Made(NamesMeant(fs), Plus(c, |NamesTokens(fs)|))
    decreases fs
  {
    hide Stands, DeclSpec.PastNamed, NamedTokens, GoodNamed, Fits, NameMeant, DeclSpec.In, DeclSpec.Starts;
    Inside(t, c, NamesTokens(fs));
    if fs != [] {
      var first, rest := NamedTokens(fs[0]), NamesTokens(fs[1..]);
      Split(t, c.pos, first, rest);
      assert fs[0] in fs;
      NamedReads(t, c, fs[0], block);
      NamesRead(t, Plus(c, |first|), fs[1..], block);
    }
  }

  // ===== the parts of a device =====

  /** What a braced block is made of. */
  lemma BracedParts(t: seq<Lexeme>, c: Cursor, head: Lexeme, inner: seq<Lexeme>)
    requires Stands(t, c.pos, Braced(head, inner)) && NotEnd(head)
    ensures In(t, c) && t[c.pos] == head && Want(t, Skip(t, c), LBrace) == Plus(c, 2)
    ensures Stands(t, c.pos + 2, inner) && Behind(t, c.pos + 2, inner).RBrace?
    ensures In(t, Plus(c, 2 + |inner|)) && Want(t, Plus(c, 2 + |inner|), RBrace) == Plus(c, |Braced(head, inner)|)
  {
    hide Stands, DeclSpec.Skip, DeclSpec.Want, DeclSpec.In, Behind;
    BeginTwo(t, c, head, LBRACE, inner + [RBRACE]);
    Cut(t, Plus(c, 2), inner, [RBRACE]);
    assert [RBRACE] + [] == [RBRACE];
    Begin(t, Plus(c, 2 + |inner|), RBRACE, []);
  }

  lemma ClauseReads(t: seq<Lexeme>, c: Cursor, head: Lexeme, tok: Lexeme)
    requires Stands(t, c.pos, [head, tok, SEMICOLON]) && NotEnd(head) && NotEnd(tok)
    ensures In(t, c) && t[c.pos] == head && PastClause(t, c) == Plus(c, 3)
  {
    hide Stands, DeclSpec.Skip, DeclSpec.Want, DeclSpec.In;
    assert [head, tok, SEMICOLON] + [] == [head, tok, SEMICOLON];
    BeginThree(t, c, head, tok, SEMICOLON, []);
  }

  lemma RegisterPartReads(t: seq<Lexeme>, c: Cursor, p: DeviceItem)
    requires p.RegisterPart? && Stands(t, c.pos, PartTokens(p)) && GoodPart(p)
    ensures In(t, c) && t[c.pos] == (if p.simplified then Word("register_map") else Key("registers"))
    ensures RegisterBlock(t, c) == Made(RegistersMeant(p.registers), Plus(c, |PartTokens(p)|))
  {
    hide Stands, DeclSpec.Skip, DeclSpec.Want, DeclSpec.In, DeclSpec.Registers, RegistersTokens, RegistersMeant, Braced, Behind,
         GoodRegister;
    var head := if p.simplified then Word("register_map") else Key("registers");
    var inner := RegistersTokens(p.registers);
    BracedParts(t, c, head, inner);
    RegistersRead(t, Plus(c, 2), p.registers, p.simplified);
  }

  lemma NamedBlockReads(t: seq<Lexeme>, c: Cursor, head: Lexeme, fs: seq<NamedForm>, block: Block)
    requires Stands(t, c.pos, Braced(head, NamesTokens(fs))) && NotEnd(head) && AllFit(fs, block)
    ensures In(t, c) && t[c.pos] == head
    ensures NamedBlock(t, c, block) == Made(NamesMeant(fs), Plus(c, |Braced(head, NamesTokens(fs))|))
  {
    hide Stands, DeclSpec.Skip, DeclSpec.Want, DeclSpec.In, DeclSpec.Named, NamesTokens, NamesMeant, Braced, Behind, AllFit;
    BracedParts(t, c, head, NamesTokens(fs));
    NamesRead(t, Plus(c, 2), fs, block);
  }

  lemma ClausePartReads(t: seq<Lexeme>, c: Cursor, d: Device, p: DeviceItem)
    requires (p.ClassClause? || p.CompatibleClause?) && Stands(t, c.pos, PartTokens(p)) && GoodPart(p)
    ensures In(t, c) && !EndsList(Kind(t, c)) && DevicePart(t, c, d) == Made(d, Plus(c, |PartTokens(p)|))
  {
    hide Stands, DeclSpec.In, DeclSpec.RegisterBlock, DeclSpec.NamedBlock, DeclSpec.PastClause, DeclSpec.Skip;
    ClauseReads(t, c, if p.ClassClause? then Key("class") else Word("compatible"), p.tok);
  }

  /** A block of named declarations. */
  predicate NamedPart(p: DeviceItem) {
    p.SignalPart? || p.CapabilityPart? || p.PowerPart? || p.ConfigPart?
  }

  lemma NamedPartReads(t: seq<Lexeme>, c: Cursor, d: Device, p: DeviceItem)
    requires NamedPart(p) && Stands(t, c.pos, PartTokens(p)) && GoodPart(p)
    ensures In(t, c) && !EndsList(Kind(t, c)) && DevicePart(t, c, d) == Made(PartMeant(d, p), Plus(c, |PartTokens(p)|))
  {
    hide Stands, DeclSpec.In, DeclSpec.RegisterBlock, DeclSpec.NamedBlock, DeclSpec.PastClause, DeclSpec.Skip, NamesTokens, Braced,
         NamesMeant, GoodNamed;
    match p
    case SignalPart(fs) => NamedBlockReads(t, c, Key("signals"), fs, Signals);
    case CapabilityPart(fs) => NamedBlockReads(t, c, Key("capabilities"), fs, Capabilities);
    case PowerPart(simplified, fs) =>
      NamedBlockReads(t, c, if simplified then Word("power_states") else Key("power"), fs, Power(simplified));
    case ConfigPart(fs) => NamedBlockReads(t, c, Key("config"), fs, Config);
  }

  lemma RegistersPartReads(t: seq<Lexeme>, c: Cursor, d: Device, p: DeviceItem)
    requires p.RegisterPart? && Stands(t, c.pos, PartTokens(p)) && GoodPart(p)
    ensures In(t, c) && !EndsList(Kind(t, c)) && DevicePart(t, c, d) == Made(PartMeant(d, p), Plus(c, |PartTokens(p)|))
  {
    hide Stands, DeclSpec.In, DeclSpec.RegisterBlock, DeclSpec.NamedBlock, DeclSpec.PastClause, DeclSpec.Skip, RegistersTokens,
         Braced, RegistersMeant, GoodRegister;
    RegisterPartReads(t, c, p);
  }

  /** A part of a device is read as what it changes about the device. */
  lemma PartReads(t: seq<Lexeme>, c: Cursor, d: Device, p: DeviceItem)
    requires Stands(t, c.pos, PartTokens(p)) && GoodPart(p)
    ensures In(t, c) && !EndsList(Kind(t, c))
    ensures DevicePart(t, c, d) == Made(PartMeant(d, p), Plus(c, |PartTokens(p)|))
  {
    hide Stands, DeclSpec.In, DeclSpec.DevicePart, PartTokens, GoodPart;
    if NamedPart(p) {
      NamedPartReads(t, c, d, p);
    } else if p.RegisterPart? {
      RegistersPartReads(t, c, d, p);
    } else {
      ClausePartReads(t, c, d, p);
    }
  }

  lemma {:induction false} PartsRead(t: seq<Lexeme>, c: Cursor, d: Device, ps: seq<DeviceItem>)
    requires Stands(t, c.pos, PartsTokens(ps)) && forall p :: p in ps ==> GoodPart(p)
    requires Behind(t, c.pos, PartsTokens(ps)).RBrace?
    ensures In(t, c) && DeviceBody(t, c, d) == Made(PartsMeant(d, ps), Plus(c, |PartsTokens(ps)|))
    decreases ps
  {
    hide Stands, DeclSpec.DevicePart, PartTokens, GoodPart, PartMeant, DeclSpec.In;
    Inside(t, c, PartsTokens(ps));
    if ps != [] {
      var first, rest := PartTokens(ps[0]), PartsTokens(ps[1..]);
      Split(t, c.pos, first, rest);
      assert ps[0] in ps;
      PartReads(t, c, d, ps[0]);
      PartsRead(t, Plus(c, |first|), PartMeant(d, ps[0]), ps[1..]);
    }
  }

  // ===== the parts of a driver =====

  /** Statements between braces are read as themselves, flattened. */
  lemma BodyReads(t: seq<Lexeme>, c: Cursor, b: seq<Stm>)
    requires GoodList(b) && Stands(t, c.pos, [LBRACE] + (ListTokens(b) + [RBRACE]))
    ensures In(t, c) && Braces(t, c) == Made(FlattenList(b), Plus(c, |ListTokens(b)| + 2))
  {
    hide Stands, DeclSpec.Skip, DeclSpec.In, StmtSpec.StatementList, ListTokens, GoodList, FlattenList, Behind, SpellsList, ListLen;
    var ts := ListTokens(b);
    Begin(t, c, LBRACE, ts + [RBRACE]);
    var d := Plus(c, 1);
    Cut(t, d, ts, [RBRACE]);
    ListSpelled(b, t, d.pos);
    ListLength(b);
    StmtProofs.StatementListIff(t, d.pos);
    assert [RBRACE] + [] == [RBRACE];
    Begin(t, Plus(d, |ts|), RBRACE, []);
  }

  /** Up to and over the next token of a kind. */
  lemma {:induction false} NextReads(t: seq<Lexeme>, c: Cursor, ts: seq<Lexeme>, l: Lexeme, rest: seq<Lexeme>)
    requires Stands(t, c.pos, ts + ([l] + rest)) && NotEnd(l) && Without(ts, l.kind)
    ensures In(t, c) && PastNext(t, c, l.kind) == Plus(c, |ts| + 1) && Stands(t, c.pos + |ts| + 1, rest)
    decreases |ts|
  {
    hide Stands, DeclSpec.Skip, DeclSpec.Want, DeclSpec.In;
    if ts == [] {
      assert ts + ([l] + rest) == [l] + rest;
      Begin(t, c, l, rest);
    } else {
      assert ts + ([l] + rest) == [ts[0]] + (ts[1..] + ([l] + rest));
      assert ts[0] in ts;
      Begin(t, c, ts[0], ts[1..] + ([l] + rest));
      assert Without(ts[1..], l.kind);
      NextReads(t, Plus(c, 1), ts[1..], l, rest);
    }
  }

  lemma OptionPartReads(t: seq<Lexeme>, c: Cursor, toks: seq<Lexeme>)
    requires Stands(t, c.pos, Braced(Key("config"), toks)) && Without(toks, RBrace)
    ensures In(t, c) && t[c.pos] == Key("config") && Want(t, Skip(t, c), LBrace) == Plus(c, 2) && In(t, Plus(c, 2))
    ensures PastNext(t, Plus(c, 2), RBrace) == Plus(c, |Braced(Key("config"), toks)|)
  {
    hide Stands, DeclSpec.Skip, DeclSpec.Want, DeclSpec.In, DeclSpec.PastNext, Without;
    BeginTwo(t, c, Key("config"), LBRACE, toks + [RBRACE]);
    assert [RBRACE] + [] == [RBRACE];
    NextReads(t, Plus(c, 2), toks, RBRACE, []);
  }

  lemma DriverPartReads(t: seq<Lexeme>, c: Cursor, d: Driver, p: DriverItem)
    requires Stands(t, c.pos, DriverPartTokens(p)) && GoodDriverPart(p)
    ensures In(t, c) && !EndsList(Kind(t, c))
    ensures DeclSpec.DriverPart(t, c, d) == Made(DriverPartMeant(d, p), Plus(c, |DriverPartTokens(p)|))
  {
    hide Stands, DeclSpec.Skip, DeclSpec.Want, DeclSpec.In, DeclSpec.Braces, DeclSpec.PastNext, DeclSpec.HandlerBraces, ListTokens,
         GoodList, FlattenList, Without, Braced;
    match p
    case ProbePart(b) => HeadedBody(t, c, Key("probe"), b);
    case RemovePart(b) => HeadedBody(t, c, Key("remove"), b);
    case HandlerPart(event, args, b) => HandlerReads(t, c, event, args, b);
    case OptionPart(toks) => OptionPartReads(t, c, toks);
  }

  lemma HeadedBody(t: seq<Lexeme>, c: Cursor, head: Lexeme, b: seq<Stm>)
    requires Stands(t, c.pos, Braced(head, ListTokens(b))) && NotEnd(head) && GoodList(b)
    ensures In(t, c) && t[c.pos] == head
    ensures Braces(t, Skip(t, c)) == Made(FlattenList(b), Plus(c, |Braced(head, ListTokens(b))|))
  {
    hide Stands, DeclSpec.Skip, DeclSpec.Want, DeclSpec.In, DeclSpec.Braces, ListTokens, GoodList, FlattenList;
    var block := [LBRACE] + (ListTokens(b) + [RBRACE]);
    assert Braced(head, ListTokens(b)) == [head] + block;
    Begin(t, c, head, block);
    BodyReads(t, Plus(c, 1), b);
  }

  lemma HandlerReads(t: seq<Lexeme>, c: Cursor, event: Lexeme, args: seq<Lexeme>, b: seq<Stm>)
    requires NotEnd(event) && Without(args, RParen) && GoodList(b)
    requires Stands(t, c.pos, DriverPartTokens(HandlerPart(event, args, b)))
    ensures In(t, c) && t[c.pos] == Key("on")
    ensures Braces(t, HandlerBraces(t, c))
         == Made(FlattenList(b), Plus(c, |DriverPartTokens(HandlerPart(event, args, b))|))
  {
    hide Stands, DeclSpec.Skip, DeclSpec.Want, DeclSpec.In, DeclSpec.Braces, DeclSpec.PastNext, ListTokens, GoodList, FlattenList,
         Without;
    var block := [LBRACE] + (ListTokens(b) + [RBRACE]);
    var tail := [RPAREN, LBRACE] + (ListTokens(b) + [RBRACE]);
    assert tail == [RPAREN] + block;
    BeginThree(t, c, Key("on"), event, LPAREN, args + tail);
    NextReads(t, Plus(c, 3), args, RPAREN, block);
    BodyReads(t, Plus(c, 3 + |args| + 1), b);
  }

  lemma {:induction false} DriverPartsRead(t: seq<Lexeme>, c: Cursor, d: Driver, ps: seq<DriverItem>)
    requires Stands(t, c.pos, DriverPartsTokens(ps)) && forall p :: p in ps ==> GoodDriverPart(p)
    requires Behind(t, c.pos, DriverPartsTokens(ps)).RBrace?
    ensures In(t, c) && DriverBody(t, c, d) == Made(DriverPartsMeant(d, ps), Plus(c, |DriverPartsTokens(ps)|))
    decreases ps
  {
    hide Stands, DeclSpec.DriverPart, DriverPartTokens, GoodDriverPart, DriverPartMeant, DeclSpec.In;
    Inside(t, c, DriverPartsTokens(ps));
    if ps != [] {
      var first, rest := DriverPartTokens(ps[0]), DriverPartsTokens(ps[1..]);
      Split(t, c.pos, first, rest);
      assert ps[0] in ps;
      DriverPartReads(t, c, d, ps[0]);
      DriverPartsRead(t, Plus(c, |first|), DriverPartMeant(d, ps[0]), ps[1..]);
    }
  }

  // ===== files =====

  lemma VersionReads(t: seq<Lexeme>, c: Cursor, v: Option<Lexeme>)
    requires Stands(t, c.pos, VersionTokens(v)) && (v.Some? ==> v.value.kind.Str?)
    requires Behind(t, c.pos, VersionTokens(v)) != Kw("kdal_version")
    ensures In(t, c) && PastVersion(t, c) == Plus(c, |VersionTokens(v)|)
  {
    hide Stands, DeclSpec.Skip, DeclSpec.Want, DeclSpec.In;
    Inside(t, c, VersionTokens(v));
    if v.Some? {
      assert VersionTokens(v) == [Key("kdal_version"), COLON, v.value] + [SEMICOLON];
      BeginThree(t, c, Key("kdal_version"), COLON, v.value, [SEMICOLON]);
      assert [SEMICOLON] + [] == [SEMICOLON];
      Begin(t, Plus(c, 3), SEMICOLON, []);
    }
  }

  lemma ImportReads(t: seq<Lexeme>, c: Cursor, m: Import)
    requires Stands(t, c.pos, ImportTokens(m)) && m.path.kind.Str?
    ensures In(t, c) && Kind(t, c) == Kw("import") && PastImport(t, c) == Plus(c, |ImportTokens(m)|)
  {
    hide Stands, DeclSpec.Skip, DeclSpec.Want, DeclSpec.In;
    assert [SEMICOLON] + [] == [SEMICOLON];
    if m.name.None? {
      assert ImportTokens(m) == [Key("import"), m.path] + [SEMICOLON];
      BeginTwo(t, c, Key("import"), m.path, [SEMICOLON]);
      Begin(t, Plus(c, 2), SEMICOLON, []);
    } else {
      var w := Word(m.name.value);
      assert ImportTokens(m) == [Key("import"), m.path] + ([Key("as"), w] + [SEMICOLON]);
      BeginTwo(t, c, Key("import"), m.path, [Key("as"), w] + [SEMICOLON]);
      BeginTwo(t, Plus(c, 2), Key("as"), w, [SEMICOLON]);
      Begin(t, Plus(c, 4), SEMICOLON, []);
    }
  }

  lemma {:induction false} ImportsRead(t: seq<Lexeme>, c: Cursor, ms: seq<Import>)
    requires Stands(t, c.pos, ImportsTokens(ms)) && forall m :: m in ms ==> m.path.kind.Str?
    requires Behind(t, c.pos, ImportsTokens(ms)) != Kw("import")
    ensures In(t, c) && PastImports(t, c) == Plus(c, |ImportsTokens(ms)|)
    decreases ms
  {
    hide Stands, DeclSpec.PastImport, ImportTokens, DeclSpec.In;
    Inside(t, c, ImportsTokens(ms));
    if ms != [] {
      var first, rest := ImportTokens(ms[0]), ImportsTokens(ms[1..]);
      Split(t, c.pos, first, rest);
      assert ms[0] in ms;
      ImportReads(t, c, ms[0]);
      ImportsRead(t, Plus(c, |first|), ms[1..]);
    }
  }

  lemma OptionReads(t: seq<Lexeme>, c: Cursor, o: BackendOption, rest: seq<Lexeme>)
    requires Stands(t, c.pos, [Word(o.name), COLON] + (Yield(o.value) + ([SEMICOLON] + rest))) && Proper(o.value)
    ensures In(t, c) && Kind(t, c).Ident? && PastOption(t, c) == Plus(c, 3 + |Yield(o.value)|)
    ensures Stands(t, c.pos + 3 + |Yield(o.value)|, rest)
  {
    hide Stands, DeclSpec.Skip, DeclSpec.Want, DeclSpec.In, DeclSpec.PastExpr, Grammar.Yield, Proper, EndsExpr;
    BeginTwo(t, c, Word(o.name), COLON, Yield(o.value) + ([SEMICOLON] + rest));
    CommaEnds();
    ExprThen(t, Plus(c, 2), o.value, SEMICOLON, rest);
  }

  lemma {:induction false} OptionsRead(t: seq<Lexeme>, c: Cursor, os: seq<BackendOption>)
    requires Stands(t, c.pos, OptionsTokens(os)) && forall o :: o in os ==> Proper(o.value)
    requires !Behind(t, c.pos, OptionsTokens(os)).Ident?
    ensures In(t, c) && PastOptions(t, c) == Plus(c, |OptionsTokens(os)|)
    decreases os
  {
    hide Stands, DeclSpec.PastOption, DeclSpec.In, Grammar.Yield, Proper;
    Inside(t, c, OptionsTokens(os));
    if os != [] {
      var y, rest := Yield(os[0].value), OptionsTokens(os[1..]);
      assert os[0] in os;
      Reassociated([Word(os[0].name), COLON], y, SEMICOLON, rest);
      OptionReads(t, c, os[0], rest);
      OptionsRead(t, Plus(c, 3 + |y|), os[1..]);
    }
  }

  lemma Reassociated(a: seq<Lexeme>, y: seq<Lexeme>, l: Lexeme, rest: seq<Lexeme>)
    ensures a + (y + [l]) + rest == a + (y + ([l] + rest))
  {
  }

  lemma BackendReads(t: seq<Lexeme>, c: Cursor, b: Option<Backend>)
    requires Stands(t, c.pos, BackendTokens(b))
    requires b.Some? ==> NotEnd(b.value.name) && forall o :: o in b.value.options ==> Proper(o.value)
    requires Behind(t, c.pos, BackendTokens(b)) in {Kw("device"), Kw("driver")}
    ensures In(t, c) && PastBackend(t, c) == Plus(c, |BackendTokens(b)|)
  {
    hide Stands, DeclSpec.Skip, DeclSpec.Want, DeclSpec.In, DeclSpec.PastOptions, OptionsTokens, Proper;
    var ts := BackendTokens(b);
    Inside(t, c, ts);
    if b.Some? {
      var head, os := Key("backend"), OptionsTokens(b.value.options);
      if b.value.braces {
        BeginTwo(t, c, head, b.value.name, [LBRACE] + (os + [RBRACE]));
        Begin(t, Plus(c, 2), LBRACE, os + [RBRACE]);
        Cut(t, Plus(c, 3), os, [RBRACE]);
        OptionsRead(t, Plus(c, 3), b.value.options);
        assert [RBRACE] + [] == [RBRACE];
        Begin(t, Plus(c, 3 + |os|), RBRACE, []);
      } else {
        BeginTwo(t, c, head, b.value.name, []);
        Inside(t, Plus(c, 2), []);
      }
    }
  }

  lemma {:induction false} DotsRead(t: seq<Lexeme>, c: Cursor, names: seq<string>)
    requires Stands(t, c.pos, DottedTokens(names)) && Behind(t, c.pos, DottedTokens(names)).LBrace?
    ensures In(t, c) && PastDots(t, c) == Plus(c, |DottedTokens(names)|)
    decreases names
  {
    hide Stands, DeclSpec.Skip, DeclSpec.In;
    Inside(t, c, DottedTokens(names));
    if names != [] {
      BeginTwo(t, c, DOT, Word(names[0]), DottedTokens(names[1..]));
      DotsRead(t, Plus(c, 2), names[1..]);
    }
  }

  lemma DriverHeadReads(t: seq<Lexeme>, c: Cursor, name: string, target: seq<string>, rest: seq<Lexeme>)
    requires Stands(t, c.pos, [Key("driver"), Word(name)] + (TargetTokens(target) + ([LBRACE] + rest)))
    ensures In(t, c) && Kind(t, c) == Kw("driver") && DriverStart(t, c) == Plus(c, 2 + |TargetTokens(target)| + 1)
    ensures Stands(t, c.pos + 2 + |TargetTokens(target)| + 1, rest)
  {
    hide Stands, DeclSpec.Skip, DeclSpec.Want, DeclSpec.In, DeclSpec.PastDots, DottedTokens, Behind;
    var more := [LBRACE] + rest;
    BeginTwo(t, c, Key("driver"), Word(name), TargetTokens(target) + more);
    var d := Plus(c, 2);
    if target != [] {
      var dots := DottedTokens(target[1..]);
      assert TargetTokens(target) + more == [Key("for"), Word(target[0])] + (dots + more);
      BeginTwo(t, d, Key("for"), Word(target[0]), dots + more);
      Cut(t, Plus(d, 2), dots, more);
      DotsRead(t, Plus(d, 2), target[1..]);
      Begin(t, Plus(d, 2 + |dots|), LBRACE, rest);
    } else {
      assert TargetTokens(target) + more == more;
      Begin(t, d, LBRACE, rest);
    }
  }

  lemma DriverMainReads(t: seq<Lexeme>, c: Cursor, m: Main)
    requires m.DriverMain? && Stands(t, c.pos, MainTokens(m)) && GoodMain(m)
    ensures In(t, c) && Kind(t, c) == Kw("driver")
    ensures DriverAt(t, c) == Made(DriverPartsMeant(IDLE, m.body), Plus(c, |MainTokens(m)|))
  {
    hide Stands, DeclSpec.Skip, DeclSpec.Want, DeclSpec.In, DeclSpec.DriverStart, DeclSpec.DriverBody, DriverPartsTokens,
         DriverPartsMeant, GoodDriverPart, TargetTokens, Behind;
    var ps := DriverPartsTokens(m.body);
    DriverHeadReads(t, c, m.name, m.target, ps + [RBRACE]);
    var d := Plus(c, 2 + |TargetTokens(m.target)| + 1);
    Cut(t, d, ps, [RBRACE]);
    DriverPartsRead(t, d, IDLE, m.body);
    assert [RBRACE] + [] == [RBRACE];
    Begin(t, Plus(d, |ps|), RBRACE, []);
  }

  lemma DeviceHeadReads(t: seq<Lexeme>, c: Cursor, class_: bool, name: string, rest: seq<Lexeme>)
    requires Stands(t, c.pos, [Key("device")] + ((if class_ then [Key("class")] else []) + ([Word(name), LBRACE] + rest)))
    ensures In(t, c) && Kind(t, c) == Kw("device")
    ensures DeviceStart(t, c) == Plus(c, if class_ then 4 else 3) && Stands(t, DeviceStart(t, c).pos, rest)
  {
    hide Stands, DeclSpec.Skip, DeclSpec.Want, DeclSpec.In;
    var more := [Word(name), LBRACE] + rest;
    var d := Plus(c, 1);
    if class_ {
      Begin(t, c, Key("device"), [Key("class")] + more);
      Begin(t, d, Key("class"), more);
      d := Plus(c, 2);
    } else {
      assert [] + more == more;
      Begin(t, c, Key("device"), more);
    }
    BeginTwo(t, d, Word(name), LBRACE, rest);
  }

  lemma DeviceMainReads(t: seq<Lexeme>, c: Cursor, m: Main)
    requires m.DeviceMain? && Stands(t, c.pos, MainTokens(m)) && GoodMain(m)
    ensures In(t, c) && Kind(t, c) == Kw("device")
    ensures DeviceAt(t, c) == Made(PartsMeant(NOTHING, m.parts), Plus(c, |MainTokens(m)|))
  {
    hide Stands, DeclSpec.Skip, DeclSpec.Want, DeclSpec.In, DeclSpec.DeviceStart, DeclSpec.DeviceBody, PartsTokens, PartsMeant,
         GoodPart, Behind;
    var ps := PartsTokens(m.parts);
    DeviceHeadReads(t, c, m.class_, m.name, ps + [RBRACE]);
    var d := DeviceStart(t, c);
    Cut(t, d, ps, [RBRACE]);
    PartsRead(t, d, NOTHING, m.parts);
    assert [RBRACE] + [] == [RBRACE];
    Begin(t, Plus(d, |ps|), RBRACE, []);
  }

  lemma MainBegins(m: Main)
    ensures MainTokens(m) != [] && MainTokens(m)[0].kind in {Kw("device"), Kw("driver")}
  {
  }

  lemma BackendBegins(b: Option<Backend>, rest: seq<Lexeme>)
    requires rest != [] && rest[0].kind in {Kw("device"), Kw("driver")}
    ensures (BackendTokens(b) + rest)[0].kind in {Kw("backend"), Kw("device"), Kw("driver")}
  {
  }

  lemma ImportsBegin(ms: seq<Import>, rest: seq<Lexeme>)
    requires rest != [] && rest[0].kind in {Kw("backend"), Kw("device"), Kw("driver")}
    ensures (ImportsTokens(ms) + rest)[0].kind in {Kw("import"), Kw("backend"), Kw("device"), Kw("driver")}
  {
    if ms != [] {
      assert ImportTokens(ms[0])[0] == Key("import");
    }
  }

  /** What stands before the device or driver. */
  lemma HeaderReads(t: seq<Lexeme>, f: FileForm)
    requires GoodFile(f) && Stands(t, 0, FileTokens(f))
    ensures MainAt(t) == Cursor(|FileTokens(f)| - |MainTokens(f.main)|, false)
    ensures Stands(t, MainAt(t).pos, MainTokens(f.main))
  {
    hide Stands, DeclSpec.In, DeclSpec.PastVersion, DeclSpec.PastImports, DeclSpec.PastBackend, VersionTokens, ImportsTokens,
         BackendTokens, MainTokens, GoodMain, Behind, Proper;
    var c := Cursor(0, false);
    var v, ms, b, m := VersionTokens(f.version), ImportsTokens(f.imports), BackendTokens(f.backend), MainTokens(f.main);
    MainBegins(f.main);
    BackendBegins(f.backend, m);
    ImportsBegin(f.imports, b + m);
    Cut(t, c, v, ms + (b + m));
    VersionReads(t, c, f.version);
    var c1 := Plus(c, |v|);
    Cut(t, c1, ms, b + m);
    ImportsRead(t, c1, f.imports);
    var c2 := Plus(c1, |ms|);
    Cut(t, c2, b, m);
    BackendReads(t, c2, f.backend);
  }

  /** A file spelled in tokens, in any of the forms of the grammar, is read without an error
      as exactly what it declares. */
  lemma FileReads(t: seq<Lexeme>, f: FileForm)
    requires GoodFile(f) && Stands(t, 0, FileTokens(f))
    ensures FileAt(t) == Made(FileMeant(f), Cursor(|FileTokens(f)|, false))
  {
    hide Stands, FileTokens, DeclSpec.MainAt, MainTokens, GoodMain, DeclSpec.DeviceAt, DeclSpec.DriverAt, PartsMeant,
         DriverPartsMeant, Proper;
    Inside(t, Cursor(0, false), FileTokens(f));
    HeaderReads(t, f);
    if f.main.DeviceMain? {
      DeviceMainReads(t, MainAt(t), f.main);
    } else {
      DriverMainReads(t, MainAt(t), f.main);
    }
  }
}
