/** Files written down as source text: the front end reads exactly what they declare back
    (compiler/lexer.c, compiler/parser.c). */
module DeviceText {
  import opened Wrappers
  import opened Tokens
  import opened ParseSpec
  import opened StmtSpec
  import opened Grammar
  import opened TokenText
  import opened DeclGrammar
  import opened StmtText
  import opened DeclSpec
  import opened Sema
  import X = LexSpec
  import LexProofs
  import Codegen
  import Pipeline
  import DeclReads

  /** The source text of a file: its tokens, one space between them. */
  function Text(f: FileForm): string {
    LexProofs.Spaced(FileTokens(f) + [X.EOF_LEXEME])
  }

  /** From text to file: a file of any form, its names and literals being ones that lex,
      compiles to exactly what it declares. */
  lemma FileSurvivesText(f: FileForm)
    requires GoodFile(f) && AllLex(FileTokens(f))
    ensures Pipeline.Compiled(Text(f)) == Pipeline.Ready(FileMeant(f))
  {
    hide X.Lexemes, DeclSpec.FileAt, FileTokens, GoodFile, FileMeant, LexProofs.Spaced, Verdict, AllLex;
    SpacedLexes(FileTokens(f));
    Pipeline.CompilesIff(Text(f));
    TokensStand(X.Lexemes(Text(f)).toks, FileTokens(f));
    DeclReads.FileReads(X.Lexemes(Text(f)).toks, f);
  }

  lemma TokensStand(t: seq<Lexeme>, ts: seq<Lexeme>)
    requires Terminated(t) && t == ts + [X.EOF_LEXEME]
    ensures Stands(t, 0, ts)
  {
  }

  // ===== a form for every device =====

  /** The literal that the conversion to a 32-bit int takes to `i`. */
  function Unsigned(i: int): nat { i % 0x1_0000_0000 }

  function MemberFormOf(m: Member): MemberForm {
    MemberForm(m.name, BitSpan(Number(Unsigned(m.lo)), Number(Unsigned(m.hi)), m.lo, m.hi), None)
  }

  function MemberForms(ms: seq<Member>): seq<MemberForm> {
    if ms == [] then [] else [MemberFormOf(ms[0])] + MemberForms(ms[1..])
  }

  function RegisterFormOf(r: Register): RegisterForm {
    if r.isBitfield then Fields(r.name, None, Some(r.access), MemberForms(r.members))
    else Scalar(r.name, r.width, None, Some(r.access), None)
  }

  function RegisterForms(rs: seq<Register>): seq<RegisterForm> {
    if rs == [] then [] else [RegisterFormOf(rs[0])] + RegisterForms(rs[1..])
  }

  /** A signal or capability by its name alone, a config field with a type. */
  function NamedFormOf(name: string, block: Block): NamedForm {
    match block
    case Signals => Signal(name, false, None, None)
    case Capabilities => Capability(name, false, None)
    case Power(_) => PowerState(Word(name), None)
    case Config => Field(name, Key("u32"), None, None)
  }

  function NamedForms(names: seq<string>, block: Block): seq<NamedForm> {
    if names == [] then [] else [NamedFormOf(names[0], block)] + NamedForms(names[1..], block)
  }

  function PartsOf(d: Device): seq<DeviceItem> {
    [RegisterPart(false, RegisterForms(d.registers)), SignalPart(NamedForms(d.signals, Signals)),
     CapabilityPart(NamedForms(d.capabilities, Capabilities)), ConfigPart(NamedForms(d.config, Config))]
  }

  function FormOf(name: string, d: Device): FileForm {
    FileForm(None, [], None, DeviceMain(true, name, PartsOf(d)))
  }

  // ===== which devices can be written =====

  predicate WritableMember(m: Member) {
    && Codegen.IsName(m.name)
    && -0x8000_0000 <= m.lo < 0x8000_0000 && -0x8000_0000 <= m.hi < 0x8000_0000
  }

  predicate WritableRegister(r: Register) {
    && Codegen.IsName(r.name)
    && if r.isBitfield then r.width == 0 && forall m :: m in r.members ==> WritableMember(m)
       else r.width in {8, 16, 32, 64} && r.members == []
  }

  predicate AllNames(names: seq<string>) {
    forall name :: name in names ==> Codegen.IsName(name)
  }

  /** Names are identifiers, bit positions 32-bit ints, widths those of the types. */
  predicate Writable(d: Device) {
    && (forall r :: r in d.registers ==> WritableRegister(r))
    && AllNames(d.signals) && AllNames(d.capabilities) && AllNames(d.config)
  }

  // ===== the form means the device =====

  lemma {:induction false} MemberFormsMean(ms: seq<Member>)
    requires forall m :: m in ms ==> WritableMember(m)
    ensures GoodMembers(MemberForms(ms)) && MembersMeant(MemberForms(ms)) == ms
    ensures AllLex(MembersTokens(MemberForms(ms)))
    decreases ms
  {
    hide GoodMember, WritableMember, Lexes, MemberTokens, MemberMeant, MemberFormOf;
    if ms != [] {
      MemberFormMeans(ms[0]);
      MemberFormsMean(ms[1..]);
    }
  }

  lemma MemberFormMeans(m: Member)
    requires WritableMember(m)
    ensures var f := MemberFormOf(m); GoodMember(f) && MemberMeant(f) == m && AllLex(MemberTokens(f))
  {
    hide Lexes, Codegen.IsName;
    MarksLex();
    WordLexes(m.name);
    NumberLexes(Unsigned(m.lo));
    NumberLexes(Unsigned(m.hi));
  }

  lemma {:induction false} RegisterFormsMean(rs: seq<Register>)
    requires forall r :: r in rs ==> WritableRegister(r)
    ensures AllLex(RegistersTokens(RegisterForms(rs))) && RegistersMeant(RegisterForms(rs)) == rs
    ensures forall f :: f in RegisterForms(rs) ==> GoodRegister(f)
    decreases rs
  {
    hide GoodRegister, WritableRegister, Lexes, RegisterTokens, RegisterMeant, RegisterFormOf;
    if rs != [] {
      RegisterFormMeans(rs[0]);
      RegisterFormsMean(rs[1..]);
    }
  }

  lemma RegisterFormMeans(r: Register)
    requires WritableRegister(r)
    ensures var f := RegisterFormOf(r); GoodRegister(f) && RegisterMeant(f) == r && AllLex(RegisterTokens(f))
  {
    hide Lexes, Codegen.IsName, WritableMember, GoodMembers;
    MarksLex();
    RegisterKeysLex();
    WordLexes(r.name);
    if r.isBitfield {
      MemberFormsMean(r.members);
    }
  }

  lemma {:induction false} NamedFormsMean(names: seq<string>, block: Block)
    requires AllNames(names) && !block.Power?
    ensures var fs := NamedForms(names, block);
            && GoodNames(fs) && NamesMeant(fs) == names && AllLex(NamesTokens(fs))
            && forall f :: f in fs ==> DeclReads.Fits(f, block)
    decreases names
  {
    hide Lexes, Codegen.IsName;
    if names != [] {
      MarksLex();
      ControlKeysLex();
      WordLexes(names[0]);
      NamedFormsMean(names[1..], block);
    }
  }

  lemma {:induction false} PartsLex(ps: seq<DeviceItem>)
    requires forall p :: p in ps ==> AllLex(PartTokens(p))
    ensures AllLex(PartsTokens(ps))
    decreases ps
  {
    hide Lexes, PartTokens;
    if ps != [] {
      PartsLex(ps[1..]);
    }
  }

  /** The parts of a writable device. */
  lemma FourParts(d: Device)
    requires Writable(d)
    ensures var ps := PartsOf(d);
            && PartsMeant(NOTHING, ps) == d && forall p :: p in ps ==> GoodPart(p) && AllLex(PartTokens(p))
  {
    hide Lexes, Codegen.IsName, RegistersTokens, NamesTokens, RegisterForms, NamedForms, RegistersMeant, NamesMeant, WritableRegister,
         GoodRegister, GoodNamed, AllNames;
    MarksLex();
    DeviceKeysLex();
    RegisterFormsMean(d.registers);
    NamedFormsMean(d.signals, Signals);
    NamedFormsMean(d.capabilities, Capabilities);
    NamedFormsMean(d.config, Config);
    var ps := PartsOf(d);
    assert ps[1..][1..] == ps[2..] && ps[2..][1..] == ps[3..] && ps[3..][1..] == [];
    var d1 := PartMeant(NOTHING, ps[0]);
    var d2 := PartMeant(d1, ps[1]);
    var d3 := PartMeant(d2, ps[2]);
    assert PartsMeant(d3, ps[3..]) == PartsMeant(PartMeant(d3, ps[3]), []);
    assert PartsMeant(d2, ps[2..]) == PartsMeant(d3, ps[3..]);
    assert PartsMeant(d1, ps[1..]) == PartsMeant(d2, ps[2..]);
  }

  /** The form of a writable device is a good one, its tokens lex, and it means the device. */
  lemma FormMeans(name: string, d: Device)
    requires Codegen.IsName(name) && Writable(d)
    ensures var f := FormOf(name, d);
            GoodFile(f) && AllLex(FileTokens(f)) && FileMeant(f) == File(Some(d), None)
  {
    hide Lexes, Codegen.IsName, PartsTokens, PartsOf, PartsMeant, Writable, GoodPart;
    MarksLex();
    DeviceKeysLex();
    WordLexes(name);
    FourParts(d);
    PartsLex(PartsOf(d));
    var f := FormOf(name, d);
    assert FileTokens(f) == MainTokens(f.main);
  }

  /** The source text of any device that can be written, under any name, compiles to a file
      that holds exactly that device. */
  lemma DeviceSurvivesText(name: string, d: Device)
    requires Codegen.IsName(name) && Writable(d)
    ensures Pipeline.Compiled(Text(FormOf(name, d))) == Pipeline.Ready(File(Some(d), None))
  {
    hide GoodFile, FileTokens, FileMeant, Writable, Text, FormOf, Codegen.IsName, AllLex;
    FormMeans(name, d);
    FileSurvivesText(FormOf(name, d));
  }

  // ===== every device that is read can be written =====

  ghost predicate NamesAreNames(t: seq<Lexeme>) {
    forall i :: 0 <= i < |t| && t[i].kind.Ident? ==> Codegen.IsName(t[i].text)
  }

  lemma FoundName(s: string)
    requires s != "" && X.Next(s).Found? && X.Next(s).lex.kind.Ident?
    ensures Codegen.IsName(X.Next(s).lex.text)
  {
    hide X.NumberLexeme, X.CommentRest, X.StringRest, Tokens.Classify;
  }

  lemma {:induction false} LexedNames(s: string)
    ensures NamesAreNames(X.Lexemes(s).toks)
    decreases |s|
  {
    hide X.Next, Codegen.IsName;
    if s != "" {
      match X.Next(s)
      case Skip(n, _) => LexedNames(s[n..]);
      case Found(l) =>
        LexedNames(s[|l.text|..]);
        if l.kind.Ident? {
          FoundName(s);
        }
    }
  }

  lemma {:induction false} MembersAreWritable(t: seq<Lexeme>, c: Cursor)
    requires In(t, c) && NamesAreNames(t)
    ensures forall m :: m in Members(t, c).val ==> WritableMember(m)
    decreases |t| - c.pos
  {
    hide Codegen.IsName, DeclSpec.Want, DeclSpec.Skip, DeclSpec.PastDefault;
    if Kind(t, c).Ident? {
      MembersAreWritable(t, MemberAt(t, c).next);
    }
  }

  lemma RegisterIsWritable(t: seq<Lexeme>, c: Cursor, simplified: bool)
    requires In(t, c) && NamesAreNames(t) && Kind(t, c).Ident?
    ensures WritableRegister(RegisterAt(t, c, simplified).val)
  {
    hide Codegen.IsName, DeclSpec.Want, DeclSpec.Skip, DeclSpec.AccessAt, DeclSpec.PastAccess, DeclSpec.PastDefault,
         WritableMember, DeclSpec.Members;
    if IsBitfield(t, c, simplified) {
      MembersAreWritable(t, Want(t, PastAccess(t, AccessAt(t, c, simplified)), LBrace));
    }
  }

  lemma {:induction false} RegistersAreWritable(t: seq<Lexeme>, c: Cursor, simplified: bool)
    requires In(t, c) && NamesAreNames(t)
    ensures forall r :: r in Registers(t, c, simplified).val ==> WritableRegister(r)
    decreases |t| - c.pos
  {
    hide DeclSpec.RegisterAt, WritableRegister, NamesAreNames, DeclSpec.Skip;
    if !EndsList(Kind(t, c)) {
      if Kind(t, c).Ident? {
        RegisterIsWritable(t, c, simplified);
        RegistersAreWritable(t, RegisterAt(t, c, simplified).next, simplified);
      } else {
        RegistersAreWritable(t, Skip(t, c), simplified);
      }
    }
  }

  lemma {:induction false} NamedAreNames(t: seq<Lexeme>, c: Cursor, block: Block)
    requires In(t, c) && NamesAreNames(t) && !block.Power?
    ensures AllNames(Named(t, c, block).val)
    decreases |t| - c.pos
  {
    hide DeclSpec.PastNamed, Codegen.IsName, DeclSpec.Skip;
    if !EndsList(Kind(t, c)) {
      if Kind(t, c).Ident? {
        NamedAreNames(t, PastNamed(t, c, block), block);
      } else {
        NamedAreNames(t, Skip(t, c), block);
      }
    }
  }

  lemma PartIsWritable(t: seq<Lexeme>, c: Cursor, dev: Device)
    requires In(t, c) && NamesAreNames(t) && !Kind(t, c).EOF? && Writable(dev)
    ensures Writable(DevicePart(t, c, dev).val)
  {
    hide DeclSpec.Registers, DeclSpec.Named, DeclSpec.Want, DeclSpec.Skip, AllNames, WritableRegister, NamesAreNames;
    var d := Want(t, Skip(t, c), LBrace);
    RegistersAreWritable(t, d, IsWord(t[c.pos], "register_map"));
    NamedAreNames(t, d, Signals);
    NamedAreNames(t, d, Capabilities);
    NamedAreNames(t, d, Config);
  }

  lemma {:induction false} BodyIsWritable(t: seq<Lexeme>, c: Cursor, dev: Device)
    requires In(t, c) && NamesAreNames(t) && Writable(dev)
    ensures Writable(DeviceBody(t, c, dev).val)
    decreases |t| - c.pos
  {
    hide DeclSpec.DevicePart, Writable, NamesAreNames;
    if !EndsList(Kind(t, c)) {
      PartIsWritable(t, c, dev);
      BodyIsWritable(t, DevicePart(t, c, dev).next, DevicePart(t, c, dev).val);
    }
  }

  lemma FileIsWritable(t: seq<Lexeme>)
    requires Terminated(t) && NamesAreNames(t) && FileAt(t).val.device.Some?
    ensures Writable(FileAt(t).val.device.value)
  {
    hide DeclSpec.DeviceBody, NamesAreNames, DeclSpec.MainAt, DeclSpec.DeviceStart, DeclSpec.DriverAt, DeclSpec.Want;
    assert Writable(NO_DEVICE);
    BodyIsWritable(t, DeviceStart(t, MainAt(t)), NO_DEVICE);
  }

  /** Some text compiles to exactly this device. */
  ghost predicate HasText(d: Device) {
    exists src :: Pipeline.Compiled(src) == Pipeline.Ready(File(Some(d), None))
  }

  /** The devices that come from some text are exactly those that can be written. */
  lemma HasTextIff(d: Device)
    ensures HasText(d) <==> Writable(d)
  {
    hide X.Lexemes, DeclSpec.FileAt, Writable, Text, FormOf, NamesAreNames, Codegen.IsName;
    if HasText(d) {
      var src :| Pipeline.Compiled(src) == Pipeline.Ready(File(Some(d), None));
      LexedNames(src);
      Pipeline.CompilesIff(src);
      FileIsWritable(X.Lexemes(src).toks);
    }
    if Writable(d) {
      ANameIsOne();
      DeviceSurvivesText("dev0", d);
    }
  }

  lemma ANameIsOne()
    ensures Codegen.IsName("dev0")
  {
  }
}
