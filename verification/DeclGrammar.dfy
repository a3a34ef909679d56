/** The declarations of the language in every form (lang/grammar/kdh.ebnf, kdc.ebnf, and the
    forms compiler/parser.c takes beside them): how each is spelled in tokens, and what it
    declares. Nothing here looks at the parser. */
module DeclGrammar {
  import opened Wrappers
  import opened Tokens
  import opened Grammar
  import opened StmtGrammar
  import opened TokenText
  import opened Sema
  import A = Ast

  // ===== pieces =====

  /** An integer or hexadecimal literal. */
  predicate IsNum(l: Lexeme) { l.kind.Int? || l.kind.Hex? }

  predicate NumOr(l: Option<Lexeme>) { l.Some? ==> IsNum(l.value) }

  ghost predicate ProperOr(e: Option<Cst>) { e.Some? ==> Proper(e.value) }

  predicate NotEnd(l: Lexeme) { !l.kind.EOF? }

  function AccessWord(a: Access): string {
    match a case RW => "rw" case RO => "ro" case WO => "wo" case RC => "rc"
  }

  /** An optional access qualifier; without one, read and write. */
  function Qualifier(a: Option<Access>): seq<Lexeme> {
    if a.None? then [] else [Key(AccessWord(a.value))]
  }

  function AccessMeant(a: Option<Access>): Access {
    if a.None? then RW else a.value
  }

  /** An optional `@ offset`. */
  function Offset(at: Option<Lexeme>): seq<Lexeme> {
    if at.None? then [] else [AT, at.value]
  }

  /** An optional literal. */
  function Literal(l: Option<Lexeme>): seq<Lexeme> {
    if l.None? then [] else [l.value]
  }

  /** An optional `= expression`. */
  function Init(e: Option<Cst>): seq<Lexeme> {
    if e.None? then [] else [EQUALS] + Yield(e.value)
  }

  // ===== registers =====

  /** The 32-bit int a literal is converted to. */
  predicate IsInt32(v: int, i: int) {
    -0x8000_0000 <= i < 0x8000_0000 && (v - i) % 0x1_0000_0000 == 0
  }

  /** Where a member lies: nowhere said, one bit, or a range. */
  datatype BitsForm =
    | NoBits
    | OneBit(at: Lexeme, bit: int)
    | BitSpan(low: Lexeme, high: Lexeme, lo: int, hi: int)

  datatype MemberForm = MemberForm(name: string, bits: BitsForm, init: Option<Cst>)

  datatype RegisterForm =
    | Compact(name: string, offset: Option<Lexeme>, access: Option<Access>)
    | Scalar(name: string, width: int, at: Option<Lexeme>, access: Option<Access>, init: Option<Cst>)
    | Fields(name: string, at: Option<Lexeme>, access: Option<Access>, members: seq<MemberForm>)

  predicate GoodBits(b: BitsForm) {
    match b
    case NoBits => true
    case OneBit(n, i) => IsNum(n) && IsInt32(n.ival, i)
    case BitSpan(l, h, lo, hi) => IsNum(l) && IsNum(h) && IsInt32(l.ival, lo) && IsInt32(h.ival, hi)
  }

  ghost predicate GoodMember(m: MemberForm) { GoodBits(m.bits) && ProperOr(m.init) }

  ghost predicate GoodMembers(ms: seq<MemberForm>) { forall m :: m in ms ==> GoodMember(m) }

  ghost predicate GoodRegister(r: RegisterForm) {
    match r
    case Compact(_, offset, _) => NumOr(offset)
    case Scalar(_, width, at, _, init) => width in {8, 16, 32, 64} && NumOr(at) && ProperOr(init)
    case Fields(_, at, _, ms) => NumOr(at) && GoodMembers(ms)
  }

  function BitsTokens(b: BitsForm): seq<Lexeme> {
    match b
    case NoBits => []
    case OneBit(n, _) => [n]
    case BitSpan(l, h, _, _) => [l, DOTS, h]
  }

  /** `name : bits = reset ;`. */
  function MemberTokens(m: MemberForm): seq<Lexeme> {
    [Word(m.name), COLON] + (BitsTokens(m.bits) + (Init(m.init) + [SEMICOLON]))
  }

  function MembersTokens(ms: seq<MemberForm>): seq<Lexeme> {
    if ms == [] then [] else MemberTokens(ms[0]) + MembersTokens(ms[1..])
  }

  function WidthWord(width: int): string {
    if width == 8 then "u8" else if width == 16 then "u16" else if width == 64 then "u64" else "u32"
  }

  /** `name offset access ;`, `name : uN @ offset access = reset ;` and
      `name : bitfield @ offset access { members } ;`. */
  function RegisterTokens(r: RegisterForm): seq<Lexeme> {
    match r
    case Compact(name, offset, access) => [Word(name)] + (Literal(offset) + (Qualifier(access) + [SEMICOLON]))
    case Scalar(name, width, at, access, init) =>
      [Word(name), COLON, Key(WidthWord(width))] + (Offset(at) + (Qualifier(access) + (Init(init) + [SEMICOLON])))
    case Fields(name, at, access, ms) =>
      [Word(name), COLON, Key("bitfield")]
      + (Offset(at) + (Qualifier(access) + ([LBRACE] + (MembersTokens(ms) + [RBRACE, SEMICOLON]))))
  }

  function RegistersTokens(rs: seq<RegisterForm>): seq<Lexeme> {
    if rs == [] then [] else RegisterTokens(rs[0]) + RegistersTokens(rs[1..])
  }

  function MemberMeant(m: MemberForm): Member {
    match m.bits
    case NoBits => Member(m.name, 0, 0)
    case OneBit(_, i) => Member(m.name, i, i)
    case BitSpan(_, _, lo, hi) => Member(m.name, lo, hi)
  }

  function MembersMeant(ms: seq<MemberForm>): seq<Member> {
    if ms == [] then [] else [MemberMeant(ms[0])] + MembersMeant(ms[1..])
  }

  function RegisterMeant(r: RegisterForm): Register {
    match r
    case Compact(name, _, access) => Register(name, 32, false, AccessMeant(access), [])
    case Scalar(name, width, _, access, _) => Register(name, width, false, AccessMeant(access), [])
    case Fields(name, _, access, ms) => Register(name, 0, true, AccessMeant(access), MembersMeant(ms))
  }

  function RegistersMeant(rs: seq<RegisterForm>): seq<Register> {
    if rs == [] then [] else [RegisterMeant(rs[0])] + RegistersMeant(rs[1..])
  }

  // ===== the other declarations of a device =====

  datatype Direction = Inward | Outward | BothWays

  datatype Trigger = OnEdge(word: string) | OnLevel(word: string) | Completion | Timeout(e: Cst)

  datatype NamedForm =
    | Signal(name: string, typed: bool, dir: Option<Direction>, trigger: Option<Trigger>)
    | Capability(name: string, equals: bool, value: Option<Cst>)
    | PowerState(tok: Lexeme, spec: Option<Lexeme>)
    | Field(name: string, ty: Lexeme, init: Option<Cst>, range: Option<(Cst, Cst)>)

  ghost predicate GoodTrigger(t: Trigger) {
    match t
    case OnEdge(w) => w in {"rising", "falling", "any"}
    case OnLevel(w) => w in {"high", "low"}
    case Completion => true
    case Timeout(e) => Proper(e)
  }

  ghost predicate GoodNamed(f: NamedForm) {
    match f
    case Signal(_, typed, dir, trigger) =>
      (trigger.Some? ==> GoodTrigger(trigger.value)) && (!typed ==> dir.None? && trigger.None?)
    case Capability(_, _, value) => ProperOr(value)
    case PowerState(tok, spec) =>
      && (tok.kind.Ident? || tok.kind in {Kw("on"), Kw("off"), Kw("suspend"), Kw("default")})
      && (spec.Some? ==> NotEnd(spec.value))
    case Field(_, ty, init, range) =>
      NotEnd(ty) && ProperOr(init) && (range.Some? ==> Proper(range.value.0) && Proper(range.value.1))
  }

  function DirectionTokens(d: Option<Direction>): seq<Lexeme> {
    match d
    case None => []
    case Some(Inward) => [Key("in")]
    case Some(Outward) => [Word("out")]
    case Some(BothWays) => [Word("inout")]
  }

  function TriggerTokens(t: Option<Trigger>): seq<Lexeme> {
    match t
    case None => []
    case Some(OnEdge(w)) => [Key("edge"), LPAREN, Key(w), RPAREN]
    case Some(OnLevel(w)) => [Key("level"), LPAREN, Key(w), RPAREN]
    case Some(Completion) => [Key("completion")]
    case Some(Timeout(e)) => [Key("timeout"), LPAREN] + (Yield(e) + [RPAREN])
  }

  function RangeTokens(r: Option<(Cst, Cst)>): seq<Lexeme> {
    if r.None? then [] else [Key("in")] + (Yield(r.value.0) + ([DOTS] + Yield(r.value.1)))
  }

  /** `name : direction trigger ;`, `name = value ;`, `name : spec ;`, and
      `name : type = default in low .. high ;`, what is optional in each left out. */
  function NamedTokens(f: NamedForm): seq<Lexeme> {
    match f
    case Signal(name, typed, dir, trigger) =>
      if typed then [Word(name), COLON] + (DirectionTokens(dir) + (TriggerTokens(trigger) + [SEMICOLON]))
      else [Word(name), SEMICOLON]
    case Capability(name, equals, value) =>
      [Word(name)] + ((if value.None? then [] else if equals then Init(value) else Yield(value.value)) + [SEMICOLON])
    case PowerState(tok, spec) => [tok] + ((if spec.None? then [] else [COLON, spec.value]) + [SEMICOLON])
    case Field(name, ty, init, range) => [Word(name), COLON, ty] + (Init(init) + (RangeTokens(range) + [SEMICOLON]))
  }

  function NamesTokens(fs: seq<NamedForm>): seq<Lexeme> {
    if fs == [] then [] else NamedTokens(fs[0]) + NamesTokens(fs[1..])
  }

  function NameMeant(f: NamedForm): string {
    if f.PowerState? then f.tok.text else f.name
  }

  function NamesMeant(fs: seq<NamedForm>): seq<string> {
    if fs == [] then [] else [NameMeant(fs[0])] + NamesMeant(fs[1..])
  }

  // ===== devices =====

  datatype DeviceItem =
    | ClassClause(tok: Lexeme)
    | CompatibleClause(tok: Lexeme)
    | RegisterPart(simplified: bool, registers: seq<RegisterForm>)
    | SignalPart(names: seq<NamedForm>)
    | CapabilityPart(names: seq<NamedForm>)
    | PowerPart(simplified: bool, names: seq<NamedForm>)
    | ConfigPart(names: seq<NamedForm>)

  ghost predicate GoodNames(fs: seq<NamedForm>) { forall f :: f in fs ==> GoodNamed(f) }

  ghost predicate GoodPart(p: DeviceItem) {
    match p
    case ClassClause(tok) => NotEnd(tok)
    case CompatibleClause(tok) => NotEnd(tok)
    case RegisterPart(simplified, rs) => forall r :: r in rs ==> GoodRegister(r) && (simplified ==> r.Compact?)
    case SignalPart(fs) => GoodNames(fs) && forall f :: f in fs ==> f.Signal?
    case CapabilityPart(fs) => GoodNames(fs) && forall f :: f in fs ==> f.Capability?
    case PowerPart(simplified, fs) => GoodNames(fs) && forall f :: f in fs ==> f.PowerState? && (simplified ==> f.spec.None?)
    case ConfigPart(fs) => GoodNames(fs) && forall f :: f in fs ==> f.Field?
  }

  function Braced(head: Lexeme, inner: seq<Lexeme>): seq<Lexeme> {
    [head, LBRACE] + (inner + [RBRACE])
  }

  function PartTokens(p: DeviceItem): seq<Lexeme> {
    match p
    case ClassClause(tok) => [Key("class"), tok, SEMICOLON]
    case CompatibleClause(tok) => [Word("compatible"), tok, SEMICOLON]
    case RegisterPart(simplified, rs) => Braced(if simplified then Word("register_map") else Key("registers"), RegistersTokens(rs))
    case SignalPart(fs) => Braced(Key("signals"), NamesTokens(fs))
    case CapabilityPart(fs) => Braced(Key("capabilities"), NamesTokens(fs))
    case PowerPart(simplified, fs) => Braced(if simplified then Word("power_states") else Key("power"), NamesTokens(fs))
    case ConfigPart(fs) => Braced(Key("config"), NamesTokens(fs))
  }

  function PartsTokens(ps: seq<DeviceItem>): seq<Lexeme> {
    if ps == [] then [] else PartTokens(ps[0]) + PartsTokens(ps[1..])
  }

  /** A later block of a kind replaces an earlier one. */
  function PartMeant(d: Device, p: DeviceItem): Device {
    match p
    case RegisterPart(_, rs) => d.(registers := RegistersMeant(rs))
    case SignalPart(fs) => d.(signals := NamesMeant(fs))
    case CapabilityPart(fs) => d.(capabilities := NamesMeant(fs))
    case ConfigPart(fs) => d.(config := NamesMeant(fs))
    case _ => d
  }

  function PartsMeant(d: Device, ps: seq<DeviceItem>): Device
    decreases ps
  {
    if ps == [] then d else PartsMeant(PartMeant(d, ps[0]), ps[1..])
  }

  // ===== drivers =====

  datatype DriverItem =
    | ProbePart(body: seq<Stm>)
    | RemovePart(body: seq<Stm>)
    | HandlerPart(event: Lexeme, args: seq<Lexeme>, body: seq<Stm>)
    | OptionPart(toks: seq<Lexeme>)

  predicate Without(ts: seq<Lexeme>, k: Tok) {
    forall l :: l in ts ==> NotEnd(l) && l.kind != k
  }

  ghost predicate GoodDriverPart(p: DriverItem) {
    match p
    case ProbePart(b) => GoodList(b)
    case RemovePart(b) => GoodList(b)
    case HandlerPart(event, args, b) => NotEnd(event) && Without(args, RParen) && GoodList(b)
    case OptionPart(toks) => Without(toks, RBrace)
  }

  function DriverPartTokens(p: DriverItem): seq<Lexeme> {
    match p
    case ProbePart(b) => Braced(Key("probe"), ListTokens(b))
    case RemovePart(b) => Braced(Key("remove"), ListTokens(b))
    case HandlerPart(event, args, b) =>
      [Key("on"), event, LPAREN] + (args + ([RPAREN, LBRACE] + (ListTokens(b) + [RBRACE])))
    case OptionPart(toks) => Braced(Key("config"), toks)
  }

  function DriverPartsTokens(ps: seq<DriverItem>): seq<Lexeme> {
    if ps == [] then [] else DriverPartTokens(ps[0]) + DriverPartsTokens(ps[1..])
  }

  /** The last probe and the last remove count; handlers add up. */
  ghost function DriverPartMeant(d: Driver, p: DriverItem): Driver
    requires GoodDriverPart(p)
  {
    match p
    case ProbePart(b) => d.(probe := Some(FlattenList(b)))
    case RemovePart(b) => d.(remove := Some(FlattenList(b)))
    case HandlerPart(_, _, b) => d.(handlers := d.handlers + [Handler(FlattenList(b))])
    case OptionPart(_) => d
  }

  ghost function DriverPartsMeant(d: Driver, ps: seq<DriverItem>): Driver
    requires forall p :: p in ps ==> GoodDriverPart(p)
    decreases ps
  {
    if ps == [] then d else DriverPartsMeant(DriverPartMeant(d, ps[0]), ps[1..])
  }

  // ===== statements =====

  function CallWord(kind: A.Kind): string {
    match kind
    case RegWriteStmt => "write"
    case EmitStmt => "emit"
    case WaitStmt => "wait"
    case ArmStmt => "arm"
    case CancelStmt => "cancel"
    case LogStmt => "log"
    case _ => "?"
  }

  function ArgsTokens(args: seq<Cst>): seq<Lexeme> {
    if args == [] then []
    else Yield(args[0]) + if |args| > 1 then [COMMA] + ArgsTokens(args[1..]) else []
  }

  /** The tokens of a statement; the type of a typed let is written u32. */
  function StmTokens(s: Stm): seq<Lexeme>
    decreases s, 1
  {
    match s
    case Let(name, typed, e) =>
      [Key("let"), Word(name)] + ((if typed then [COLON, Key("u32")] else []) + ([EQUALS] + (Yield(e) + [SEMICOLON])))
    case Call(kind, args) => [Key(CallWord(kind)), LPAREN] + (ArgsTokens(args) + [RPAREN, SEMICOLON])
    case Return(v) => [Key("return")] + ((if v.Some? then Yield(v.value) else []) + [SEMICOLON])
    case Assign(l, r) => Yield(l) + ([EQUALS] + (Yield(r) + [SEMICOLON]))
    case If(c, b, rest) => ArmTokens("if", c, b) + TailTokens(rest)
    case For(v, lo, hi, b) =>
      [Key("for"), Word(v), Key("in")] + (Yield(lo) + ([DOTS] + (Yield(hi) + ([LBRACE] + (ListTokens(b) + [RBRACE])))))
  }

  function ArmTokens(word: string, c: Cst, b: seq<Stm>): seq<Lexeme>
    decreases b, 2
  {
    [Key(word), LPAREN] + (Yield(c) + ([RPAREN, LBRACE] + (ListTokens(b) + [RBRACE])))
  }

  function TailTokens(r: Tail): seq<Lexeme>
    decreases r, 0
  {
    match r
    case Fi => []
    case Elif(c, b, rest) => ArmTokens("elif", c, b) + TailTokens(rest)
    case Else(b) => [Key("else"), LBRACE] + (ListTokens(b) + [RBRACE])
  }

  function ListTokens(ss: seq<Stm>): seq<Lexeme>
    decreases ss, 0
  {
    if ss == [] then [] else StmTokens(ss[0]) + ListTokens(ss[1..])
  }

  // ===== files =====

  datatype Import = Import(path: Lexeme, name: Option<string>)

  datatype BackendOption = BackendOption(name: string, value: Cst)

  datatype Backend = Backend(name: Lexeme, braces: bool, options: seq<BackendOption>)

  datatype Main =
    | DeviceMain(class_: bool, name: string, parts: seq<DeviceItem>)
    | DriverMain(name: string, target: seq<string>, body: seq<DriverItem>)

  datatype FileForm = FileForm(version: Option<Lexeme>, imports: seq<Import>, backend: Option<Backend>, main: Main)

  ghost predicate GoodMain(m: Main) {
    match m
    case DeviceMain(_, _, ps) => forall p :: p in ps ==> GoodPart(p)
    case DriverMain(_, _, ps) => forall p :: p in ps ==> GoodDriverPart(p)
  }

  ghost predicate GoodFile(f: FileForm) {
    && (f.version.Some? ==> f.version.value.kind.Str?)
    && (forall i :: i in f.imports ==> i.path.kind.Str?)
    && (f.backend.Some? ==>
          && NotEnd(f.backend.value.name) && (!f.backend.value.braces ==> f.backend.value.options == [])
          && forall o :: o in f.backend.value.options ==> Proper(o.value))
    && GoodMain(f.main)
  }

  function VersionTokens(v: Option<Lexeme>): seq<Lexeme> {
    if v.None? then [] else [Key("kdal_version"), COLON, v.value, SEMICOLON]
  }

  function ImportTokens(i: Import): seq<Lexeme> {
    [Key("import"), i.path] + ((if i.name.None? then [] else [Key("as"), Word(i.name.value)]) + [SEMICOLON])
  }

  function ImportsTokens(ms: seq<Import>): seq<Lexeme> {
    if ms == [] then [] else ImportTokens(ms[0]) + ImportsTokens(ms[1..])
  }

  function OptionsTokens(os: seq<BackendOption>): seq<Lexeme> {
    if os == [] then []
    else [Word(os[0].name), COLON] + (Yield(os[0].value) + [SEMICOLON]) + OptionsTokens(os[1..])
  }

  function BackendTokens(b: Option<Backend>): seq<Lexeme> {
    if b.None? then []
    else [Key("backend"), b.value.name] + if b.value.braces then [LBRACE] + (OptionsTokens(b.value.options) + [RBRACE]) else []
  }

  function DottedTokens(names: seq<string>): seq<Lexeme> {
    if names == [] then [] else [DOT, Word(names[0])] + DottedTokens(names[1..])
  }

  function TargetTokens(names: seq<string>): seq<Lexeme> {
    if names == [] then [] else [Key("for"), Word(names[0])] + DottedTokens(names[1..])
  }

  function MainTokens(m: Main): seq<Lexeme> {
    match m
    case DeviceMain(class_, name, ps) =>
      [Key("device")] + ((if class_ then [Key("class")] else []) + ([Word(name), LBRACE] + (PartsTokens(ps) + [RBRACE])))
    case DriverMain(name, target, ps) =>
      [Key("driver"), Word(name)] + (TargetTokens(target) + ([LBRACE] + (DriverPartsTokens(ps) + [RBRACE])))
  }

  function FileTokens(f: FileForm): seq<Lexeme> {
    VersionTokens(f.version) + (ImportsTokens(f.imports) + (BackendTokens(f.backend) + MainTokens(f.main)))
  }

  const NOTHING := Device([], [], [], [])
  const IDLE := Driver(None, None, [])

  /** What the file declares. */
  ghost function FileMeant(f: FileForm): File
    requires GoodFile(f)
  {
    match f.main
    case DeviceMain(_, _, ps) => File(Some(PartsMeant(NOTHING, ps)), None)
    case DriverMain(_, _, ps) => File(None, Some(DriverPartsMeant(IDLE, ps)))
  }
}
