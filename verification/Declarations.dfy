/** The declaration parsers and kdal_parse (compiler/parser.c), proved against the
    functions of DeclSpec. They share the parser state with the expression and statement
    methods of `Parser`. */
module Declarations {
  import opened Wrappers
  import opened Tokens
  import opened ParseSpec
  import opened StmtSpec
  import opened DeclSpec
  import opened Sema
  import A = Ast
  import P = Parser

  ghost function At(p: P.Parser): Cursor
    reads p
  {
    Cursor(p.pos, p.hadError)
  }

  // ===== single steps =====

  method Step(p: P.Parser)
    requires p.Valid()
    modifies p
    ensures p.Valid() && At(p) == Skip(p.tokens, old(At(p)))
  {
    p.Advance();
  }

  method StepIf(p: P.Parser, b: bool)
    requires p.Valid()
    modifies p
    ensures p.Valid() && At(p) == SkipIf(p.tokens, old(At(p)), b)
  {
    if b {
      Step(p);
    }
  }

  method Need(p: P.Parser, k: Tok)
    requires p.Valid()
    modifies p
    ensures p.Valid() && At(p) == Want(p.tokens, old(At(p)), k)
  {
    var _ := p.ExpectTok(k);
  }

  method Expression(p: P.Parser)
    requires p.Valid()
    modifies p
    ensures p.Valid() && At(p) == PastExpr(p.tokens, old(At(p)))
  {
    hide ParseSpec.Climb;
    var _ := p.ParseExpr();
  }

  method ParseDefault(p: P.Parser)
    requires p.Valid()
    modifies p
    ensures p.Valid() && At(p) == PastDefault(p.tokens, old(At(p)))
  {
    hide DeclSpec.PastExpr;
    if p.Cur().kind.Eq? {
      Step(p);
      Expression(p);
    }
  }

  // ===== registers =====

  method ParseAccess(p: P.Parser) returns (access: Access)
    requires p.Valid()
    modifies p
    ensures p.Valid() && At(p) == PastAccess(p.tokens, old(At(p))) && access == AccessOf(old(p.Cur()).kind)
  {
    var k := p.Cur().kind;
    StepIf(p, IsAccess(k));
    access := AccessOf(k);
  }

  method ParseOffset(p: P.Parser)
    requires p.Valid()
    modifies p
    ensures p.Valid() && At(p) == PastOffset(p.tokens, old(At(p)))
  {
    if p.Cur().kind.At? {
      Step(p);
      StepIf(p, IsLiteral(p.Cur().kind));
    }
  }

  method ParseBitRange(p: P.Parser) returns (lo: int, hi: int)
    requires p.Valid()
    modifies p
    ensures p.Valid() && Made(Range(lo, hi), At(p)) == BitRange(p.tokens, old(At(p)))
  {
    lo, hi := 0, 0;
    if IsLiteral(p.Cur().kind) {
      lo := ToInt(p.Cur().ival);
      hi := lo;
      Step(p);
      if p.Cur().kind.DotDot? {
        Step(p);
        if IsLiteral(p.Cur().kind) {
          hi := ToInt(p.Cur().ival);
          Step(p);
        }
      }
    }
  }

  method ParseMember(p: P.Parser) returns (m: Member)
    requires p.Valid() && !p.Cur().kind.EOF?
    modifies p
    ensures p.Valid() && Made(m, At(p)) == MemberAt(p.tokens, old(At(p)))
  {
    hide DeclSpec.Skip, DeclSpec.Want, DeclSpec.BitRange, DeclSpec.PastDefault;
    var name := p.Cur().text;
    Step(p);
    Need(p, Colon);
    var lo, hi := ParseBitRange(p);
    ParseDefault(p);
    Need(p, Semicolon);
    m := Member(name, lo, hi);
  }

  method ParseBitfieldMembers(p: P.Parser) returns (members: seq<Member>)
    requires p.Valid()
    modifies p
    ensures p.Valid() && Made(members, At(p)) == Members(p.tokens, old(At(p)))
  {
    hide DeclSpec.MemberAt;
    members := [];
    ghost var all := Members(p.tokens, At(p));
    assert [] + all.val == all.val;
    while p.Cur().kind.Ident?
      invariant p.Valid()
      invariant var r := Members(p.tokens, At(p)); all == Made(members + r.val, r.next)
      decreases |p.tokens| - p.pos
    {
      ghost var done := members;
      ghost var rest := Members(p.tokens, At(p));
      var m := ParseMember(p);
      members := members + [m];
      assert done + rest.val == members + rest.val[1..];
    }
    assert members + [] == members;
  }

  method ParseWidth(p: P.Parser) returns (width: nat)
    requires p.Valid()
    modifies p
    ensures p.Valid() && At(p) == PastWidth(p.tokens, old(At(p))) && width == WidthOf(old(p.Cur()).kind)
  {
    width := WidthOf(p.Cur().kind);
    if IsWidth(p.Cur().kind) {
      Step(p);
    } else {
      p.hadError := true;
    }
  }

  /** `bitfield @ offset access { members } ;`, from its keyword on. */
  method ParseBitfield(p: P.Parser, ghost from: Cursor, ghost simplified: bool)
    returns (access: Access, members: seq<Member>)
    requires p.Valid() && from.pos < |p.tokens| && IsBitfield(p.tokens, from, simplified)
    requires At(p) == TypeAt(p.tokens, from)
    modifies p
    ensures p.Valid() && access == AccessOf(Kind(p.tokens, AccessAt(p.tokens, from, simplified)))
    ensures members == MembersAt(p.tokens, from, simplified).val
    ensures At(p) == Want(p.tokens, Want(p.tokens, MembersAt(p.tokens, from, simplified).next, RBrace), Semicolon)
  {
    hide DeclSpec.Skip, DeclSpec.Want, DeclSpec.PastOffset, DeclSpec.PastAccess, DeclSpec.Members, DeclSpec.TypeAt;
    Step(p);
    ParseOffset(p);
    access := ParseAccess(p);
    Need(p, LBrace);
    members := ParseBitfieldMembers(p);
    Need(p, RBrace);
    Need(p, Semicolon);
  }

  method ParseRegisterDecl(p: P.Parser, simplified: bool) returns (reg: Register)
    requires p.Valid() && !p.Cur().kind.EOF?
    modifies p
    ensures p.Valid() && Made(reg, At(p)) == RegisterAt(p.tokens, old(At(p)), simplified)
  {
    hide DeclSpec.Skip, DeclSpec.Want, DeclSpec.PastOffset, DeclSpec.PastAccess, DeclSpec.MembersAt, DeclSpec.PastDefault, DeclSpec.PastWidth;
    ghost var from := At(p);
    var name := p.Cur().text;
    Step(p);
    if simplified || !p.Cur().kind.Colon? {
      StepIf(p, IsLiteral(p.Cur().kind));
      var access := ParseAccess(p);
      Need(p, Semicolon);
      return Register(name, 32, false, access, []);
    }
    ColonIsThere(p.tokens, At(p));
    Need(p, Colon);
    if p.Cur().kind == Kw("bitfield") {
      var access, members := ParseBitfield(p, from, simplified);
      return Register(name, 0, true, access, members);
    }
    var width := ParseWidth(p);
    ParseOffset(p);
    var access := ParseAccess(p);
    ParseDefault(p);
    Need(p, Semicolon);
    reg := Register(name, width, false, access, []);
  }

  lemma ColonIsThere(t: seq<Lexeme>, c: Cursor)
    requires c.pos < |t| && Kind(t, c).Colon?
    ensures Want(t, c, Colon) == Skip(t, c)
  {
  }

  method ParseRegisters(p: P.Parser, simplified: bool) returns (regs: seq<Register>)
    requires p.Valid()
    modifies p
    ensures p.Valid() && Made(regs, At(p)) == Registers(p.tokens, old(At(p)), simplified)
  {
    hide DeclSpec.RegisterAt;
    regs := [];
    ghost var all := Registers(p.tokens, At(p), simplified);
    assert [] + all.val == all.val;
    while !EndsList(p.Cur().kind)
      invariant p.Valid()
      invariant var r := Registers(p.tokens, At(p), simplified); all == Made(regs + r.val, r.next)
      decreases |p.tokens| - p.pos
    {
      if p.Cur().kind.Ident? {
        ghost var done := regs;
        ghost var rest := Registers(p.tokens, At(p), simplified);
        var reg := ParseRegisterDecl(p, simplified);
        regs := regs + [reg];
        assert done + rest.val == regs + rest.val[1..];
      } else {
        Step(p);
      }
    }
    assert regs + [] == regs;
  }

  method ParseRegisterBlock(p: P.Parser) returns (regs: seq<Register>)
    requires p.Valid() && !p.Cur().kind.EOF?
    modifies p
    ensures p.Valid() && Made(regs, At(p)) == RegisterBlock(p.tokens, old(At(p)))
  {
    hide DeclSpec.Skip, DeclSpec.Want, DeclSpec.Registers;
    var simplified := IsWord(p.Cur(), "register_map");
    Step(p);
    Need(p, LBrace);
    regs := ParseRegisters(p, simplified);
    Need(p, RBrace);
  }

  // ===== the other declarations of a device =====

  method ParseTrigger(p: P.Parser)
    requires p.Valid()
    modifies p
    ensures p.Valid() && At(p) == PastTrigger(p.tokens, old(At(p)))
  {
    hide DeclSpec.Skip, DeclSpec.Want, DeclSpec.PastExpr;
    var k := p.Cur().kind;
    if k == Kw("edge") || k == Kw("level") {
      Step(p);
      Need(p, LParen);
      Step(p);
      Need(p, RParen);
    } else if k == Kw("completion") {
      Step(p);
    } else if k == Kw("timeout") {
      Step(p);
      Need(p, LParen);
      Expression(p);
      Need(p, RParen);
    }
  }

  method ParseSignalDecl(p: P.Parser)
    requires p.Valid()
    modifies p
    ensures p.Valid() && At(p) == PastSignal(p.tokens, old(At(p)))
  {
    hide DeclSpec.Skip, DeclSpec.Want, DeclSpec.PastTrigger;
    Step(p);
    if p.Cur().kind.Colon? {
      Step(p);
      StepIf(p, p.Cur().kind == IN || IsWord(p.Cur(), "out") || IsWord(p.Cur(), "inout"));
      ParseTrigger(p);
    }
    Need(p, Semicolon);
  }

  method ParseCapabilityDecl(p: P.Parser)
    requires p.Valid()
    modifies p
    ensures p.Valid() && At(p) == PastCapability(p.tokens, old(At(p)))
  {
    hide DeclSpec.Skip, DeclSpec.Want, DeclSpec.PastExpr;
    Step(p);
    if p.Cur().kind.Eq? {
      Step(p);
      Expression(p);
    } else if !p.Cur().kind.Semicolon? {
      Expression(p);
    }
    Need(p, Semicolon);
  }

  method ParsePowerState(p: P.Parser, simplified: bool)
    requires p.Valid()
    modifies p
    ensures p.Valid() && At(p) == PastPowerState(p.tokens, old(At(p)), simplified)
  {
    hide DeclSpec.Skip, DeclSpec.Want;
    Step(p);
    if !simplified && p.Cur().kind.Colon? {
      Step(p);
      Step(p);
    }
    Need(p, Semicolon);
  }

  method ParseConfigField(p: P.Parser)
    requires p.Valid()
    modifies p
    ensures p.Valid() && At(p) == PastConfig(p.tokens, old(At(p)))
  {
    hide DeclSpec.Skip, DeclSpec.Want, DeclSpec.PastDefault, DeclSpec.PastExpr;
    Step(p);
    Need(p, Colon);
    Step(p);
    ParseDefault(p);
    if p.Cur().kind == IN {
      Step(p);
      Expression(p);
      Need(p, DotDot);
      Expression(p);
    }
    Need(p, Semicolon);
  }

  /** One declaration of a block, and its name. */
  method ParseNamed(p: P.Parser, block: Block) returns (name: string)
    requires p.Valid() && !p.Cur().kind.EOF?
    modifies p
    ensures p.Valid() && name == old(p.Cur()).text && At(p) == PastNamed(p.tokens, old(At(p)), block)
  {
    hide DeclSpec.PastSignal, DeclSpec.PastCapability, DeclSpec.PastPowerState, DeclSpec.PastConfig;
    name := p.Cur().text;
    match block {
      case Signals => ParseSignalDecl(p);
      case Capabilities => ParseCapabilityDecl(p);
      case Power(simplified) => ParsePowerState(p, simplified);
      case Config => ParseConfigField(p);
    }
  }

  method ParseNames(p: P.Parser, block: Block) returns (names: seq<string>)
    requires p.Valid()
    modifies p
    ensures p.Valid() && Made(names, At(p)) == Named(p.tokens, old(At(p)), block)
  {
    hide DeclSpec.PastNamed;
    names := [];
    ghost var all := Named(p.tokens, At(p), block);
    assert [] + all.val == all.val;
    while !EndsList(p.Cur().kind)
      invariant p.Valid()
      invariant var r := Named(p.tokens, At(p), block); all == Made(names + r.val, r.next)
      decreases |p.tokens| - p.pos
    {
      if Starts(block, p.Cur().kind) {
        ghost var done := names;
        ghost var rest := Named(p.tokens, At(p), block);
        var name := ParseNamed(p, block);
        names := names + [name];
        assert done + rest.val == names + rest.val[1..];
      } else {
        Step(p);
      }
    }
    assert names + [] == names;
  }

  method ParseNamedBlock(p: P.Parser, block: Block) returns (names: seq<string>)
    requires p.Valid() && !p.Cur().kind.EOF?
    modifies p
    ensures p.Valid() && Made(names, At(p)) == NamedBlock(p.tokens, old(At(p)), block)
  {
    hide DeclSpec.Skip, DeclSpec.Want, DeclSpec.Named;
    Step(p);
    Need(p, LBrace);
    names := ParseNames(p, block);
    Need(p, RBrace);
  }

  // ===== devices =====

  method ParseDevicePart(p: P.Parser, dev: Device) returns (more: Device)
    requires p.Valid() && !p.Cur().kind.EOF?
    modifies p
    ensures p.Valid() && Made(more, At(p)) == DevicePart(p.tokens, old(At(p)), dev)
  {
    hide DeclSpec.Skip, DeclSpec.Want, DeclSpec.RegisterBlock, DeclSpec.NamedBlock;
    more := dev;
    var l := p.Cur();
    if l.kind == Kw("class") || IsWord(l, "compatible") {
      Step(p);
      Step(p);
      Need(p, Semicolon);
    } else if IsRegisters(l) {
      var regs := ParseRegisterBlock(p);
      more := dev.(registers := regs);
    } else if l.kind == Kw("signals") {
      var names := ParseNamedBlock(p, Signals);
      more := dev.(signals := names);
    } else if l.kind == Kw("capabilities") {
      var names := ParseNamedBlock(p, Capabilities);
      more := dev.(capabilities := names);
    } else if l.kind == Kw("power") || IsWord(l, "power_states") {
      var _ := ParseNamedBlock(p, Power(IsWord(l, "power_states")));
    } else if l.kind == Kw("config") {
      var names := ParseNamedBlock(p, Config);
      more := dev.(config := names);
    } else {
      Step(p);
    }
  }

  method ParseDeviceBody(p: P.Parser) returns (dev: Device)
    requires p.Valid()
    modifies p
    ensures p.Valid() && Made(dev, At(p)) == DeviceBody(p.tokens, old(At(p)), NO_DEVICE)
  {
    hide DeclSpec.DevicePart;
    dev := NO_DEVICE;
    while !EndsList(p.Cur().kind)
      invariant p.Valid()
      invariant DeviceBody(p.tokens, At(p), dev) == DeviceBody(p.tokens, old(At(p)), NO_DEVICE)
      decreases |p.tokens| - p.pos
    {
      dev := ParseDevicePart(p, dev);
    }
  }

  method ParseDevice(p: P.Parser) returns (dev: Device)
    requires p.Valid()
    modifies p
    ensures p.Valid() && Made(dev, At(p)) == DeviceAt(p.tokens, old(At(p)))
  {
    hide DeclSpec.Skip, DeclSpec.Want, DeclSpec.DeviceBody;
    Step(p);
    StepIf(p, p.Cur().kind == Kw("class"));
    Step(p);
    Need(p, LBrace);
    dev := ParseDeviceBody(p);
    Need(p, RBrace);
  }

  // ===== drivers =====

  method ParseBraces(p: P.Parser) returns (body: seq<A.Node>)
    requires p.Valid()
    modifies p
    ensures p.Valid() && Made(body, At(p)) == Braces(p.tokens, old(At(p)))
  {
    hide StmtSpec.StatementList, DeclSpec.Skip, DeclSpec.Want;
    Need(p, LBrace);
    body := p.ParseStatementList();
    Need(p, RBrace);
  }

  method SkipTo(p: P.Parser, k: Tok)
    requires p.Valid()
    modifies p
    ensures p.Valid() && At(p) == PastNext(p.tokens, old(At(p)), k)
  {
    while p.Cur().kind != k && !p.Cur().kind.EOF?
      invariant p.Valid() && PastNext(p.tokens, At(p), k) == PastNext(p.tokens, old(At(p)), k)
      decreases |p.tokens| - p.pos
    {
      Step(p);
    }
    Need(p, k);
  }

  /** `on event ( ... ) { statements }`. */
  method ParseHandler(p: P.Parser) returns (h: Handler)
    requires p.Valid()
    modifies p
    ensures p.Valid()
    ensures Made(h.body, At(p)) == Braces(p.tokens, HandlerBraces(p.tokens, old(At(p))))
  {
    hide DeclSpec.Skip, DeclSpec.Want, DeclSpec.PastNext, DeclSpec.Braces;
    Step(p);
    Step(p);
    Need(p, LParen);
    SkipTo(p, RParen);
    var body := ParseBraces(p);
    h := Handler(body);
  }

  method ParseDriverPart(p: P.Parser, drv: Driver) returns (more: Driver)
    requires p.Valid() && !p.Cur().kind.EOF?
    modifies p
    ensures p.Valid() && Made(more, At(p)) == DriverPart(p.tokens, old(At(p)), drv)
  {
    hide DeclSpec.Skip, DeclSpec.Want, DeclSpec.PastNext, DeclSpec.Braces, DeclSpec.HandlerBraces;
    var k := p.Cur().kind;
    more := drv;
    if k == Kw("probe") {
      Step(p);
      var body := ParseBraces(p);
      more := drv.(probe := Some(body));
    } else if k == Kw("remove") {
      Step(p);
      var body := ParseBraces(p);
      more := drv.(remove := Some(body));
    } else if k == Kw("on") {
      var h := ParseHandler(p);
      more := drv.(handlers := drv.handlers + [h]);
    } else if k == Kw("config") {
      Step(p);
      Need(p, LBrace);
      SkipTo(p, RBrace);
    } else {
      Step(p);
    }
  }

  method ParseDots(p: P.Parser)
    requires p.Valid()
    modifies p
    ensures p.Valid() && At(p) == PastDots(p.tokens, old(At(p)))
  {
    while p.Cur().kind.Dot?
      invariant p.Valid() && PastDots(p.tokens, At(p)) == PastDots(p.tokens, old(At(p)))
      decreases |p.tokens| - p.pos
    {
      Step(p);
      StepIf(p, p.Cur().kind.Ident?);
    }
  }

  /** `driver name for class.name {`. */
  method ParseDriverStart(p: P.Parser)
    requires p.Valid()
    modifies p
    ensures p.Valid() && At(p) == DriverStart(p.tokens, old(At(p)))
  {
    hide DeclSpec.Skip, DeclSpec.Want, DeclSpec.PastDots;
    Step(p);
    Step(p);
    if p.Cur().kind == FOR {
      Step(p);
      Step(p);
      ParseDots(p);
    }
    Need(p, LBrace);
  }

  method ParseDriverBody(p: P.Parser) returns (drv: Driver)
    requires p.Valid()
    modifies p
    ensures p.Valid() && Made(drv, At(p)) == DriverBody(p.tokens, old(At(p)), NO_DRIVER)
  {
    hide DeclSpec.DriverPart;
    drv := NO_DRIVER;
    while !EndsList(p.Cur().kind)
      invariant p.Valid()
      invariant DriverBody(p.tokens, At(p), drv) == DriverBody(p.tokens, old(At(p)), NO_DRIVER)
      decreases |p.tokens| - p.pos
    {
      drv := ParseDriverPart(p, drv);
    }
  }

  method ParseDriver(p: P.Parser) returns (drv: Driver)
    requires p.Valid()
    modifies p
    ensures p.Valid() && Made(drv, At(p)) == DriverAt(p.tokens, old(At(p)))
  {
    hide DeclSpec.Want, DeclSpec.DriverBody, DeclSpec.DriverStart;
    ParseDriverStart(p);
    drv := ParseDriverBody(p);
    Need(p, RBrace);
  }

  // ===== the top level =====

  method ParseVersion(p: P.Parser)
    requires p.Valid()
    modifies p
    ensures p.Valid() && At(p) == PastVersion(p.tokens, old(At(p)))
  {
    hide DeclSpec.Skip, DeclSpec.Want;
    if p.Cur().kind == Kw("kdal_version") {
      Step(p);
      Need(p, Colon);
      StepIf(p, p.Cur().kind.Str?);
      Need(p, Semicolon);
    }
  }

  method ParseImport(p: P.Parser)
    requires p.Valid() && !p.Cur().kind.EOF?
    modifies p
    ensures p.Valid() && At(p) == PastImport(p.tokens, old(At(p)))
  {
    hide DeclSpec.Skip, DeclSpec.Want;
    Step(p);
    StepIf(p, p.Cur().kind.Str?);
    if p.Cur().kind == Kw("as") {
      Step(p);
      StepIf(p, p.Cur().kind.Ident?);
    }
    Need(p, Semicolon);
  }

  method ParseImports(p: P.Parser)
    requires p.Valid()
    modifies p
    ensures p.Valid() && At(p) == PastImports(p.tokens, old(At(p)))
  {
    hide DeclSpec.PastImport;
    while p.Cur().kind == Kw("import")
      invariant p.Valid() && PastImports(p.tokens, At(p)) == PastImports(p.tokens, old(At(p)))
      decreases |p.tokens| - p.pos
    {
      ParseImport(p);
    }
  }

  method ParseOption(p: P.Parser)
    requires p.Valid() && !p.Cur().kind.EOF?
    modifies p
    ensures p.Valid() && At(p) == PastOption(p.tokens, old(At(p)))
  {
    hide DeclSpec.Skip, DeclSpec.Want, DeclSpec.PastExpr;
    Step(p);
    Need(p, Colon);
    Expression(p);
    Need(p, Semicolon);
  }

  method ParseOptions(p: P.Parser)
    requires p.Valid()
    modifies p
    ensures p.Valid() && At(p) == PastOptions(p.tokens, old(At(p)))
  {
    hide DeclSpec.PastOption;
    while p.Cur().kind.Ident?
      invariant p.Valid() && PastOptions(p.tokens, At(p)) == PastOptions(p.tokens, old(At(p)))
      decreases |p.tokens| - p.pos
    {
      ParseOption(p);
    }
  }

  method ParseBackend(p: P.Parser)
    requires p.Valid()
    modifies p
    ensures p.Valid() && At(p) == PastBackend(p.tokens, old(At(p)))
  {
    hide DeclSpec.Skip, DeclSpec.Want, DeclSpec.PastOptions;
    if p.Cur().kind == Kw("backend") {
      Step(p);
      Step(p);
      if p.Cur().kind.LBrace? {
        Step(p);
        ParseOptions(p);
        Need(p, RBrace);
      }
    }
  }

  /** kdal_parse: no file exactly when something was reported. */
  method KdalParse(t: seq<Lexeme>) returns (file: Option<File>)
    requires Terminated(t)
    ensures file == if FileAt(t).next.err then None else Some(FileAt(t).val)
  {
    hide DeclSpec.PastVersion, DeclSpec.PastImports, DeclSpec.PastBackend, DeclSpec.DeviceAt, DeclSpec.DriverAt;
    var p := new P.Parser(t);
    ParseVersion(p);
    ParseImports(p);
    ParseBackend(p);
    var f := File(None, None);
    if p.Cur().kind == Kw("device") {
      var dev := ParseDevice(p);
      f := f.(device := Some(dev));
    } else if p.Cur().kind == Kw("driver") {
      var drv := ParseDriver(p);
      f := f.(driver := Some(drv));
    }
    file := if p.hadError then None else Some(f);
  }
}
