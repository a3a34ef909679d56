/** What the declaration parsers and kdal_parse compute (compiler/parser.c), as functions
    of the tokens and a cursor. What they build is the input of the semantic pass. */
module DeclSpec {
  import opened Wrappers
  import opened Tokens
  import opened ParseSpec
  import opened StmtSpec
  import opened Sema
  import A = Ast

  /** Position, and whether anything was reported so far. */
  datatype Cursor = Cursor(pos: nat, err: bool)

  /** What was built, and where it ended. */
  datatype Made<+T> = Made(val: T, next: Cursor)

  ghost predicate In(t: seq<Lexeme>, c: Cursor) {
    Terminated(t) && c.pos < |t|
  }

  /** The position stays inside the tokens and never goes back; a report is never lost. */
  predicate Onward(t: seq<Lexeme>, c: Cursor, d: Cursor) {
    c.pos <= d.pos < |t| && (c.err ==> d.err)
  }

  function Kind(t: seq<Lexeme>, c: Cursor): Tok
    requires c.pos < |t|
  {
    t[c.pos].kind
  }

  // ===== single steps =====

  function Skip(t: seq<Lexeme>, c: Cursor): (d: Cursor)
    requires c.pos < |t|
    ensures Onward(t, c, d)
    ensures Terminated(t) && !Kind(t, c).EOF? ==> d.pos == c.pos + 1
  {
    Cursor(Adv(t, c.pos), c.err)
  }

  function SkipIf(t: seq<Lexeme>, c: Cursor, b: bool): (d: Cursor)
    requires c.pos < |t|
    ensures Onward(t, c, d)
  {
    if b then Skip(t, c) else c
  }

  function Want(t: seq<Lexeme>, c: Cursor, k: Tok): (d: Cursor)
    requires c.pos < |t|
    ensures Onward(t, c, d)
    ensures !d.err ==> Kind(t, c) == k && (Terminated(t) && !k.EOF? ==> d.pos == c.pos + 1)
  {
    if Kind(t, c) == k then Skip(t, c) else Cursor(c.pos, true)
  }

  function PastExpr(t: seq<Lexeme>, c: Cursor): (d: Cursor)
    requires In(t, c)
    ensures Onward(t, c, d)
  {
    var x := Climb(t, c.pos, 1);
    Cursor(x.pos, c.err || x.err)
  }

  /** An optional `= expression`. */
  function PastDefault(t: seq<Lexeme>, c: Cursor): (d: Cursor)
    requires In(t, c)
    ensures Onward(t, c, d)
  {
    if Kind(t, c).Eq? then PastExpr(t, Skip(t, c)) else c
  }

  // ===== registers =====

  predicate IsLiteral(k: Tok) { k.Int? || k.Hex? }

  predicate IsAccess(k: Tok) { k in {Kw("ro"), Kw("wo"), Kw("rw"), Kw("rc")} }

  predicate IsWidth(k: Tok) { k in {Kw("u8"), Kw("u16"), Kw("u32"), Kw("u64")} }

  /** An access qualifier; without one, read and write. */
  function AccessOf(k: Tok): Access {
    if k == Kw("ro") then RO else if k == Kw("wo") then WO else if k == Kw("rc") then RC else RW
  }

  function WidthOf(k: Tok): nat {
    if k == Kw("u8") then 8 else if k == Kw("u16") then 16 else if k == Kw("u64") then 64 else 32
  }

  function PastLiteral(t: seq<Lexeme>, c: Cursor): (d: Cursor)
    requires c.pos < |t|
    ensures Onward(t, c, d)
  {
    SkipIf(t, c, IsLiteral(Kind(t, c)))
  }

  /** An optional `@ offset`. */
  function PastOffset(t: seq<Lexeme>, c: Cursor): (d: Cursor)
    requires c.pos < |t|
    ensures Onward(t, c, d)
  {
    if Kind(t, c).At? then PastLiteral(t, Skip(t, c)) else c
  }

  function PastAccess(t: seq<Lexeme>, c: Cursor): (d: Cursor)
    requires c.pos < |t|
    ensures Onward(t, c, d)
  {
    SkipIf(t, c, IsAccess(Kind(t, c)))
  }

  /** The conversion of a literal to a 32-bit int. */
  function ToInt(v: int): int {
    var m := v % 0x1_0000_0000;
    if m < 0x8000_0000 then m else m - 0x1_0000_0000
  }

  datatype Range = Range(lo: int, hi: int)

  /** `low .. high`, `bit`, or nothing; what is missing is taken from what is there. */
  function BitRange(t: seq<Lexeme>, c: Cursor): (r: Made<Range>)
    requires c.pos < |t|
    ensures Onward(t, c, r.next)
  {
    if !IsLiteral(Kind(t, c)) then Made(Range(0, 0), c)
    else
      var lo, d := ToInt(t[c.pos].ival), Skip(t, c);
      if !Kind(t, d).DotDot? then Made(Range(lo, lo), d)
      else
        var e := Skip(t, d);
        if IsLiteral(Kind(t, e)) then Made(Range(lo, ToInt(t[e.pos].ival)), Skip(t, e)) else Made(Range(lo, lo), e)
  }

  function MemberAt(t: seq<Lexeme>, c: Cursor): (r: Made<Member>)
    requires In(t, c) && !Kind(t, c).EOF?
    ensures Onward(t, c, r.next) && c.pos < r.next.pos
  {
    var b := BitRange(t, Want(t, Skip(t, c), Colon));
    Made(Member(t[c.pos].text, b.val.lo, b.val.hi), Want(t, PastDefault(t, b.next), Semicolon))
  }

  function Members(t: seq<Lexeme>, c: Cursor): (r: Made<seq<Member>>)
    requires In(t, c)
    ensures Onward(t, c, r.next) && !Kind(t, r.next).Ident?
    decreases |t| - c.pos
  {
    if !Kind(t, c).Ident? then Made([], c)
    else
      var m := MemberAt(t, c);
      var r := Members(t, m.next);
      Made([m.val] + r.val, r.next)
  }

  /** The register named at the cursor is written in the compact form
      `name offset access ;`. */
  predicate IsCompact(t: seq<Lexeme>, c: Cursor, simplified: bool)
    requires c.pos < |t|
  {
    simplified || !Kind(t, Skip(t, c)).Colon?
  }

  /** The type in `name : type ...`. */
  function TypeAt(t: seq<Lexeme>, c: Cursor): (d: Cursor)
    requires c.pos < |t|
    ensures Onward(t, c, d)
  {
    Skip(t, Skip(t, c))
  }

  /** Where the access qualifier of the register named at the cursor may stand. */
  function AccessAt(t: seq<Lexeme>, c: Cursor, simplified: bool): (d: Cursor)
    requires c.pos < |t|
    ensures Onward(t, c, d)
  {
    if IsCompact(t, c, simplified) then PastLiteral(t, Skip(t, c))
    else
      var k := TypeAt(t, c);
      if Kind(t, k) == Kw("bitfield") then PastOffset(t, Skip(t, k)) else PastOffset(t, PastWidth(t, k))
  }

  /** A type other than a bitfield must be a width. */
  function PastWidth(t: seq<Lexeme>, c: Cursor): (d: Cursor)
    requires c.pos < |t|
    ensures Onward(t, c, d)
  {
    if IsWidth(Kind(t, c)) then Skip(t, c) else Cursor(c.pos, true)
  }

  predicate IsBitfield(t: seq<Lexeme>, c: Cursor, simplified: bool)
    requires c.pos < |t|
  {
    !IsCompact(t, c, simplified) && Kind(t, TypeAt(t, c)) == Kw("bitfield")
  }

  function MembersAt(t: seq<Lexeme>, c: Cursor, simplified: bool): (r: Made<seq<Member>>)
    requires In(t, c)
    ensures Onward(t, c, r.next)
  {
    Members(t, Want(t, PastAccess(t, AccessAt(t, c, simplified)), LBrace))
  }

  function RegisterAt(t: seq<Lexeme>, c: Cursor, simplified: bool): (r: Made<Register>)
    requires In(t, c) && !Kind(t, c).EOF?
    ensures Onward(t, c, r.next) && c.pos < r.next.pos
  {
    var name, a := t[c.pos].text, AccessAt(t, c, simplified);
    var access, b := AccessOf(Kind(t, a)), PastAccess(t, a);
    assert c.pos < a.pos;
    if IsCompact(t, c, simplified) then
      Made(Register(name, 32, false, access, []), Want(t, b, Semicolon))
    else if IsBitfield(t, c, simplified) then
      var m := MembersAt(t, c, simplified);
      Made(Register(name, 0, true, access, m.val), Want(t, Want(t, m.next, RBrace), Semicolon))
    else
      Made(Register(name, WidthOf(Kind(t, TypeAt(t, c))), false, access, []), Want(t, PastDefault(t, b), Semicolon))
  }

  /** The registers between the braces; what starts no declaration is skipped. */
  function Registers(t: seq<Lexeme>, c: Cursor, simplified: bool): (r: Made<seq<Register>>)
    requires In(t, c)
    ensures Onward(t, c, r.next) && EndsList(Kind(t, r.next))
    decreases |t| - c.pos
  {
    if EndsList(Kind(t, c)) then Made([], c)
    else if !Kind(t, c).Ident? then Registers(t, Skip(t, c), simplified)
    else
      var x := RegisterAt(t, c, simplified);
      var r := Registers(t, x.next, simplified);
      Made([x.val] + r.val, r.next)
  }

  predicate IsWord(l: Lexeme, name: string) {
    l.kind.Ident? && l.text == name
  }

  /** `registers { ... }` or `register_map { ... }`. */
  function RegisterBlock(t: seq<Lexeme>, c: Cursor): (r: Made<seq<Register>>)
    requires In(t, c) && !Kind(t, c).EOF?
    ensures Onward(t, c, r.next) && c.pos < r.next.pos
  {
    var r := Registers(t, Want(t, Skip(t, c), LBrace), IsWord(t[c.pos], "register_map"));
    Made(r.val, Want(t, r.next, RBrace))
  }

  // ===== the other declarations of a device =====

  function PastTrigger(t: seq<Lexeme>, c: Cursor): (d: Cursor)
    requires In(t, c)
    ensures Onward(t, c, d)
  {
    var k := Kind(t, c);
    if k == Kw("edge") || k == Kw("level") then Want(t, Skip(t, Want(t, Skip(t, c), LParen)), RParen)
    else if k == Kw("completion") then Skip(t, c)
    else if k == Kw("timeout") then Want(t, PastExpr(t, Want(t, Skip(t, c), LParen)), RParen)
    else c
  }

  function PastDirection(t: seq<Lexeme>, c: Cursor): (d: Cursor)
    requires c.pos < |t|
    ensures Onward(t, c, d)
  {
    SkipIf(t, c, Kind(t, c) == IN || IsWord(t[c.pos], "out") || IsWord(t[c.pos], "inout"))
  }

  function PastSignal(t: seq<Lexeme>, c: Cursor): (d: Cursor)
    requires In(t, c)
    ensures Onward(t, c, d)
  {
    var n := Skip(t, c);
    Want(t, if Kind(t, n).Colon? then PastTrigger(t, PastDirection(t, Skip(t, n))) else n, Semicolon)
  }

  function PastCapability(t: seq<Lexeme>, c: Cursor): (d: Cursor)
    requires In(t, c)
    ensures Onward(t, c, d)
  {
    var n := Skip(t, c);
    var k := Kind(t, n);
    Want(t, if k.Eq? then PastExpr(t, Skip(t, n)) else if k.Semicolon? then n else PastExpr(t, n), Semicolon)
  }

  predicate IsPowerState(k: Tok) {
    k.Ident? || k in {Kw("on"), Kw("off"), Kw("suspend"), Kw("default")}
  }

  function PastPowerState(t: seq<Lexeme>, c: Cursor, simplified: bool): (d: Cursor)
    requires c.pos < |t|
    ensures Onward(t, c, d)
  {
    var n := Skip(t, c);
    Want(t, if !simplified && Kind(t, n).Colon? then Skip(t, Skip(t, n)) else n, Semicolon)
  }

  function PastRange(t: seq<Lexeme>, c: Cursor): (d: Cursor)
    requires In(t, c)
    ensures Onward(t, c, d)
  {
    if Kind(t, c) == IN then PastExpr(t, Want(t, PastExpr(t, Skip(t, c)), DotDot)) else c
  }

  function PastConfig(t: seq<Lexeme>, c: Cursor): (d: Cursor)
    requires In(t, c)
    ensures Onward(t, c, d)
  {
    Want(t, PastRange(t, PastDefault(t, Skip(t, Want(t, Skip(t, c), Colon)))), Semicolon)
  }

  datatype Block = Signals | Capabilities | Power(simplified: bool) | Config

  predicate Starts(block: Block, k: Tok) {
    if block.Power? then IsPowerState(k) else k.Ident?
  }

  function PastNamed(t: seq<Lexeme>, c: Cursor, block: Block): (d: Cursor)
    requires In(t, c) && !Kind(t, c).EOF?
    ensures Onward(t, c, d) && c.pos < d.pos
  {
    match block
    case Signals => PastSignal(t, c)
    case Capabilities => PastCapability(t, c)
    case Power(simplified) => PastPowerState(t, c, simplified)
    case Config => PastConfig(t, c)
  }

  /** The names declared between the braces; what starts no declaration is skipped. */
  function Named(t: seq<Lexeme>, c: Cursor, block: Block): (r: Made<seq<string>>)
    requires In(t, c)
    ensures Onward(t, c, r.next) && EndsList(Kind(t, r.next))
    decreases |t| - c.pos
  {
    if EndsList(Kind(t, c)) then Made([], c)
    else if !Starts(block, Kind(t, c)) then Named(t, Skip(t, c), block)
    else
      var r := Named(t, PastNamed(t, c, block), block);
      Made([t[c.pos].text] + r.val, r.next)
  }

  function NamedBlock(t: seq<Lexeme>, c: Cursor, block: Block): (r: Made<seq<string>>)
    requires In(t, c) && !Kind(t, c).EOF?
    ensures Onward(t, c, r.next) && c.pos < r.next.pos
  {
    var r := Named(t, Want(t, Skip(t, c), LBrace), block);
    Made(r.val, Want(t, r.next, RBrace))
  }

  // ===== the body of a device =====

  predicate IsRegisters(l: Lexeme) { l.kind == Kw("registers") || IsWord(l, "register_map") }

  function PastClause(t: seq<Lexeme>, c: Cursor): (d: Cursor)
    requires c.pos < |t|
    ensures Onward(t, c, d)
  {
    Want(t, Skip(t, Skip(t, c)), Semicolon)
  }

  /** One part between the braces; a later block of a kind replaces an earlier one. */
  function DevicePart(t: seq<Lexeme>, c: Cursor, dev: Device): (r: Made<Device>)
    requires In(t, c) && !Kind(t, c).EOF?
    ensures Onward(t, c, r.next) && c.pos < r.next.pos
  {
    var l := t[c.pos];
    if l.kind == Kw("class") || IsWord(l, "compatible") then Made(dev, PastClause(t, c))
    else if IsRegisters(l) then
      var b := RegisterBlock(t, c);
      Made(dev.(registers := b.val), b.next)
    else if l.kind == Kw("signals") then
      var b := NamedBlock(t, c, Signals);
      Made(dev.(signals := b.val), b.next)
    else if l.kind == Kw("capabilities") then
      var b := NamedBlock(t, c, Capabilities);
      Made(dev.(capabilities := b.val), b.next)
    else if l.kind == Kw("power") || IsWord(l, "power_states") then
      Made(dev, NamedBlock(t, c, Power(IsWord(l, "power_states"))).next)
    else if l.kind == Kw("config") then
      var b := NamedBlock(t, c, Config);
      Made(dev.(config := b.val), b.next)
    else Made(dev, Skip(t, c))
  }

  function DeviceBody(t: seq<Lexeme>, c: Cursor, dev: Device): (r: Made<Device>)
    requires In(t, c)
    ensures Onward(t, c, r.next) && EndsList(Kind(t, r.next))
    decreases |t| - c.pos
  {
    if EndsList(Kind(t, c)) then Made(dev, c)
    else
      var r := DevicePart(t, c, dev);
      DeviceBody(t, r.next, r.val)
  }

  const NO_DEVICE := Device([], [], [], [])

  /** Where the body of the device at the cursor begins. */
  function DeviceStart(t: seq<Lexeme>, c: Cursor): (d: Cursor)
    requires c.pos < |t|
    ensures Onward(t, c, d)
  {
    var n := Skip(t, c);
    Want(t, Skip(t, SkipIf(t, n, Kind(t, n) == Kw("class"))), LBrace)
  }

  function DeviceAt(t: seq<Lexeme>, c: Cursor): (r: Made<Device>)
    requires In(t, c)
    ensures Onward(t, c, r.next)
  {
    var r := DeviceBody(t, DeviceStart(t, c), NO_DEVICE);
    Made(r.val, Want(t, r.next, RBrace))
  }

  // ===== the body of a driver =====

  /** `{ statements }`. */
  function Braces(t: seq<Lexeme>, c: Cursor): (r: Made<seq<A.Node>>)
    requires In(t, c)
    ensures Onward(t, c, r.next)
  {
    var l := Want(t, c, LBrace);
    var s := StatementList(t, l.pos);
    Made(s.val, Want(t, Cursor(s.pos, l.err || s.err), RBrace))
  }

  /** Up to and over the next token of kind `k`. */
  function PastNext(t: seq<Lexeme>, c: Cursor, k: Tok): (d: Cursor)
    requires In(t, c)
    ensures Onward(t, c, d)
    decreases |t| - c.pos
  {
    if Kind(t, c) == k || Kind(t, c).EOF? then Want(t, c, k) else PastNext(t, Skip(t, c), k)
  }

  /** Where the braces of the handler `on event ( ... ) { ... }` begin. */
  function HandlerBraces(t: seq<Lexeme>, c: Cursor): (d: Cursor)
    requires In(t, c)
    ensures Onward(t, c, d) && (!Kind(t, c).EOF? ==> c.pos < d.pos)
  {
    PastNext(t, Want(t, Skip(t, Skip(t, c)), LParen), RParen)
  }

  function DriverPart(t: seq<Lexeme>, c: Cursor, drv: Driver): (r: Made<Driver>)
    requires In(t, c) && !Kind(t, c).EOF?
    ensures Onward(t, c, r.next) && c.pos < r.next.pos
  {
    var k := Kind(t, c);
    if k == Kw("probe") then
      var b := Braces(t, Skip(t, c));
      Made(drv.(probe := Some(b.val)), b.next)
    else if k == Kw("remove") then
      var b := Braces(t, Skip(t, c));
      Made(drv.(remove := Some(b.val)), b.next)
    else if k == Kw("on") then
      var b := Braces(t, HandlerBraces(t, c));
      Made(drv.(handlers := drv.handlers + [Handler(b.val)]), b.next)
    else if k == Kw("config") then Made(drv, PastNext(t, Want(t, Skip(t, c), LBrace), RBrace))
    else Made(drv, Skip(t, c))
  }

  function DriverBody(t: seq<Lexeme>, c: Cursor, drv: Driver): (r: Made<Driver>)
    requires In(t, c)
    ensures Onward(t, c, r.next) && EndsList(Kind(t, r.next))
    decreases |t| - c.pos
  {
    if EndsList(Kind(t, c)) then Made(drv, c)
    else
      var r := DriverPart(t, c, drv);
      DriverBody(t, r.next, r.val)
  }

  const NO_DRIVER := Driver(None, None, [])

  function PastDots(t: seq<Lexeme>, c: Cursor): (d: Cursor)
    requires In(t, c)
    ensures Onward(t, c, d)
    decreases |t| - c.pos
  {
    if !Kind(t, c).Dot? then c
    else
      var n := Skip(t, c);
      PastDots(t, SkipIf(t, n, Kind(t, n).Ident?))
  }

  /** Where the body of `driver name for class.name` begins. */
  function DriverStart(t: seq<Lexeme>, c: Cursor): (d: Cursor)
    requires In(t, c)
    ensures Onward(t, c, d)
  {
    var n := Skip(t, Skip(t, c));
    Want(t, if Kind(t, n) == FOR then PastDots(t, Skip(t, Skip(t, n))) else n, LBrace)
  }

  function DriverAt(t: seq<Lexeme>, c: Cursor): (r: Made<Driver>)
    requires In(t, c)
    ensures Onward(t, c, r.next)
  {
    var r := DriverBody(t, DriverStart(t, c), NO_DRIVER);
    Made(r.val, Want(t, r.next, RBrace))
  }

  // ===== the top level =====

  function PastVersion(t: seq<Lexeme>, c: Cursor): (d: Cursor)
    requires c.pos < |t|
    ensures Onward(t, c, d)
  {
    if Kind(t, c) != Kw("kdal_version") then c
    else
      var v := Want(t, Skip(t, c), Colon);
      Want(t, SkipIf(t, v, Kind(t, v).Str?), Semicolon)
  }

  function PastImport(t: seq<Lexeme>, c: Cursor): (d: Cursor)
    requires In(t, c) && !Kind(t, c).EOF?
    ensures Onward(t, c, d) && c.pos < d.pos
  {
    var i := Skip(t, c);
    var s := SkipIf(t, i, Kind(t, i).Str?);
    Want(t, if Kind(t, s) == Kw("as") then PastAlias(t, Skip(t, s)) else s, Semicolon)
  }

  function PastAlias(t: seq<Lexeme>, c: Cursor): (d: Cursor)
    requires c.pos < |t|
    ensures Onward(t, c, d)
  {
    SkipIf(t, c, Kind(t, c).Ident?)
  }

  function PastImports(t: seq<Lexeme>, c: Cursor): (d: Cursor)
    requires In(t, c)
    ensures Onward(t, c, d)
    decreases |t| - c.pos
  {
    if Kind(t, c) != Kw("import") then c else PastImports(t, PastImport(t, c))
  }

  function PastOption(t: seq<Lexeme>, c: Cursor): (d: Cursor)
    requires In(t, c) && !Kind(t, c).EOF?
    ensures Onward(t, c, d) && c.pos < d.pos
  {
    Want(t, PastExpr(t, Want(t, Skip(t, c), Colon)), Semicolon)
  }

  function PastOptions(t: seq<Lexeme>, c: Cursor): (d: Cursor)
    requires In(t, c)
    ensures Onward(t, c, d)
    decreases |t| - c.pos
  {
    if !Kind(t, c).Ident? then c else PastOptions(t, PastOption(t, c))
  }

  function PastBackend(t: seq<Lexeme>, c: Cursor): (d: Cursor)
    requires In(t, c)
    ensures Onward(t, c, d)
  {
    if Kind(t, c) != Kw("backend") then c
    else
      var n := Skip(t, Skip(t, c));
      if Kind(t, n).LBrace? then Want(t, PastOptions(t, Skip(t, n)), RBrace) else n
  }

  /** Where the device or driver of the file stands. */
  function MainAt(t: seq<Lexeme>): (d: Cursor)
    requires Terminated(t)
    ensures d.pos < |t|
  {
    PastBackend(t, PastImports(t, PastVersion(t, Cursor(0, false))))
  }

  /** The whole file: at most one of a device and a driver. */
  function FileAt(t: seq<Lexeme>): (r: Made<File>)
    requires Terminated(t)
    ensures r.next.pos < |t| && !(r.val.device.Some? && r.val.driver.Some?)
  {
    var c := MainAt(t);
    if Kind(t, c) == Kw("device") then
      var d := DeviceAt(t, c);
      Made(File(Some(d.val), None), d.next)
    else if Kind(t, c) == Kw("driver") then
      var d := DriverAt(t, c);
      Made(File(None, Some(d.val)), d.next)
    else Made(File(None, None), c)
  }
}
