/** The resource demand report (src/core/demand.c). */
module Demand {
  import opened Wrappers
  import opened Numerals
  import opened Json

  const PAGE: nat := 4096
  const M: nat := 0x1_0000_0000_0000_0000
  const MAX_IRQS: nat := 4
  const MAX_STREAMS: nat := 4

  type U64 = x: nat | x < M
  type U32 = x: nat | x < 0x1_0000_0000

  /** struct kdal_demand. */
  datatype Demand = Demand(base: U64, size: U64, attributes: U32,
                           nrIrqs: U32, irqs: seq<U32>, smmuId: U32, nrStreams: U32, streams: seq<U32>)

  datatype Device = Device(name: string, demand: Option<Demand>)

  /** The arrays have the room the header gives them. */
  predicate WellSized(d: Demand) { |d.irqs| == MAX_IRQS && |d.streams| == MAX_STREAMS }

  // ----- page arithmetic on 64-bit words -----

  function RoundDown(x: U64): U64 { x / PAGE * PAGE }

  function RoundUp(x: U64): U64 { ((x + (PAGE - 1)) / PAGE * PAGE) % M }

  function End(d: Demand): U64 { RoundUp((d.base + d.size) % M) }

  function Pages(d: Demand): nat { ((End(d) - RoundDown(d.base)) % M) / PAGE }

  /** The pages a region touches, counted without overflow. */
  function Touched(d: Demand): nat {
    (d.base + d.size + (PAGE - 1)) / PAGE - d.base / PAGE
  }

  /** The reported count is the number of pages touched exactly when that number is below
      2^52: no region but one that touches every page there is, or more, is misreported. */
  lemma PagesExactIff(d: Demand)
    requires d.size > 0
    ensures Pages(d) == Touched(d) <==> Touched(d) < 0x10_0000_0000_0000
  {
    hide End;
    EndPage(d);
    var first, last := d.base / PAGE, (d.base + d.size + (PAGE - 1)) / PAGE;
    PageDifference(last % (M / PAGE), first);
    assert first < last <= first + M / PAGE + 1;
  }

  /** The pages touched, from the page of the base on, cover the region with none to spare. */
  lemma TouchedCovers(d: Demand)
    requires d.size > 0
    ensures RoundDown(d.base) % 4096 == 0 && RoundDown(d.base) <= d.base < RoundDown(d.base) + 4096
    ensures RoundDown(d.base) + (Touched(d) - 1) * 4096 < d.base + d.size <= RoundDown(d.base) + Touched(d) * 4096
  {
  }

  /** A region of 2^52 + 1 pages is reported as one page. */
  lemma PagesCanBeWrong()
    ensures var d := Demand(5000, M - 1, 0, 0, [], 0, 0, []);
            Touched(d) == 0x10_0000_0000_0001 && Pages(d) == 1
  {
  }

  /** The difference of two page addresses, with the wrap of 64-bit subtraction. */
  lemma PageDifference(a: nat, b: nat)
    requires a < M / PAGE && b < M / PAGE
    ensures (a * PAGE - b * PAGE) % M / PAGE == if b <= a then a - b else a - b + M / PAGE
  {
    var x := a * PAGE - b * PAGE;
    assert x % M == if b <= a then x else x + M;
  }

  /** Rounding up with both wraps keeps the page number modulo 2^52. */
  lemma EndPage(d: Demand)
    ensures End(d) == (d.base + d.size + (PAGE - 1)) / PAGE % (M / PAGE) * PAGE
  {
    var x := d.base + d.size;
    var q, pages := (x + (PAGE - 1)) / PAGE, M / PAGE;
    if x < M {
      assert x % M == x && q <= pages;
    } else {
      assert x % M == x - M && (x - M + (PAGE - 1)) / PAGE == q - pages <= pages;
      assert q % pages == if q - pages == pages then 0 else q - pages;
    }
  }

  // ----- the text the calls of put() write, in their order -----

  function Field(key: string, text: string): string { Quoted(key) + (": " + text) }

  function HexText(n: nat): string { Quoted("0x" + Hex(n)) }

  const HEAD: string :=
    "{" + (Field("format", Quoted("kdal-demand/1")) + (", "
    + (Field("vocabulary", Quoted("FF-A partition manifest binding")) + (", "
    + (Quoted("device-regions") + (": " + "["))))))

  function RangeText(d: Demand): string {
    if d.size != 0 then
      ", " + (Field("base-address", HexText(RoundDown(d.base))) + (", " + Field("pages-count", Decimal(Pages(d)))))
    else ", " + Field("pages-count", "0")
  }

  function IrqText(irq: nat): string { "{" + (Field("id", Decimal(irq)) + "}") }

  function IrqsText(irqs: seq<nat>): string {
    if irqs == [] then ""
    else IrqsText(irqs[..|irqs|-1]) + ((if |irqs| > 1 then ", " else "") + IrqText(irqs[|irqs|-1]))
  }

  function StreamsText(ids: seq<nat>): string {
    if ids == [] then ""
    else StreamsText(ids[..|ids|-1]) + ((if |ids| > 1 then ", " else "") + Decimal(ids[|ids|-1]))
  }

  function Irqs(d: Demand): seq<nat>
    requires WellSized(d)
  {
    d.irqs[..Min(d.nrIrqs, MAX_IRQS)]
  }

  function Streams(d: Demand): seq<nat>
    requires WellSized(d)
  {
    d.streams[..Min(d.nrStreams, MAX_STREAMS)]
  }

  /** Of the interrupts and of the streams the first four are shown. */
  lemma FirstFourAreShown(d: Demand)
    requires WellSized(d)
    ensures |d.irqs| == 4 && |d.streams| == 4
    ensures Irqs(d) == d.irqs[..if d.nrIrqs < 4 then d.nrIrqs else 4]
    ensures Streams(d) == d.streams[..if d.nrStreams < 4 then d.nrStreams else 4]
  {
  }

  function IrqPart(d: Demand): string
    requires WellSized(d)
  {
    if d.nrIrqs != 0 then ", " + (Quoted("interrupts") + (": " + "[")) + IrqsText(Irqs(d)) + "]" else ""
  }

  function StreamPart(d: Demand): string
    requires WellSized(d)
  {
    if d.nrStreams != 0 then
      ", " + (Field("smmu-id", Decimal(d.smmuId)) + (", " + (Quoted("stream-ids") + (": " + "["))))
      + StreamsText(Streams(d)) + "]"
    else ""
  }

  function Opening(name: string, count: nat): string {
    (if count > 0 then "," else "") + ("\n  {" + Field("description", Quoted(name)))
  }

  /** demand_one. */
  function RegionText(name: string, d: Demand, count: nat): string
    requires WellSized(d)
  {
    Opening(name, count) + RangeText(d) + (", " + Field("attributes", HexText(d.attributes)))
    + IrqPart(d) + StreamPart(d) + "}"
  }

  ghost predicate AllSized(devs: seq<Device>) {
    forall dev :: dev in devs && dev.demand.Some? ==> WellSized(dev.demand.value)
  }

  /** The devices that declare a demand. */
  function Count(devs: seq<Device>): nat {
    if devs == [] then 0 else Count(devs[..|devs|-1]) + if devs[|devs|-1].demand.Some? then 1 else 0
  }

  ghost function RegionsText(devs: seq<Device>): string
    requires AllSized(devs)
  {
    if devs == [] then ""
    else
      var init, dev := devs[..|devs|-1], devs[|devs|-1];
      RegionsText(init) + if dev.demand.Some? then RegionText(dev.name, dev.demand.value, Count(init)) else ""
  }

  /** The whole report, untruncated. */
  ghost function Report(devs: seq<Device>): string
    requires AllSized(devs)
  {
    HEAD + RegionsText(devs) + ((if Count(devs) > 0 then "\n" else "") + "]}\n")
  }

  // ===== the printer: every put() truncates to the room that is left =====

  class Printer {
    const buf: array<char>
    const len: nat
    var pos: nat
    var count: nat
    ghost var full: string

    /** The buffer holds what fits of the text put so far, and a NUL. */
    ghost predicate Valid()
      reads this, buf
    {
      && 0 < len <= buf.Length
      && pos == Min(|full|, len - 1)
      && buf[..pos] == full[..pos]
      && buf[pos] == '\0'
    }

    constructor (b: array<char>, n: nat)
      requires 0 < n <= b.Length
      modifies b
      ensures Valid() && buf == b && len == n && full == "" && count == 0
      ensures b[n..] == old(b[n..])
    {
      buf, len, pos, count, full := b, n, 0, 0, "";
      new;
      b[0] := '\0';
    }

    /** put: vscnprintf into the rest of the buffer. */
    method Put(text: string)
      requires Valid()
      modifies this`pos, this`full, buf
      ensures Valid() && full == old(full) + text
      ensures buf[len..] == old(buf[len..])
    {
      var n := Min(|text|, len - 1 - pos);
      ghost var before := buf[..pos];
      var i := 0;
      while i < n
        invariant 0 <= i <= n && pos == old(pos) && full == old(full)
        invariant forall k :: 0 <= k < pos ==> buf[k] == before[k]
        invariant forall k :: 0 <= k < i ==> buf[pos + k] == text[k]
        invariant buf[len..] == old(buf[len..])
      {
        buf[pos + i] := text[i];
        i := i + 1;
      }
      buf[pos + n] := '\0';
      full := full + text;
      pos := pos + n;
    }

    method PutIrqs(d: Demand)
      requires Valid() && WellSized(d)
      modifies this`pos, this`full, buf
      ensures Valid() && full == old(full) + IrqsText(Irqs(d))
      ensures buf[len..] == old(buf[len..])
    {
      hide Field, Numerals.Decimal;
      var i: nat := 0;
      while i < d.nrIrqs && i < MAX_IRQS
        invariant Valid() && i <= MAX_IRQS && i <= d.nrIrqs && full == old(full) + IrqsText(d.irqs[..i])
        invariant buf[len..] == old(buf[len..])
      {
        assert d.irqs[..i+1][..i] == d.irqs[..i];
        Put((if i > 0 then ", " else "") + IrqText(d.irqs[i]));
        i := i + 1;
      }
    }

    method PutStreams(d: Demand)
      requires Valid() && WellSized(d)
      modifies this`pos, this`full, buf
      ensures Valid() && full == old(full) + StreamsText(Streams(d))
      ensures buf[len..] == old(buf[len..])
    {
      hide Numerals.Decimal;
      var i: nat := 0;
      while i < d.nrStreams && i < MAX_STREAMS
        invariant Valid() && i <= MAX_STREAMS && i <= d.nrStreams && full == old(full) + StreamsText(d.streams[..i])
        invariant buf[len..] == old(buf[len..])
      {
        assert d.streams[..i+1][..i] == d.streams[..i];
        Put((if i > 0 then ", " else "") + Decimal(d.streams[i]));
        i := i + 1;
      }
    }

    /** demand_one. */
    method PutRegion(name: string, d: Demand)
      requires Valid() && WellSized(d)
      modifies this, buf
      ensures Valid() && full == old(full) + RegionText(name, d, old(count)) && count == old(count) + 1
      ensures buf[len..] == old(buf[len..])
    {
      hide Field, HexText, Quoted, Numerals.Decimal, IrqsText, StreamsText, Opening, Pages;
      ghost var start := full;
      ghost var a, b, c := Opening(name, count), RangeText(d), ", " + Field("attributes", HexText(d.attributes));
      Put(Opening(name, count));
      Put(RangeText(d));
      Put(", " + Field("attributes", HexText(d.attributes)));
      PutIrqPart(d);
      PutStreamPart(d);
      Put("}");
      count := count + 1;
      AppendSix(start, a, b, c, IrqPart(d), StreamPart(d), "}");
    }

    method PutIrqPart(d: Demand)
      requires Valid() && WellSized(d)
      modifies this`pos, this`full, buf
      ensures Valid() && full == old(full) + IrqPart(d)
      ensures buf[len..] == old(buf[len..])
    {
      hide Quoted, IrqsText;
      if d.nrIrqs != 0 {
        Put(", " + (Quoted("interrupts") + (": " + "[")));
        PutIrqs(d);
        Put("]");
        AppendThree(old(full), ", " + (Quoted("interrupts") + (": " + "[")), IrqsText(Irqs(d)), "]");
      }
    }

    method PutStreamPart(d: Demand)
      requires Valid() && WellSized(d)
      modifies this`pos, this`full, buf
      ensures Valid() && full == old(full) + StreamPart(d)
      ensures buf[len..] == old(buf[len..])
    {
      hide Quoted, Field, Numerals.Decimal, StreamsText;
      if d.nrStreams != 0 {
        ghost var open := ", " + (Field("smmu-id", Decimal(d.smmuId)) + (", " + (Quoted("stream-ids") + (": " + "["))));
        Put(", " + (Field("smmu-id", Decimal(d.smmuId)) + (", " + (Quoted("stream-ids") + (": " + "[")))));
        PutStreams(d);
        Put("]");
        AppendThree(old(full), open, StreamsText(Streams(d)), "]");
      }
    }

    /** kdal_for_each_device with demand_one. */
    method PutDevices(devs: seq<Device>)
      requires Valid() && AllSized(devs) && count == 0
      modifies this, buf
      ensures Valid() && count == Count(devs) && full == old(full) + RegionsText(devs)
      ensures buf[len..] == old(buf[len..])
    {
      hide Field, RegionText;
      assert full + RegionsText([]) == full;
      for i := 0 to |devs|
        invariant Valid() && count == Count(devs[..i])
        invariant AllSized(devs[..i]) && full == old(full) + RegionsText(devs[..i])
        invariant buf[len..] == old(buf[len..])
      {
        ghost var d := devs[..i+1];
        assert d[..i] == devs[..i] && d[i] == devs[i];
        if devs[i].demand.Some? {
          assert devs[i] in devs;
          PutRegion(devs[i].name, devs[i].demand.value);
        }
        assert full == old(full) + RegionsText(d);
      }
      assert devs[..|devs|] == devs;
    }
  }

  lemma AppendThree(s: string, a: string, b: string, c: string)
    ensures s + a + b + c == s + (a + b + c)
  {
  }

  lemma AppendSix(s: string, a: string, b: string, c: string, d: string, e: string, f: string)
    ensures s + a + b + c + d + e + f == s + (a + b + c + d + e + f)
  {
  }

  /** kdal_demand_format: the buffer gets exactly the first characters of the report that
      fit, followed by a NUL, and the result is their number. */
  method Format(devs: seq<Device>, buf: array?<char>, len: nat) returns (n: nat)
    requires AllSized(devs)
    requires buf != null ==> len <= buf.Length
    modifies buf
    ensures buf == null || len == 0 ==> n == 0
    ensures buf != null ==> buf[len..] == old(buf[len..])
    ensures buf != null && len > 0 ==>
              && n == Min(|Report(devs)|, len - 1)
              && buf[..n] == Report(devs)[..n] && buf[n] == '\0'
  {
    hide Field, RegionText, RegionsText, Count;
    if buf == null || len == 0 {
      return 0;
    }
    var c := new Printer(buf, len);
    c.Put(HEAD);
    c.PutDevices(devs);
    c.Put((if c.count > 0 then "\n" else "") + "]}\n");
    n := c.pos;
  }
}
