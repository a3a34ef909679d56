/** The example UART driver over its ring (src/drivers/example/uartdriver.c); the I2C and
    SPI drivers have the same shape. */
module Uart {
  import opened Wrappers
  import opened Ring

  const KBUF_SIZE: nat := 4096
  const U64_SPAN: nat := 0x1_0000_0000_0000_0000

  type U64 = x: nat | x < U64_SPAN

  datatype Power = Off | On | Suspend

  /** A probed device: power state, bytes in the ring, and the two counters. */
  datatype Dev = Dev(power: Power, fifo: seq<Byte>, tx: U64, rx: U64)

  /** Operations routed to a device. `memory` says whether the kernel buffer can be
      allocated, `copyOk` whether the copy from or to user memory succeeds. */
  datatype DevOp =
    | Read(count: nat, memory: bool, copyOk: bool)
    | Write(data: seq<Byte>, memory: bool, copyOk: bool)
    | SetPower(p: Power)
    | Info(copyOk: bool)

  datatype Reply = Data(bytes: seq<Byte>) | Wrote(n: nat) | PowerIs(p: Power) | Done | Error(e: Errno)

  function Plus(x: U64, n: nat): U64 { (x + n) % U64_SPAN }

  function Clamp(data: seq<Byte>): seq<Byte> {
    data[..Min(|data|, KBUF_SIZE)]
  }

  /** Bytes a read takes out of the ring. */
  function Taken(d: Dev, count: nat): seq<Byte> {
    d.fifo[..Min(Min(count, KBUF_SIZE), |d.fifo|)]
  }

  function Apply(d: Dev, op: DevOp): (r: (Dev, Reply))
  {
    match op
    case Read(count, memory, copyOk) =>
      var got := Taken(d, count);
      var rest := d.fifo[|got|..];
      if d.power != On then (d, Error(EIO))
      else if !memory then (d, Error(ENOMEM))
      else if got != [] && !copyOk then (d.(fifo := rest), Error(EFAULT))
      else (d.(fifo := rest, rx := Plus(d.rx, |got|)), Data(got))
    case Write(data, memory, copyOk) =>
      var n := Accepted(d.fifo, Clamp(data));
      if d.power != On then (d, Error(EIO))
      else if !memory then (d, Error(ENOMEM))
      else if data != [] && !copyOk then (d, Error(EFAULT))
      else (d.(fifo := d.fifo + data[..n], tx := Plus(d.tx, n)), Wrote(n))
    case SetPower(p) => (d.(power := p), Done)
    case Info(copyOk) => (d, if copyOk then PowerIs(d.power) else Error(EFAULT))
  }

  class Device {
    var power: Power
    var ring: Ring?
    var config: bool
    var tx: U64
    var rx: U64

    ghost predicate Valid()
      reads this, ring
    {
      ring != null ==> ring.Valid()
    }

    /** Ring and driver configuration are in place. */
    ghost predicate Probed()
      reads this
    {
      ring != null && config
    }

    ghost function Footprint(): set<object>
      reads this, ring
    {
      {this} + if ring != null then {ring, ring.buf} else {}
    }

    ghost function Abs(): Dev
      requires Valid() && Probed()
      reads this, ring, if ring != null then {ring.buf} else {}
    {
      Dev(power, ring.Bytes(), tx, rx)
    }

    constructor ()
      ensures Valid() && !Probed() && power == Off && ring == null
    {
      power, ring, config, tx, rx := Off, null, false, 0, 0;
    }

    /** uart_probe; the flags say whether the two allocations succeed. */
    method Probe(ringOk: bool, configOk: bool) returns (ok: bool)
      requires Valid()
      modifies this
      ensures Valid() && ok == (ringOk && configOk)
      ensures ok ==> Probed() && fresh(ring) && fresh(ring.buf) && Abs() == Dev(On, [], 0, 0)
      ensures !ok ==> power == old(power) && (ringOk ==> ring == null) && (!ringOk ==> ring == old(ring))
    {
      if !ringOk {
        return false;
      }
      ring := new Ring();
      if !configOk {
        ring := null;
        return false;
      }
      config, tx, rx, power := true, 0, 0, On;
      ok := true;
    }

    method Remove()
      modifies this
      ensures Valid() && !Probed() && ring == null && power == Off
    {
      config, ring, power := false, null, Off;
    }

    /** uart_read. */
    method ReadBytes(count: nat, memory: bool, copyOk: bool) returns (r: Reply)
      requires Valid() && Probed()
      modifies this`rx, ring, ring.buf
      ensures Valid() && Probed() && ring == old(ring)
      ensures (Abs(), r) == Apply(old(Abs()), DevOp.Read(count, memory, copyOk))
    {
      if power != On {
        return Error(EIO);
      }
      if !memory {
        return Error(ENOMEM);
      }
      var n := if count > KBUF_SIZE then KBUF_SIZE else count;
      var kbuf := new Byte[n](_ => 0);
      ghost var q := ring.Bytes();
      var got := ring.Read(kbuf, n);
      assert kbuf[..got] == q[..got];
      if got > 0 && !copyOk {
        return Error(EFAULT);
      }
      rx := Plus(rx, got);
      r := Data(kbuf[..got]);
    }

    /** uart_write. */
    method WriteBytes(data: seq<Byte>, memory: bool, copyOk: bool) returns (r: Reply)
      requires Valid() && Probed()
      modifies this`tx, ring, ring.buf
      ensures Valid() && Probed() && ring == old(ring)
      ensures (Abs(), r) == Apply(old(Abs()), DevOp.Write(data, memory, copyOk))
    {
      if power != On {
        return Error(EIO);
      }
      if !memory {
        return Error(ENOMEM);
      }
      var count := if |data| > KBUF_SIZE then KBUF_SIZE else |data|;
      if data != [] && !copyOk {
        return Error(EFAULT);
      }
      var kbuf := data[..count];
      var written := ring.Write(kbuf);
      assert kbuf[..written] == data[..written];
      if written > 0 {
        tx := Plus(tx, written);
      }
      r := Wrote(written);
    }

    method SetPowerState(p: Power) returns (r: Reply)
      requires Valid() && Probed()
      modifies this`power
      ensures Valid() && Probed() && ring == old(ring)
      ensures (Abs(), r) == Apply(old(Abs()), SetPower(p))
    {
      power := p;
      r := Done;
    }

    /** Any of the operations. */
    method Do(op: DevOp) returns (r: Reply)
      requires Valid() && Probed()
      modifies Footprint()
      ensures Valid() && Probed() && Footprint() == old(Footprint())
      ensures (Abs(), r) == Apply(old(Abs()), op)
    {
      match op {
        case Read(count, memory, ok) => r := ReadBytes(count, memory, ok);
        case Write(data, memory, ok) => r := WriteBytes(data, memory, ok);
        case SetPower(p) => r := SetPowerState(p);
        case Info(ok) => r := if ok then PowerIs(power) else Error(EFAULT);
      }
    }
  }

  // ===== conservation over whole runs =====

  /** All bytes accepted by writes, all bytes handed to readers, and the number of bytes a
      failed copy to the reader dropped. */
  datatype Account = Account(dev: Dev, accepted: seq<Byte>, returned: seq<Byte>, dropped: nat)

  function AccountStep(h: Account, op: DevOp): Account {
    var r := Apply(h.dev, op);
    match r.1
    case Wrote(n) =>
      h.(dev := r.0, accepted := h.accepted + if op.Write? && n <= |op.data| then op.data[..n] else [])
    case Data(bytes) => h.(dev := r.0, returned := h.returned + bytes)
    case _ =>
      h.(dev := r.0, dropped := h.dropped + if |r.0.fifo| <= |h.dev.fifo| then |h.dev.fifo| - |r.0.fifo| else 0)
  }

  /** A run of a device that was just probed. */
  function Run(ops: seq<DevOp>): Account {
    if ops == [] then Account(Dev(On, [], 0, 0), [], [], 0) else AccountStep(Run(ops[..|ops|-1]), ops[|ops|-1])
  }

  /** Every read copies its bytes out successfully. */
  predicate CopiesSucceed(ops: seq<DevOp>) {
    forall op :: op in ops && op.Read? ==> op.copyOk
  }

  /** What one operation adds to the account. */
  lemma StepBalance(h: Account, op: DevOp)
    requires |h.dev.fifo| <= RING_SIZE
    ensures var h' := AccountStep(h, op);
            && |h'.dev.fifo| <= RING_SIZE
            && |h.accepted| <= |h'.accepted| && |h.returned| <= |h'.returned|
            && |h'.accepted| - |h.accepted| + |h.dev.fifo|
               == |h'.returned| - |h.returned| + (h'.dropped - h.dropped) + |h'.dev.fifo|
            && h'.dev.tx == Plus(h.dev.tx, |h'.accepted| - |h.accepted|)
            && h'.dev.rx == Plus(h.dev.rx, |h'.returned| - |h.returned|)
  {
    hide Plus;
    PlusZero(h.dev.tx);
    PlusZero(h.dev.rx);
    if op.Write? {
      var n := Accepted(h.dev.fifo, Clamp(op.data));
      assert n <= |op.data|;
    }
  }

  lemma PlusZero(x: U64)
    ensures Plus(x, 0) == x
  {
  }

  /** In every run the counters differ by the bytes in the ring and the bytes dropped. */
  lemma {:induction false} CountersAddUp(ops: seq<DevOp>)
    ensures var h := Run(ops);
            && |h.dev.fifo| <= RING_SIZE
            && |h.accepted| == |h.returned| + h.dropped + |h.dev.fifo|
            && h.dev.tx == |h.accepted| % U64_SPAN && h.dev.rx == |h.returned| % U64_SPAN
            && (h.dev.tx - h.dev.rx) % U64_SPAN == (|h.dev.fifo| + h.dropped) % U64_SPAN
  {
    if ops != [] {
      hide AccountStep, Apply;
      var h, op := Run(ops[..|ops|-1]), ops[|ops|-1];
      CountersAddUp(ops[..|ops|-1]);
      StepBalance(h, op);
      var h' := AccountStep(h, op);
      ModAdd(|h.accepted|, |h'.accepted| - |h.accepted|);
      ModAdd(|h.returned|, |h'.returned| - |h.returned|);
      ModSub(|h'.accepted|, |h'.returned|);
    }
  }

  lemma ModAdd(a: nat, b: int)
    ensures (a % U64_SPAN + b) % U64_SPAN == (a + b) % U64_SPAN
  {
    var q := a / U64_SPAN;
    assert a == q * U64_SPAN + a % U64_SPAN;
    ModShift(a % U64_SPAN + b, q);
  }

  lemma ModSub(a: nat, b: nat)
    ensures (a % U64_SPAN - b % U64_SPAN) % U64_SPAN == (a - b) % U64_SPAN
  {
    ModAdd(a, -(b % U64_SPAN));
    var q := b / U64_SPAN;
    assert a - b % U64_SPAN == (a - b) + q * U64_SPAN;
    ModShift(a - b, q);
  }

  lemma {:induction false} ModShift(x: int, q: nat)
    ensures (x + q * U64_SPAN) % U64_SPAN == x % U64_SPAN
  {
    if q > 0 {
      ModShift(x, q - 1);
      assert x + q * U64_SPAN == (x + (q - 1) * U64_SPAN) + U64_SPAN;
    }
  }

  lemma StepConserves(h: Account, op: DevOp)
    requires h.accepted == h.returned + h.dev.fifo && |h.dev.fifo| <= RING_SIZE
    requires op.Read? ==> op.copyOk
    ensures var h' := AccountStep(h, op);
            h'.accepted == h'.returned + h'.dev.fifo && h'.dropped == h.dropped
  {
    hide Plus;
    match op
    case Read(_, _, _) => ReadConserves(h, op);
    case Write(_, _, _) => WriteConserves(h, op);
    case _ =>
  }

  lemma ReadConserves(h: Account, op: DevOp)
    requires op.Read? && op.copyOk
    ensures var h' := AccountStep(h, op);
            h'.returned + h'.dev.fifo == h.returned + h.dev.fifo && h'.dropped == h.dropped && h'.accepted == h.accepted
  {
    hide Plus, Taken;
    var got := Taken(h.dev, op.count);
    assert h.dev.fifo == got + h.dev.fifo[|got|..] by { TakenIsPrefix(h.dev, op.count); }
    assert h.returned + h.dev.fifo == (h.returned + got) + h.dev.fifo[|got|..];
  }

  lemma TakenIsPrefix(d: Dev, count: nat)
    ensures Taken(d, count) <= d.fifo
  {
  }

  lemma WriteConserves(h: Account, op: DevOp)
    requires op.Write? && h.accepted == h.returned + h.dev.fifo && |h.dev.fifo| <= RING_SIZE
    ensures var h' := AccountStep(h, op);
            h'.accepted == h'.returned + h'.dev.fifo && h'.dropped == h.dropped
  {
    hide Plus;
    var n := Accepted(h.dev.fifo, Clamp(op.data));
    assert n <= |op.data|;
    var more := op.data[..n];
    assert (h.returned + h.dev.fifo) + more == h.returned + (h.dev.fifo + more);
  }

  /** When the copies succeed, nothing is dropped and the bytes returned are exactly the
      first bytes accepted; the rest is in the ring. */
  lemma {:induction false} BytesAreConserved(ops: seq<DevOp>)
    requires CopiesSucceed(ops)
    ensures var h := Run(ops);
            && h.dropped == 0
            && h.accepted == h.returned + h.dev.fifo
            && (h.dev.tx - h.dev.rx) % U64_SPAN == |h.dev.fifo|
  {
    hide AccountStep, Apply;
    CountersAddUp(ops);
    if ops != [] {
      var init, op := ops[..|ops|-1], ops[|ops|-1];
      assert CopiesSucceed(init) && op in ops;
      BytesAreConserved(init);
      CountersAddUp(init);
      StepConserves(Run(init), op);
    }
  }

  /** Bytes are lost exactly by a read that takes some and cannot copy them out. */
  lemma DropsIff(ops: seq<DevOp>, op: DevOp)
    ensures Run(ops + [op]).dropped != Run(ops).dropped
       <==> op.Read? && op.memory && !op.copyOk && op.count > 0 && Run(ops).dev.power == On && Run(ops).dev.fifo != []
  {
    assert (ops + [op])[..|ops|] == ops;
  }

  /** One byte written, then read into memory that cannot be written: the byte is gone. */
  lemma DropHappens()
    ensures var ops := [DevOp.Write([1], true, true), DevOp.Read(1, true, false)];
            Run(ops).accepted == [1] && Run(ops).returned == [] && Run(ops).dev.fifo == [] && Run(ops).dropped == 1
  {
    var w, r := DevOp.Write([1], true, true), DevOp.Read(1, true, false);
    assert [w, r][..1] == [w] && [w][..0] == [];
    assert Run([w]) == Account(Dev(On, [1], 1, 0), [1], [], 0);
    assert [1 as Byte][1..] == [];
  }

  /** In every run, from the moment power is not on until it is set again, nothing moves:
      bytes, counters and what readers have got stay as they are. */
  lemma {:induction false} PowerGates(ops: seq<DevOp>, more: seq<DevOp>)
    requires Run(ops).dev.power != On && forall op :: op in more ==> !op.SetPower?
    ensures Run(ops + more) == Run(ops)
    decreases |more|
  {
    if more == [] {
      assert ops + more == ops;
    } else {
      var init, last := more[..|more|-1], more[|more|-1];
      assert forall op :: op in init ==> op in more;
      PowerGates(ops, init);
      assert last in more;
      assert (ops + more)[..|ops+more|-1] == ops + init;
    }
  }
}
