/** The per-device byte ring of the QEMU backend (src/backends/qemu/qemubackend.c). */
module Ring {
  import opened Wrappers

  const RING_SIZE: nat := 4096
  const U32: nat := 0x1_0000_0000

  type Byte = b: nat | b < 256

  // ===== the bounded queue the ring stands for =====

  function Accepted(q: seq<Byte>, data: seq<Byte>): (n: nat)
    ensures n <= |data|
  {
    Min(|data|, if |q| <= RING_SIZE then RING_SIZE - |q| else 0)
  }

  class Ring {
    const buf: array<Byte>
    var head: nat
    var tail: nat
    var count: nat

    ghost predicate Valid()
      reads this
    {
      && buf.Length == RING_SIZE && count <= RING_SIZE && head < U32 && tail < U32
      && (head - tail) % U32 == count
    }

    /** The bytes waiting, oldest first. */
    ghost function Bytes(): (q: seq<Byte>)
      requires Valid()
      reads this, buf
      ensures |q| == count
    {
      seq(count, i requires 0 <= i < count reads this, buf requires Valid() => buf[(tail + i) % RING_SIZE])
    }

    constructor ()
      ensures Valid() && fresh(buf) && Bytes() == []
    {
      buf := new Byte[RING_SIZE](_ => 0);
      head, tail, count := 0, 0, 0;
    }

    /** One iteration of the write loop, when there is room. */
    method Put(b: Byte)
      requires Valid() && count < RING_SIZE
      modifies this, buf
      ensures Valid() && Bytes() == old(Bytes()) + [b]
    {
      ghost var q := Bytes();
      HeadSlot(head, tail, count);
      buf[head % RING_SIZE] := b;
      head := (head + 1) % U32;
      count := count + 1;
      forall i | 0 <= i < |q|
        ensures Bytes()[i] == q[i]
      {
        SlotsDiffer(tail, count - 1, i);
      }
    }

    /** One iteration of the read loop, when there is a byte. */
    method Take() returns (b: Byte)
      requires Valid() && count > 0
      modifies this`tail, this`count
      ensures Valid() && b == old(Bytes())[0] && Bytes() == old(Bytes())[1..]
    {
      ghost var q := Bytes();
      b := buf[tail % RING_SIZE];
      ghost var t := tail;
      TailStep(head, tail, count);
      tail := (tail + 1) % U32;
      count := count - 1;
      assert Valid();
      forall i | 0 <= i < count
        ensures Bytes()[i] == q[i+1]
      {
        NextSlot(t, i);
      }
    }

    /** qemu_ring_write: accept bytes until the ring is full. */
    method Write(data: seq<Byte>) returns (n: nat)
      requires Valid()
      modifies this, buf
      ensures Valid() && n == Accepted(old(Bytes()), data) && Bytes() == old(Bytes()) + data[..n]
    {
      n := 0;
      while n < |data|
        invariant Valid() && n <= |data|
        invariant Bytes() == old(Bytes()) + data[..n]
      {
        if count >= RING_SIZE {
          break;
        }
        Put(data[n]);
        assert data[..n+1] == data[..n] + [data[n]];
        n := n + 1;
      }
    }

    /** qemu_ring_read: fill the caller's buffer until the ring is empty. */
    method Read(data: array<Byte>, len: nat) returns (n: nat)
      requires Valid() && data != buf && len <= data.Length
      modifies this`tail, this`count, data
      ensures Valid() && n == Min(len, old(|Bytes()|))
      ensures data[..n] == old(Bytes())[..n] && Bytes() == old(Bytes())[n..]
      ensures data[n..] == old(data[n..])
    {
      ghost var q := Bytes();
      n := 0;
      while n < len
        invariant Valid() && n <= len && n <= |q|
        invariant data[..n] == q[..n] && Bytes() == q[n..]
        invariant forall i :: n <= i < data.Length ==> data[i] == old(data[i])
      {
        if count == 0 {
          break;
        }
        data[n] := Take();
        assert q[n..][1..] == q[n+1..];
        n := n + 1;
      }
    }
  }

  // Slot arithmetic: the ring size divides 2^32.

  lemma HeadSlot(head: nat, tail: nat, count: nat)
    requires head < U32 && tail < U32 && (head - tail) % U32 == count < RING_SIZE
    ensures head % RING_SIZE == (tail + count) % RING_SIZE
    ensures ((head + 1) % U32 - tail) % U32 == count + 1
  {
    assert head == tail + count || head == tail + count - U32;
    assert (tail + count - U32) % RING_SIZE == (tail + count) % RING_SIZE;
  }

  lemma SlotsDiffer(tail: nat, count: nat, i: nat)
    requires i < count < RING_SIZE
    ensures (tail + i) % RING_SIZE != (tail + count) % RING_SIZE
  {
  }

  lemma TailStep(head: nat, tail: nat, count: nat)
    requires head < U32 && tail < U32 && (head - tail) % U32 == count && 0 < count <= RING_SIZE
    ensures (head - (tail + 1) % U32) % U32 == count - 1
  {
    assert head == tail + count || head == tail + count - U32;
  }

  lemma NextSlot(tail: nat, i: nat)
    requires tail < U32
    ensures ((tail + 1) % U32 + i) % RING_SIZE == (tail + (i + 1)) % RING_SIZE
  {
    assert (tail + 1) % U32 == tail + 1 || (tail + 1) % U32 == tail + 1 - U32;
    assert (tail + 1 + i - U32) % RING_SIZE == (tail + 1 + i) % RING_SIZE;
  }

  // ===== whole runs =====

  datatype Op = Write(data: seq<Byte>) | Read(len: nat)

  /** The queue, and everything accepted and returned so far. */
  datatype History = History(queue: seq<Byte>, accepted: seq<Byte>, returned: seq<Byte>)

  function Step(h: History, op: Op): History {
    match op
    case Write(data) =>
      var n := Accepted(h.queue, data);
      h.(queue := h.queue + data[..n], accepted := h.accepted + data[..n])
    case Read(len) =>
      var n := Min(len, |h.queue|);
      h.(queue := h.queue[n..], returned := h.returned + h.queue[..n])
  }

  function Run(ops: seq<Op>): History {
    if ops == [] then History([], [], []) else Step(Run(ops[..|ops|-1]), ops[|ops|-1])
  }

  /** In every run the bytes read are the first bytes accepted, and the rest is waiting. */
  lemma {:induction false} ReadsArePrefixOfWrites(ops: seq<Op>)
    ensures var h := Run(ops);
            h.accepted == h.returned + h.queue && |h.queue| <= RING_SIZE
  {
    if ops != [] {
      ReadsArePrefixOfWrites(ops[..|ops|-1]);
      var h, op := Run(ops[..|ops|-1]), ops[|ops|-1];
      if op.Read? {
        var n := Min(op.len, |h.queue|);
        assert h.queue == h.queue[..n] + h.queue[n..];
      }
    }
  }
}
