/** The circular event log (src/core/event.c). */
module EventLog {

  const LOG_SIZE: nat := 256
  const U32: nat := 0x1_0000_0000

  datatype EventType = NoEvent | DeviceAdded | DeviceRemoved | IoReady | PowerChange | AccelComplete | Fault
  datatype Event = Event(etype: EventType, device: string, data: nat)

  /** Result of a poll: -EINVAL, -EAGAIN, or the event. */
  datatype Polled = Inval | Again | Got(e: Event)

  // ===== the queue the log stands for: at most 256 events, dropping the oldest =====

  function AfterEmit(q: seq<Event>, e: Event): seq<Event> {
    if |q| < LOG_SIZE then q + [e] else q[1..] + [e]
  }

  function AfterPoll(q: seq<Event>): seq<Event> {
    if q == [] then [] else q[1..]
  }

  class Log {
    const slots: array<Event>
    var head: nat
    var count: nat

    ghost predicate Valid()
      reads this
    {
      slots.Length == LOG_SIZE && head < U32 && count <= LOG_SIZE
    }

    /** The pending events, oldest first. */
    ghost function Pending(): (q: seq<Event>)
      requires Valid()
      reads this, slots
      ensures |q| == count
    {
      seq(count, i requires 0 <= i < count reads this, slots requires Valid() => slots[(head - count + i) % LOG_SIZE])
    }

    constructor ()
      ensures Valid() && fresh(slots) && Pending() == []
    {
      slots := new Event[LOG_SIZE](_ => Event(NoEvent, "", 0));
      head, count := 0, 0;
    }

    method Emit(e: Event)
      requires Valid()
      modifies this, slots
      ensures Valid() && Pending() == AfterEmit(old(Pending()), e)
    {
      ghost var q := Pending();
      slots[head % LOG_SIZE] := e;
      head := (head + 1) % U32;
      if count < LOG_SIZE {
        count := count + 1;
      }
      forall i | 0 <= i < count
        ensures Pending()[i] == AfterEmit(q, e)[i]
      {
        SlotOf(old(head), old(count), count, i);
      }
    }

    /** kdal_poll_event; `out` is false for a null destination. */
    method Poll(out: bool) returns (r: Polled)
      requires Valid()
      modifies this`count
      ensures Valid()
      ensures !out ==> r == Inval && Pending() == old(Pending())
      ensures out && old(Pending()) == [] ==> r == Again && Pending() == []
      ensures out && old(Pending()) != [] ==> r == Got(old(Pending())[0]) && Pending() == AfterPoll(old(Pending()))
    {
      if !out {
        return Inval;
      }
      if count == 0 {
        return Again;
      }
      var tail := ((head - count) % U32) % LOG_SIZE;
      r := Got(slots[tail]);
      count := count - 1;
    }

    method Shutdown()
      requires Valid()
      modifies this`head, this`count
      ensures Valid() && Pending() == []
    {
      head, count := 0, 0;
    }
  }

  /** Where the i-th pending event sits after an emit, across the wrap of the head. */
  lemma SlotOf(head: nat, count: nat, count': nat, i: nat)
    requires head < U32 && count <= LOG_SIZE && i < count'
    requires count' == if count < LOG_SIZE then count + 1 else count
    ensures var s := ((head + 1) % U32 - count' + i) % LOG_SIZE;
            && s == (head + 1 - count' + i) % LOG_SIZE
            && (s == head % LOG_SIZE <==> i == count' - 1)
  {
    var x := head + 1 - count' + i;
    assert (head + 1) % U32 == head + 1 || (head + 1) % U32 == head + 1 - U32;
    assert (x - U32) % LOG_SIZE == x % LOG_SIZE;
  }

  // ===== whole runs =====

  datatype Op = Emit(e: Event) | Poll | Shutdown

  /** What happened since the last shutdown: every emitted event, the queue, and the
      emission numbers of the delivered and of the overwritten events. */
  datatype History = History(emitted: seq<Event>, queue: seq<Event>, delivered: seq<nat>, lost: seq<nat>) {
    /** Emission number of the oldest pending event. */
    function Oldest(): int { |emitted| - |queue| }
  }

  const START := History([], [], [], [])

  function Step(h: History, op: Op): History {
    match op
    case Emit(e) =>
      History(h.emitted + [e], AfterEmit(h.queue, e), h.delivered,
              if |h.queue| < LOG_SIZE || h.Oldest() < 0 then h.lost else h.lost + [h.Oldest()])
    case Poll =>
      if h.queue == [] || h.Oldest() < 0 then h
      else h.(queue := AfterPoll(h.queue), delivered := h.delivered + [h.Oldest()])
    case Shutdown => START
  }

  function Run(ops: seq<Op>): History {
    if ops == [] then START else Step(Run(ops[..|ops|-1]), ops[|ops|-1])
  }

  ghost predicate Increasing(s: seq<nat>) {
    forall i, j :: 0 <= i < j < |s| ==> s[i] < s[j]
  }

  /** Delivered and lost numbers are two increasing sequences that share out exactly the
      numbers before the oldest pending event; the queue is the rest of the emissions. */
  ghost predicate Accounted(h: History) {
    && |h.queue| <= LOG_SIZE && |h.queue| <= |h.emitted|
    && h.queue == h.emitted[h.Oldest()..]
    && Increasing(h.delivered) && Increasing(h.lost)
    && (forall n: nat :: n in h.delivered || n in h.lost <==> n < h.Oldest())
    && (forall n: nat :: !(n in h.delivered && n in h.lost))
    && |h.emitted| == |h.delivered| + |h.queue| + |h.lost|
  }

  /** At the end of every run: emissions = delivered + pending + overwritten, with polls
      delivering the surviving events in the order of emission. */
  lemma {:induction false} EveryRunIsAccounted(ops: seq<Op>)
    ensures Accounted(Run(ops))
  {
    if ops != [] {
      var h := Run(ops[..|ops|-1]);
      EveryRunIsAccounted(ops[..|ops|-1]);
      StepAccounts(h, ops[|ops|-1]);
    }
  }

  lemma Extend(s: seq<nat>, n: nat)
    requires Increasing(s) && forall m :: m in s ==> m < n
    ensures Increasing(s + [n])
    ensures forall m :: m in s + [n] <==> m in s || m == n
  {
    forall i | 0 <= i < |s|
      ensures s[i] < n
    {
      assert s[i] in s;
    }
  }

  lemma StepAccounts(h: History, op: Op)
    requires Accounted(h)
    ensures Accounted(Step(h, op))
  {
    var k := h.Oldest();
    var h' := Step(h, op);
    match op
    case Emit(e) =>
      assert h'.queue == h'.emitted[h'.Oldest()..];
      Extend(h.lost, k);
    case Poll =>
      if h.queue != [] {
        assert h'.queue == h'.emitted[h'.Oldest()..];
        Extend(h.delivered, k);
      }
    case Shutdown =>
  }

  /** What a poll hands out is the event emitted under the delivered number. */
  lemma PollDeliversOldest(ops: seq<Op>)
    requires Run(ops).queue != []
    ensures var h, h' := Run(ops), Run(ops + [Poll]);
            && h'.delivered == h.delivered + [h.Oldest()]
            && h.queue[0] == h.emitted[h.Oldest()]
  {
    EveryRunIsAccounted(ops);
    assert (ops + [Poll])[..|ops|] == ops;
  }

  /** An event is overwritten only by an emit that finds 256 events pending. */
  lemma OnlyFullLogLoses(ops: seq<Op>, op: Op)
    requires op != Shutdown
    ensures Run(ops + [op]).lost != Run(ops).lost <==> op.Emit? && |Run(ops).queue| == LOG_SIZE
  {
    EveryRunIsAccounted(ops);
    assert (ops + [op])[..|ops|] == ops;
  }
}
