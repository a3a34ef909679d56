/** The control device (src/core/chardev.c, src/core/power.c): descriptors that select a
    device, and calls routed to the selected device. */
module CharDev {
  import opened Wrappers
  import opened Ring
  import U = Uart

  type Fd = nat

  datatype Call =
    | Open(fd: Fd)
    | Close(fd: Fd)
    | Select(fd: Fd, name: string, copyOk: bool)
    | Recv(fd: Fd, count: nat, memory: bool, copyOk: bool)
    | Send(fd: Fd, data: seq<Byte>, memory: bool, copyOk: bool)
    | SetPower(fd: Fd, state: nat, copyOk: bool)
    | GetInfo(fd: Fd, name: string, inOk: bool, outOk: bool)
    | Unknown(fd: Fd)

  /** Open descriptors with their selection, and the registered devices. */
  datatype Sys = Sys(fds: map<Fd, Option<string>>, devs: map<string, U.Dev>)

  function Selected(fds: map<Fd, Option<string>>, fd: Fd): Option<string> {
    if fd in fds then fds[fd] else None
  }

  function PowerOf(state: nat): U.Power {
    if state == 0 then U.Off else if state == 1 then U.On else U.Suspend
  }

  datatype Target = Target(name: string, op: U.DevOp)

  /** The device operation a call is routed to, if any. */
  function Route(fds: map<Fd, Option<string>>, names: set<string>, c: Call): Option<Target> {
    var sel := Selected(fds, c.fd);
    match c
    case Recv(_, count, memory, ok) =>
      if sel.Some? then Some(Target(sel.value, U.DevOp.Read(count, memory, ok))) else None
    case Send(_, data, memory, ok) =>
      if sel.Some? then Some(Target(sel.value, U.DevOp.Write(data, memory, ok))) else None
    case SetPower(_, state, ok) =>
      if sel.Some? && ok && state <= 2 then Some(Target(sel.value, U.DevOp.SetPower(PowerOf(state)))) else None
    case GetInfo(_, name, inOk, outOk) =>
      if !inOk then None
      else if name != "" then (if name in names then Some(Target(name, U.DevOp.Info(outOk))) else None)
      else if sel.Some? then Some(Target(sel.value, U.DevOp.Info(outOk))) else None
    case _ => None
  }

  /** Selections after a call. */
  function Fds(fds: map<Fd, Option<string>>, names: set<string>, c: Call): map<Fd, Option<string>> {
    match c
    case Open(fd) => fds[fd := None]
    case Close(fd) => fds - {fd}
    case Select(fd, name, ok) => if ok && fd in fds && name in names then fds[fd := Some(name)] else fds
    case _ => fds
  }

  /** Reply to a call that is not routed to a device. */
  function Local(fds: map<Fd, Option<string>>, names: set<string>, c: Call): U.Reply {
    match c
    case Open(_) => U.Done
    case Close(_) => U.Done
    case Select(fd, name, ok) =>
      if !ok then U.Error(EFAULT) else if fd in fds && name in names then U.Done else U.Error(ENODEV)
    case SetPower(fd, state, ok) =>
      if Selected(fds, fd).None? then U.Error(ENODEV) else U.Error(if ok then EINVAL else EFAULT)
    case GetInfo(_, _, inOk, _) => U.Error(if inOk then ENODEV else EFAULT)
    case Unknown(_) => U.Error(ENOTTY)
    case _ => U.Error(ENODEV)
  }

  function Handled(s: Sys, c: Call): (r: (Sys, U.Reply))
  {
    var t := Route(s.fds, s.devs.Keys, c);
    var fds := Fds(s.fds, s.devs.Keys, c);
    if t.Some? && t.value.name in s.devs then
      var r := U.Apply(s.devs[t.value.name], t.value.op);
      (Sys(fds, s.devs[t.value.name := r.0]), r.1)
    else (Sys(fds, s.devs), Local(s.fds, s.devs.Keys, c))
  }

  // ===== the code's state: descriptors and device objects =====

  class Control {
    var fds: map<Fd, Option<string>>
    const devices: map<string, U.Device>
    ghost const Repr: set<object>

    /** Every device is probed, and no two share memory. */
    ghost predicate DevicesOk()
      reads Repr
    {
      && (forall n :: n in devices ==>
            && devices[n] in Repr && (devices[n].ring != null ==> devices[n].ring in Repr)
            && devices[n].Footprint() <= Repr
            && devices[n].Valid() && devices[n].Probed())
      && (forall m, n :: m in devices && n in devices && m != n ==> devices[m].Footprint() !! devices[n].Footprint())
    }

    ghost predicate Valid()
      reads this, Repr
    {
      this !in Repr && DevicesOk() && forall fd :: fd in fds && fds[fd].Some? ==> fds[fd].value in devices
    }

    ghost function Devs(): (d: map<string, U.Dev>)
      requires DevicesOk()
      reads Repr
      ensures d.Keys == devices.Keys
    {
      map n | n in devices :: devices[n].Abs()
    }

    ghost function Abs(): Sys
      requires DevicesOk()
      reads this, Repr
    {
      Sys(fds, Devs())
    }

    constructor (devs: map<string, U.Device>, ghost memory: set<object>)
      requires forall n :: n in devs ==> devs[n].Valid() && devs[n].Probed()
      requires forall n :: n in devs ==> devs[n] in memory && devs[n].ring in memory && devs[n].Footprint() <= memory
      requires forall m, n :: m in devs && n in devs && m != n ==> devs[m].Footprint() !! devs[n].Footprint()
      ensures Valid() && devices == devs && fds == map[]
    {
      devices, fds, Repr := devs, map[], memory;
    }

    /** Run one operation on the device `name`. */
    method Dispatch(name: string, op: U.DevOp) returns (r: U.Reply)
      requires DevicesOk() && name in devices
      modifies Repr
      ensures DevicesOk()
      ensures var d := U.Apply(old(Devs())[name], op);
              r == d.1 && Devs() == old(Devs())[name := d.0]
    {
      hide U.Apply, U.Device.Valid, U.Device.Probed, U.Device.Abs;
      var dev := devices[name];
      ghost var before := Devs();
      r := dev.Do(op);
      forall n | n in devices && n != name
        ensures devices[n].Valid() && devices[n].Probed() && devices[n].Abs() == before[n]
        ensures devices[n].Footprint() == old(devices[n].Footprint())
      {
        assert old(devices[n].Footprint()) !! old(dev.Footprint());
      }
      assert forall n :: n in devices ==> devices[n].Footprint() == old(devices[n].Footprint());
      assert DevicesOk();
    }

    /** open, release and KDAL_IOCTL_SELECT_DEV. */
    method HandleSelection(c: Call) returns (r: U.Reply)
      requires Valid() && (c.Open? || c.Close? || c.Select?)
      modifies this`fds
      ensures Valid()
      ensures (Abs(), r) == Handled(old(Abs()), c)
    {
      hide DevicesOk, Devs;
      ghost var devs := Devs();
      match c {
        case Open(fd) =>
          fds := fds[fd := None];
          r := U.Done;
        case Close(fd) =>
          fds := fds - {fd};
          r := U.Done;
        case Select(fd, name, ok) =>
          if !ok {
            return U.Error(EFAULT);
          }
          if fd !in fds || name !in devices {
            return U.Error(ENODEV);
          }
          fds := fds[fd := Some(name)];
          r := U.Done;
      }
    }

    /** read, write, and the power, info and unknown ioctls. */
    method HandleDevice(c: Call) returns (r: U.Reply)
      requires Valid() && !c.Open? && !c.Close? && !c.Select?
      modifies Repr
      ensures Valid()
      ensures (Abs(), r) == Handled(old(Abs()), c)
    {
      hide DevicesOk, Devs, U.Apply;
      var sel := Selected(fds, c.fd);
      match c {
        case Recv(_, count, memory, ok) =>
          if sel.None? {
            return U.Error(ENODEV);
          }
          r := Dispatch(sel.value, U.DevOp.Read(count, memory, ok));
        case Send(_, data, memory, ok) =>
          if sel.None? {
            return U.Error(ENODEV);
          }
          r := Dispatch(sel.value, U.DevOp.Write(data, memory, ok));
        case SetPower(_, state, ok) =>
          if sel.None? {
            return U.Error(ENODEV);
          }
          if !ok {
            return U.Error(EFAULT);
          }
          if state > 2 {
            return U.Error(EINVAL);
          }
          r := Dispatch(sel.value, U.DevOp.SetPower(PowerOf(state)));
        case GetInfo(_, name, inOk, outOk) =>
          if !inOk {
            return U.Error(EFAULT);
          }
          if name != "" && name in devices {
            r := Dispatch(name, U.DevOp.Info(outOk));
          } else if name == "" && sel.Some? {
            r := Dispatch(sel.value, U.DevOp.Info(outOk));
          } else {
            return U.Error(ENODEV);
          }
        case Unknown(_) =>
          // A selected driver answers an unknown command like the switch itself.
          return U.Error(ENOTTY);
      }
    }

    /** The file operations and ioctls. */
    method Handle(c: Call) returns (r: U.Reply)
      requires Valid()
      modifies this`fds, Repr
      ensures Valid()
      ensures (Abs(), r) == Handled(old(Abs()), c)
    {
      if c.Open? || c.Close? || c.Select? {
        r := HandleSelection(c);
      } else {
        r := HandleDevice(c);
      }
    }
  }

  // ===== isolation =====

  /** The operations a run of calls routes to device `n`. */
  function Routed(s: Sys, calls: seq<Call>, n: string): seq<U.DevOp>
    decreases |calls|
  {
    if calls == [] then []
    else
      var t := Route(s.fds, s.devs.Keys, calls[0]);
      (if t.Some? && t.value.name == n then [t.value.op] else []) + Routed(Handled(s, calls[0]).0, calls[1..], n)
  }

  /** The replies to those calls. */
  function Replies(s: Sys, calls: seq<Call>, n: string): seq<U.Reply>
    decreases |calls|
  {
    if calls == [] then []
    else
      var t := Route(s.fds, s.devs.Keys, calls[0]);
      (if t.Some? && t.value.name == n then [Handled(s, calls[0]).1] else []) + Replies(Handled(s, calls[0]).0, calls[1..], n)
  }

  function After(s: Sys, calls: seq<Call>): Sys
    decreases |calls|
  {
    if calls == [] then s else After(Handled(s, calls[0]).0, calls[1..])
  }

  /** A device on its own, running a list of operations. */
  function Alone(d: U.Dev, ops: seq<U.DevOp>): (r: (U.Dev, seq<U.Reply>))
    decreases |ops|
  {
    if ops == [] then (d, [])
    else
      var first := U.Apply(d, ops[0]);
      var rest := Alone(first.0, ops[1..]);
      (rest.0, [first.1] + rest.1)
  }

  lemma StepOnDevice(s: Sys, c: Call, n: string)
    requires n in s.devs
    ensures n in Handled(s, c).0.devs && Handled(s, c).0.devs.Keys == s.devs.Keys
    ensures var t := Route(s.fds, s.devs.Keys, c);
            if t.Some? && t.value.name == n
            then (Handled(s, c).0.devs[n], Handled(s, c).1) == U.Apply(s.devs[n], t.value.op)
            else Handled(s, c).0.devs[n] == s.devs[n]
  {
    hide U.Apply, Route, Fds, Local;
  }

  /** Whatever the descriptors do, a device ends in the state, and its callers get the
      replies, of running just the operations routed to it. */
  lemma {:induction false} DeviceRunsAlone(s: Sys, calls: seq<Call>, n: string)
    requires n in s.devs
    ensures n in After(s, calls).devs
    ensures (After(s, calls).devs[n], Replies(s, calls, n)) == Alone(s.devs[n], Routed(s, calls, n))
    decreases |calls|
  {
    hide U.Apply, Route, Handled;
    if calls != [] {
      StepOnDevice(s, calls[0], n);
      var s' := Handled(s, calls[0]).0;
      DeviceRunsAlone(s', calls[1..], n);
      var t := Route(s.fds, s.devs.Keys, calls[0]);
      if t.Some? && t.value.name == n {
        assert Routed(s, calls, n)[1..] == Routed(s', calls[1..], n);
      } else {
        assert Routed(s, calls, n) == Routed(s', calls[1..], n);
        assert Replies(s, calls, n) == Replies(s', calls[1..], n);
      }
    }
  }

  /** Two interleavings that route the same operations to a device give it the same
      replies and leave it in the same state, even on systems that differ elsewhere. */
  lemma DevicesAreIsolated(s1: Sys, calls1: seq<Call>, s2: Sys, calls2: seq<Call>, n: string)
    requires n in s1.devs && n in s2.devs && s1.devs[n] == s2.devs[n]
    requires Routed(s1, calls1, n) == Routed(s2, calls2, n)
    ensures Replies(s1, calls1, n) == Replies(s2, calls2, n)
    ensures n in After(s1, calls1).devs && n in After(s2, calls2).devs
    ensures After(s1, calls1).devs[n] == After(s2, calls2).devs[n]
  {
    DeviceRunsAlone(s1, calls1, n);
    DeviceRunsAlone(s2, calls2, n);
  }

  // ===== what each call does, field by field =====

  /** The descriptor is open and the device it has selected is there. */
  predicate Selects(s: Sys, fd: Fd, n: string) {
    fd in s.fds && s.fds[fd] == Some(n) && n in s.devs
  }

  /** Power requests: 0 is off, 1 on and 2 suspend; anything above is refused. Nothing but
      the power of the selected device changes. */
  lemma PowerRequest(s: Sys, fd: Fd, n: string, state: nat)
    requires Selects(s, fd, n)
    ensures state == 0 ==>
      Handled(s, SetPower(fd, state, true)) == (s.(devs := s.devs[n := s.devs[n].(power := U.Off)]), U.Done)
    ensures state == 1 ==>
      Handled(s, SetPower(fd, state, true)) == (s.(devs := s.devs[n := s.devs[n].(power := U.On)]), U.Done)
    ensures state == 2 ==>
      Handled(s, SetPower(fd, state, true)) == (s.(devs := s.devs[n := s.devs[n].(power := U.Suspend)]), U.Done)
    ensures state > 2 ==> Handled(s, SetPower(fd, state, true)) == (s, U.Error(EINVAL))
    ensures Handled(s, SetPower(fd, state, false)) == (s, U.Error(EFAULT))
  {
  }

  /** The least of three. */
  function Least(a: nat, b: nat, c: nat): (m: nat)
    ensures m <= a && m <= b && m <= c && (m == a || m == b || m == c)
  {
    if a <= b && a <= c then a else if b <= c then b else c
  }

  /** A send: with the power on, as many of the first bytes as there are, as fit into a page
      and as the ring of 4096 has room for go behind the bytes waiting; otherwise the call is
      refused and nothing moves. */
  lemma SendIs(s: Sys, fd: Fd, n: string, data: seq<Byte>, memory: bool, copyOk: bool)
    requires Selects(s, fd, n) && |s.devs[n].fifo| <= 4096
    ensures var d, r := s.devs[n], Handled(s, Send(fd, data, memory, copyOk));
            var m := Least(|data|, 4096, 4096 - |s.devs[n].fifo|);
            && (d.power != U.On ==> r == (s, U.Error(EIO)))
            && (d.power == U.On && !memory ==> r == (s, U.Error(ENOMEM)))
            && (d.power == U.On && memory && !copyOk && data != [] ==> r == (s, U.Error(EFAULT)))
            && (d.power == U.On && memory && (copyOk || data == []) ==>
                  && r.1 == U.Wrote(m) && r.0.fds == s.fds
                  && r.0.devs == s.devs[n := U.Dev(U.On, d.fifo + data[..m], (d.tx + m) % 0x1_0000_0000_0000_0000, d.rx)])
  {
    assert s.devs[n := s.devs[n]] == s.devs;
  }

  /** A receive: with the power on, as many of the oldest bytes as are asked for, as fit into
      a page and as are waiting are handed out. A copy that fails loses them. */
  lemma RecvIs(s: Sys, fd: Fd, n: string, count: nat, memory: bool, copyOk: bool)
    requires Selects(s, fd, n)
    ensures var d, r := s.devs[n], Handled(s, Recv(fd, count, memory, copyOk));
            var m := Least(count, 4096, |s.devs[n].fifo|);
            && (d.power != U.On ==> r == (s, U.Error(EIO)))
            && (d.power == U.On && !memory ==> r == (s, U.Error(ENOMEM)))
            && (d.power == U.On && memory && (copyOk || m == 0) ==>
                  && r.1 == U.Data(d.fifo[..m]) && r.0.fds == s.fds
                  && r.0.devs == s.devs[n := U.Dev(U.On, d.fifo[m..], d.tx, (d.rx + m) % 0x1_0000_0000_0000_0000)])
            && (d.power == U.On && memory && !copyOk && m > 0 ==>
                  && r.1 == U.Error(EFAULT) && r.0.fds == s.fds
                  && r.0.devs == s.devs[n := U.Dev(U.On, d.fifo[m..], d.tx, d.rx)])
  {
    assert s.devs[n := s.devs[n]] == s.devs;
  }

  /** Without a selection every call that needs one answers that there is no device. */
  lemma UnselectedIsRefused(s: Sys, fd: Fd, state: nat, data: seq<Byte>, count: nat, memory: bool, ok: bool)
    requires fd !in s.fds || s.fds[fd] == None
    ensures Handled(s, SetPower(fd, state, ok)) == (s, U.Error(ENODEV))
    ensures Handled(s, Send(fd, data, memory, ok)) == (s, U.Error(ENODEV))
    ensures Handled(s, Recv(fd, count, memory, ok)) == (s, U.Error(ENODEV))
    ensures Handled(s, GetInfo(fd, "", true, ok)) == (s, U.Error(ENODEV))
  {
  }

  /** Selecting, opening and closing touch that descriptor only, and no device. */
  lemma SelectionIs(s: Sys, fd: Fd, name: string)
    requires fd in s.fds
    ensures name in s.devs ==> Handled(s, Select(fd, name, true)) == (s.(fds := s.fds[fd := Some(name)]), U.Done)
    ensures name !in s.devs ==> Handled(s, Select(fd, name, true)) == (s, U.Error(ENODEV))
    ensures Handled(s, Select(fd, name, false)) == (s, U.Error(EFAULT))
    ensures Handled(s, Open(fd)) == (s.(fds := s.fds[fd := None]), U.Done)
    ensures Handled(s, Close(fd)).1 == U.Done && Handled(s, Close(fd)).0.devs == s.devs
    ensures fd !in Handled(s, Close(fd)).0.fds
    ensures forall g :: g in s.fds && g != fd ==> g in Handled(s, Close(fd)).0.fds && Handled(s, Close(fd)).0.fds[g] == s.fds[g]
  {
  }

  /** A query reports the power of the device asked for: the one named or, without a name,
      the one selected. */
  lemma InfoIs(s: Sys, fd: Fd, name: string, n: string)
    requires n in s.devs && (name == n || (name == "" && Selects(s, fd, n)))
    requires name != "" || Selects(s, fd, n)
    ensures Handled(s, GetInfo(fd, name, true, true)) == (s, U.PowerIs(s.devs[n].power))
    ensures Handled(s, GetInfo(fd, name, true, false)) == (s, U.Error(EFAULT))
    ensures Handled(s, GetInfo(fd, name, false, true)) == (s, U.Error(EFAULT))
  {
    assert s.devs[n := s.devs[n]] == s.devs;
  }

  lemma OddCallsAreRefused(s: Sys, fd: Fd, name: string, ok: bool)
    ensures Handled(s, Unknown(fd)) == (s, U.Error(ENOTTY))
    ensures name != "" && name !in s.devs ==> Handled(s, GetInfo(fd, name, true, ok)) == (s, U.Error(ENODEV))
  {
  }

  /** The call neither opens, closes nor successfully reselects the descriptor. */
  predicate Leaves(c: Call, fd: Fd, names: set<string>) {
    c.fd == fd ==> !c.Open? && !c.Close? && (c.Select? ==> !c.copyOk || c.name !in names)
  }

  lemma {:induction false} AfterAppend(s: Sys, a: seq<Call>, b: seq<Call>)
    ensures After(s, a + b) == After(After(s, a), b)
    decreases |a|
  {
    hide Handled;
    if a == [] {
      assert a + b == b;
    } else {
      assert (a + b)[1..] == a[1..] + b;
      AfterAppend(Handled(s, a[0]).0, a[1..], b);
    }
  }

  /** What the calls of others, and the descriptor's own sends and requests, leave alone. */
  lemma {:induction false} SelectionStays(s: Sys, calls: seq<Call>, fd: Fd, n: string)
    requires Selects(s, fd, n) && forall c :: c in calls ==> Leaves(c, fd, s.devs.Keys)
    ensures Selects(After(s, calls), fd, n) && After(s, calls).devs.Keys == s.devs.Keys
    decreases |calls|
  {
    hide Handled;
    if calls != [] {
      assert calls[0] in calls;
      StepKeepsSelection(s, calls[0], fd, n);
      SelectionStays(Handled(s, calls[0]).0, calls[1..], fd, n);
    }
  }

  lemma StepKeepsSelection(s: Sys, c: Call, fd: Fd, n: string)
    requires Selects(s, fd, n) && Leaves(c, fd, s.devs.Keys)
    ensures Selects(Handled(s, c).0, fd, n) && Handled(s, c).0.devs.Keys == s.devs.Keys
  {
    hide U.Apply;
  }

  /** In every run the last successful select of a descriptor rules until it is closed or
      opened again: a power request goes to that device and to no other. */
  lemma LastSelectRules(s: Sys, before: seq<Call>, between: seq<Call>, fd: Fd, n: string)
    requires var x := After(s, before); fd in x.fds && n in x.devs
    requires forall c :: c in between ==> Leaves(c, fd, After(s, before).devs.Keys)
    ensures var y := After(s, before + [Select(fd, n, true)] + between);
            && Selects(y, fd, n)
            && Handled(y, SetPower(fd, 0, true)) == (y.(devs := y.devs[n := y.devs[n].(power := U.Off)]), U.Done)
            && Handled(y, SetPower(fd, 1, true)) == (y.(devs := y.devs[n := y.devs[n].(power := U.On)]), U.Done)
  {
    hide Handled;
    var x := After(s, before);
    AfterAppend(s, before + [Select(fd, n, true)], between);
    AfterAppend(s, before, [Select(fd, n, true)]);
    SelectionIs(x, fd, n);
    var z := Handled(x, Select(fd, n, true)).0;
    assert After(z, []) == z && [Select(fd, n, true)][1..] == [];
    SelectionStays(z, between, fd, n);
    PowerRequest(After(z, between), fd, n, 0);
    PowerRequest(After(z, between), fd, n, 1);
  }
}
