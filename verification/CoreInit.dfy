/** Start-up with unwinding and shut-down (src/core/kdal.c, and the init and exit
    functions it calls). */
module CoreInit {
  import opened Wrappers
  import opened Registry
  import L = EventLog

  // ===== the objects the module owns =====

  const QEMU := Obj(1, Some("qemu-virt"))
  const PLATDEV := Obj(2, Some("generic-platdev"))

  /** The i-th example driver: UART, I2C, SPI, GPU. */
  function DriverObj(i: nat): Obj {
    Obj(3 + i, Some(if i == 0 then "kdal-uart" else if i == 1 then "kdal-i2c" else if i == 2 then "kdal-spi" else "kdal-gpu"))
  }

  function DeviceObj(i: nat): Obj {
    Obj(7 + i, Some(DeviceName(i)))
  }

  function DeviceName(i: nat): string {
    if i == 0 then "uart0" else if i == 1 then "i2c0" else if i == 2 then "spi0" else "gpu0"
  }

  /** A device-tree node: the entry made for it, and which of reading its registers,
      allocating the entry and mapping the registers succeed. */
  datatype DtNode = DtNode(entry: Obj, readable: bool, memory: bool, mapped: bool)

  /** What code outside the module decides: which calls into it succeed. Whether the i-th
      probe succeeds may depend on the state it finds, with its device bound. */
  datatype Env = Env(chardev: bool, debugfs: bool, glue: bool, nodes: seq<DtNode>, probes: (int, World) -> bool)

  datatype World = World(
    chardev: bool, debugfs: bool, glue: bool,
    backends: seq<Obj>, drivers: seq<Obj>, devices: seq<Obj>,
    bound: map<Obj, Obj>, scanned: seq<Obj>, events: seq<L.Event>)

  const STEPS: nat := 10
  const SCAN: nat := 5

  // ===== what each step does, and what undoes it =====

  function AddEvent(w: World, t: L.EventType, name: string): World {
    w.(events := L.AfterEmit(w.events, L.Event(t, name, 0)))
  }

  /** The walk over the matching nodes ends early where no memory is left. */
  predicate Stops(n: DtNode) {
    n.readable && !n.memory
  }

  /** The node becomes a device, given the devices there are. */
  predicate Added(devices: seq<Obj>, n: DtNode) {
    n.readable && n.memory && n.mapped && RegisterCode(devices, n.entry, true) == Ok
  }

  /** The entries kdal_devicetree_scan adds, and whether it gets through. */
  function Scanned(devices: seq<Obj>, nodes: seq<DtNode>): (r: (seq<Obj>, bool))
    decreases |nodes|
  {
    if nodes == [] then ([], true)
    else if Stops(nodes[0]) then ([], false)
    else if Added(devices, nodes[0]) then
      var r := Scanned(devices + [nodes[0].entry], nodes[1..]);
      ([nodes[0].entry] + r.0, r.1)
    else Scanned(devices, nodes[1..])
  }

  function Cleanup(devices: seq<Obj>, entries: seq<Obj>): seq<Obj>
    decreases |entries|
  {
    if entries == [] then devices else Cleanup(AfterUnregister(devices, entries[0]), entries[1..])
  }

  /** Init of an example driver needs its backend, both names free, the device unbound and
      a probe that succeeds; it then leaves both registered and bound. */
  predicate DriverStarts(w: World, i: nat, env: Env) {
    && FindIn(w.backends, QEMU.name).Some?
    && RegisterCode(w.drivers, DriverObj(i), true) == Ok
    && RegisterCode(w.devices, DeviceObj(i), true) == Ok
    && DeviceObj(i) !in w.bound
    && env.probes(i, DriverBound(w, i))
  }

  /** Driver and device registered, and bound to each other: what the probe finds. */
  function DriverBound(w: World, i: nat): World {
    w.(drivers := w.drivers + [DriverObj(i)], devices := w.devices + [DeviceObj(i)],
       bound := w.bound[DeviceObj(i) := DriverObj(i)])
  }

  function DriverUp(w: World, i: nat): World {
    AddEvent(DriverBound(w, i), L.DeviceAdded, DeviceName(i))
  }

  function DriverDown(w: World, i: nat): World {
    AddEvent(w.(bound := w.bound - {DeviceObj(i)}, devices := AfterUnregister(w.devices, DeviceObj(i)),
                drivers := AfterUnregister(w.drivers, DriverObj(i))),
             L.DeviceRemoved, DeviceName(i))
  }

  /** Step `k` succeeds. */
  predicate Succeeds(w: World, k: nat, env: Env) {
    if k == 0 then env.chardev
    else if k == 1 then env.debugfs
    else if k == 2 then RegisterCode(w.backends, QEMU, true) == Ok
    else if k == 3 then env.glue
    else if k == 4 then RegisterCode(w.backends, PLATDEV, true) == Ok
    else if k == SCAN then Scanned(w.devices, env.nodes).1
    else DriverStarts(w, k - 6, env)
  }

  /** What step `k` leaves. A step that fails leaves nothing, but the scan keeps the
      entries it added before it failed. */
  function Up(w: World, k: nat, env: Env): World {
    if k == SCAN then
      var added := Scanned(w.devices, env.nodes).0;
      w.(devices := w.devices + added, scanned := w.scanned + added)
    else if !Succeeds(w, k, env) then w
    else if k == 0 then w.(chardev := true)
    else if k == 1 then w.(debugfs := true)
    else if k == 2 then w.(backends := w.backends + [QEMU])
    else if k == 3 then w.(glue := true)
    else if k == 4 then w.(backends := w.backends + [PLATDEV])
    else DriverUp(w, k - 6)
  }

  /** What the exit function of step `k` leaves. */
  function Down(w: World, k: nat): World {
    if k == 0 then w.(chardev := false)
    else if k == 1 then w.(debugfs := false)
    else if k == 2 then w.(backends := AfterUnregister(w.backends, QEMU))
    else if k == 3 then w.(glue := false)
    else if k == 4 then w.(backends := AfterUnregister(w.backends, PLATDEV))
    else if k == SCAN then w.(devices := Cleanup(w.devices, w.scanned), scanned := [])
    else DriverDown(w, k - 6)
  }

  function Ups(w: World, k: nat, env: Env): World {
    if k == 0 then w else Up(Ups(w, k - 1, env), k - 1, env)
  }

  function Downs(w: World, k: nat): World
    decreases k
  {
    if k == 0 then w else Downs(Down(w, k - 1), k - 1)
  }

  /** The first `k` steps succeed. */
  predicate AllUp(w: World, k: nat, env: Env) {
    k == 0 || (AllUp(w, k - 1, env) && Succeeds(Ups(w, k - 1, env), k - 1, env))
  }

  /** Step `k` is the one that fails. */
  predicate FailsAt(w: World, k: nat, env: Env) {
    k < STEPS && AllUp(w, k, env) && !Succeeds(Ups(w, k, env), k, env)
  }

  datatype Action = DidUp(k: nat) | DidDown(k: nat)

  function UpLog(k: nat): (s: seq<Action>)
    ensures |s| == k && forall i :: 0 <= i < k ==> s[i] == DidUp(i)
  {
    if k == 0 then [] else UpLog(k - 1) + [DidUp(k - 1)]
  }

  /** The first `k` steps undone, last first. */
  function DownLog(k: nat): (s: seq<Action>)
    ensures |s| == k && forall i :: 0 <= i < k ==> s[i] == DidDown(k - 1 - i)
  {
    if k == 0 then [] else [DidDown(k - 1)] + DownLog(k - 1)
  }

  // ===== the code =====

  class Kernel {
    var w: World
    var log: seq<Action>

    constructor (start: World)
      ensures w == start && log == []
    {
      w, log := start, [];
    }

    /** kdal_attach_driver: bind before probing, unbind if the probe fails. */
    method Attach(dev: Obj, drv: Obj, probe: World -> bool) returns (ok: bool)
      modifies this`w
      ensures ok == (dev !in old(w).bound && probe(old(w).(bound := old(w).bound[dev := drv])))
      ensures w == if ok then old(w).(bound := old(w).bound[dev := drv]) else old(w)
    {
      if dev in w.bound {
        return false;
      }
      ghost var before := w.bound;
      w := w.(bound := w.bound[dev := drv]);
      if !probe(w) {
        w := w.(bound := w.bound - {dev});
        assert w.bound == before;
        return false;
      }
      ok := true;
    }

    /** kdal_detach_driver. */
    method Detach(dev: Obj)
      modifies this`w
      ensures w == old(w).(bound := old(w).bound - {dev})
    {
      if dev !in w.bound {
        assert w.bound - {dev} == w.bound;
        return;
      }
      w := w.(bound := w.bound - {dev});
    }

    method RegisterDriver(o: Obj) returns (code: Code)
      modifies this`w
      ensures code == RegisterCode(old(w).drivers, o, true)
      ensures w == old(w).(drivers := AfterRegister(old(w).drivers, o, true))
    {
      code := RegisterCode(w.drivers, o, true);
      w := w.(drivers := AfterRegister(w.drivers, o, true));
    }

    method RegisterDevice(o: Obj) returns (code: Code)
      modifies this`w
      ensures code == RegisterCode(old(w).devices, o, true)
      ensures w == old(w).(devices := AfterRegister(old(w).devices, o, true))
    {
      code := RegisterCode(w.devices, o, true);
      w := w.(devices := AfterRegister(w.devices, o, true));
    }

    method RegisterBackend(o: Obj) returns (code: Code)
      modifies this`w
      ensures code == RegisterCode(old(w).backends, o, true)
      ensures w == old(w).(backends := AfterRegister(old(w).backends, o, true))
    {
      code := RegisterCode(w.backends, o, true);
      w := w.(backends := AfterRegister(w.backends, o, true));
    }

    /** kdal_uart_driver_init and its three siblings: each failure takes back what was done. */
    method DriverInit(i: nat, env: Env) returns (ok: bool)
      modifies this`w
      ensures ok == DriverStarts(old(w), i, env)
      ensures w == if ok then DriverUp(old(w), i) else old(w)
    {
      hide FindIn, RegisterCode, AfterUnregister, AddEvent, DriverObj, DeviceObj;
      var dev, drv := DeviceObj(i), DriverObj(i);
      ghost var w0 := w;
      if FindIn(w.backends, QEMU.name).None? {
        return false;
      }
      var code := RegisterDriver(drv);
      if code != Ok {
        return false;
      }
      RegisterUndone(w0.drivers, drv);
      code := RegisterDevice(dev);
      if code != Ok {
        w := w.(drivers := AfterUnregister(w.drivers, drv));
        return false;
      }
      RegisterUndone(w0.devices, dev);
      ok := Attach(dev, drv, state => env.probes(i, state));
      if !ok {
        w := w.(devices := AfterUnregister(w.devices, dev));
        w := w.(drivers := AfterUnregister(w.drivers, drv));
        return false;
      }
      w := AddEvent(w, L.DeviceAdded, DeviceName(i));
    }

    method DriverExit(i: nat)
      modifies this`w
      ensures w == DriverDown(old(w), i)
    {
      w := AddEvent(w, L.DeviceRemoved, DeviceName(i));
      Detach(DeviceObj(i));
      w := w.(devices := AfterUnregister(w.devices, DeviceObj(i)));
      w := w.(drivers := AfterUnregister(w.drivers, DriverObj(i)));
    }

    /** kdal_devicetree_scan. */
    method ScanTree(nodes: seq<DtNode>) returns (ok: bool)
      modifies this`w
      ensures var r := Scanned(old(w).devices, nodes);
        ok == r.1 && w == old(w).(devices := old(w).devices + r.0, scanned := old(w).scanned + r.0)
    {
      hide RegisterCode;
      ghost var w0, added := w, [];
      var i := 0;
      assert w0.devices + added == w0.devices && w0.scanned + added == w0.scanned;
      assert nodes[0..] == nodes;
      while i < |nodes|
        invariant i <= |nodes|
        invariant w == w0.(devices := w0.devices + added, scanned := w0.scanned + added)
        invariant var r, s := Scanned(w0.devices, nodes), Scanned(w.devices, nodes[i..]);
          r.1 == s.1 && r.0 == added + s.0
      {
        var n := nodes[i];
        assert nodes[i..][0] == n && nodes[i..][1..] == nodes[i+1..];
        i := i + 1;
        if !n.readable {
          continue;
        }
        if !n.memory {
          assert added + [] == added;
          return false;
        }
        if !n.mapped {
          continue;
        }
        var code := RegisterDevice(n.entry);
        if code != Ok {
          continue;
        }
        w := w.(scanned := w.scanned + [n.entry]);
        ghost var more := added + [n.entry];
        assert w0.devices + more == (w0.devices + added) + [n.entry];
        assert w0.scanned + more == (w0.scanned + added) + [n.entry];
        assert forall t: seq<Obj> :: added + ([n.entry] + t) == more + t;
        added := more;
      }
      assert added + [] == added;
      ok := true;
    }

    /** kdal_devicetree_cleanup. */
    method CleanupTree()
      modifies this`w
      ensures w == old(w).(devices := Cleanup(old(w).devices, old(w).scanned), scanned := [])
    {
      while w.scanned != []
        invariant w == old(w).(devices := w.devices, scanned := w.scanned)
        invariant Cleanup(w.devices, w.scanned) == Cleanup(old(w).devices, old(w).scanned)
        decreases |w.scanned|
      {
        w := w.(devices := AfterUnregister(w.devices, w.scanned[0]));
        w := w.(scanned := w.scanned[1..]);
      }
    }

    /** The init function of step `k`. */
    method Init(k: nat, env: Env) returns (ok: bool)
      modifies this
      ensures ok == Succeeds(old(w), k, env) && w == Up(old(w), k, env)
      ensures log == if ok then old(log) + [DidUp(k)] else old(log)
    {
      hide Scanned, DriverStarts, DriverUp, FindIn;
      var code;
      match k {
        case 0 => ok := env.chardev; if ok { w := w.(chardev := true); }
        case 1 => ok := env.debugfs; if ok { w := w.(debugfs := true); }
        case 2 => code := RegisterBackend(QEMU); ok := code == Ok;
        case 3 => ok := env.glue; if ok { w := w.(glue := true); }
        case 4 => code := RegisterBackend(PLATDEV); ok := code == Ok;
        case 5 => ok := ScanTree(env.nodes);
        case _ => ok := DriverInit(k - 6, env);
      }
      if ok {
        log := log + [DidUp(k)];
      }
    }

    /** The exit function of step `k`. */
    method Exit(k: nat)
      modifies this
      ensures w == Down(old(w), k) && log == old(log) + [DidDown(k)]
    {
      match k {
        case 0 => w := w.(chardev := false);
        case 1 => w := w.(debugfs := false);
        case 2 => w := w.(backends := AfterUnregister(w.backends, QEMU));
        case 3 => w := w.(glue := false);
        case 4 => w := w.(backends := AfterUnregister(w.backends, PLATDEV));
        case 5 => CleanupTree();
        case _ => DriverExit(k - 6);
      }
      log := log + [DidDown(k)];
    }

    /** The first `k` steps are up. */
    ghost predicate Climbed(k: nat, env: Env, w0: World, log0: seq<Action>)
      reads this
    {
      AllUp(w0, k, env) && w == Ups(w0, k, env) && log == log0 + UpLog(k)
    }

    /** Step `k` has failed. */
    ghost predicate Stuck(k: nat, env: Env, w0: World, log0: seq<Action>)
      reads this
    {
      FailsAt(w0, k, env) && w == Ups(w0, k + 1, env) && log == log0 + UpLog(k)
    }

    /** One step of the way up: either the next state of the climb, or the failure. */
    method Try(k: nat, env: Env, ghost w0: World, ghost log0: seq<Action>) returns (ok: bool)
      requires k < STEPS && Climbed(k, env, w0, log0)
      modifies this
      ensures if ok then Climbed(k + 1, env, w0, log0) else Stuck(k, env, w0, log0)
    {
      hide Up, Succeeds;
      ok := Init(k, env);
      assert log0 + (UpLog(k) + [DidUp(k)]) == (log0 + UpLog(k)) + [DidUp(k)];
    }

    /** One exit function of a downward run that has steps `k`-1 .. 0 left. */
    method Back(k: nat, ghost goal: World, ghost trace: seq<Action>)
      requires k > 0 && goal == Downs(w, k) && trace == log + DownLog(k)
      modifies this
      ensures goal == Downs(w, k - 1) && trace == log + DownLog(k - 1)
    {
      hide Down;
      ghost var log0 := log;
      Exit(k - 1);
      assert log0 + ([DidDown(k - 1)] + DownLog(k - 1)) == (log0 + [DidDown(k - 1)]) + DownLog(k - 1);
    }

    /** The error labels: enter at the label of the failed step and fall through. */
    method Unwind(failed: nat)
      requires failed < STEPS
      modifies this
      ensures w == Downs(old(w), failed) && log == old(log) + DownLog(failed)
    {
      hide Down, Downs, DownLog;
      ghost var goal, trace := Downs(w, failed), log + DownLog(failed);
      if failed >= 9 { Back(9, goal, trace); }
      if failed >= 8 { Back(8, goal, trace); }
      if failed >= 7 { Back(7, goal, trace); }
      if failed >= 6 { Back(6, goal, trace); }
      if failed >= 5 { Back(5, goal, trace); }
      if failed >= 4 { Back(4, goal, trace); }
      if failed >= 3 { Back(3, goal, trace); }
      if failed >= 2 { Back(2, goal, trace); }
      if failed >= 1 { Back(1, goal, trace); }
      NothingLeft(w, log);
    }

    /** A failed start-up. */
    method Fail(k: nat, env: Env, ghost w0: World, ghost log0: seq<Action>) returns (failed: nat)
      requires Stuck(k, env, w0, log0)
      modifies this
      ensures failed == k < STEPS && FailsAt(w0, k, env) && w == AfterInit(w0, env, k)
      ensures log == log0 + UpLog(k) + DownLog(k)
    {
      hide Downs, DownLog, Ups, UpLog, AllUp, Succeeds;
      Unwind(k);
      return k;
    }

    /** kdal_core_init: the number of the step that failed, or STEPS. */
    method CoreInit(env: Env) returns (failed: nat)
      modifies this
      ensures if failed == STEPS then AllUp(old(w), STEPS, env) else FailsAt(old(w), failed, env)
      ensures w == AfterInit(old(w), env, failed)
      ensures log == old(log) + UpLog(failed) + if failed < STEPS then DownLog(failed) else []
    {
      hide Down, Downs, DownLog, Up, Ups, UpLog, Succeeds, AllUp, FailsAt, AfterInit, Climbed, Stuck;
      ghost var w0, log0 := w, log;
      StartClimb(env);
      var ok := Try(0, env, w0, log0);
      if !ok { failed := Fail(0, env, w0, log0); return; }
      ok := Try(1, env, w0, log0);
      if !ok { failed := Fail(1, env, w0, log0); return; }
      ok := Try(2, env, w0, log0);
      if !ok { failed := Fail(2, env, w0, log0); return; }
      ok := Try(3, env, w0, log0);
      if !ok { failed := Fail(3, env, w0, log0); return; }
      ok := Try(4, env, w0, log0);
      if !ok { failed := Fail(4, env, w0, log0); return; }
      ok := Try(5, env, w0, log0);
      if !ok { failed := Fail(5, env, w0, log0); return; }
      ok := Try(6, env, w0, log0);
      if !ok { failed := Fail(6, env, w0, log0); return; }
      ok := Try(7, env, w0, log0);
      if !ok { failed := Fail(7, env, w0, log0); return; }
      ok := Try(8, env, w0, log0);
      if !ok { failed := Fail(8, env, w0, log0); return; }
      ok := Try(9, env, w0, log0);
      if !ok { failed := Fail(9, env, w0, log0); return; }
      EndClimb(env, w0, log0);
      return STEPS;
    }

    lemma StartClimb(env: Env)
      ensures Climbed(0, env, w, log)
    {
      NothingDone(w, log, env);
    }

    lemma EndClimb(env: Env, w0: World, log0: seq<Action>)
      requires Climbed(STEPS, env, w0, log0)
      ensures AllUp(w0, STEPS, env) && w == AfterInit(w0, env, STEPS) && log == log0 + UpLog(STEPS) + []
    {
      hide Ups, UpLog, AllUp;
      AllDone(w0, log0, env);
    }

    /** kdal_core_exit. */
    method CoreExit()
      modifies this
      ensures w == AfterExit(old(w)) && log == old(log) + DownLog(STEPS)
    {
      hide Down, Downs, DownLog;
      ghost var goal, trace := Downs(w, STEPS), log + DownLog(STEPS);
      Back(10, goal, trace);
      Back(9, goal, trace);
      Back(8, goal, trace);
      Back(7, goal, trace);
      Back(6, goal, trace);
      Back(5, goal, trace);
      Back(4, goal, trace);
      Back(3, goal, trace);
      Back(2, goal, trace);
      Back(1, goal, trace);
      NothingLeft(w, log);
      w := w.(events := []);
    }
  }

  function AfterInit(w: World, env: Env, failed: nat): World {
    if failed >= STEPS then Ups(w, STEPS, env) else Downs(Ups(w, failed + 1, env), failed)
  }

  function AfterExit(w: World): World {
    Downs(w, STEPS).(events := [])
  }

  lemma NothingLeft(w: World, log: seq<Action>)
    ensures Downs(w, 0) == w && log + DownLog(0) == log
  {
  }

  lemma NothingDone(w: World, log: seq<Action>, env: Env)
    ensures Ups(w, 0, env) == w && AllUp(w, 0, env) && log + UpLog(0) == log
  {
  }

  lemma AllDone(w: World, log: seq<Action>, env: Env)
    ensures AfterInit(w, env, STEPS) == Ups(w, STEPS, env) && log + UpLog(STEPS) + [] == log + UpLog(STEPS)
  {
    hide Ups, UpLog;
  }

  // ===== what the unwinding restores =====

  /** Everything but the event log. */
  function Core(w: World): World {
    w.(events := [])
  }

  /** The state of a module not loaded: nothing of its own is up. What others have put on
      the lists is arbitrary. */
  predicate Unloaded(w: World) {
    !w.chardev && !w.debugfs && !w.glue && w.scanned == []
  }

  /** What step `k` owns is not up yet. */
  predicate Idle(w: World, k: nat) {
    && (k == 0 ==> !w.chardev) && (k == 1 ==> !w.debugfs) && (k == 3 ==> !w.glue)
    && (k == SCAN ==> w.scanned == [])
  }

  /** Registering an object and unregistering it gives the list back. */
  lemma RegisterUndone(q: seq<Obj>, o: Obj)
    requires RegisterCode(q, o, true) == Ok
    ensures AfterUnregister(q + [o], o) == q
  {
    forall j | 0 <= j < |q|
      ensures q[j] != o
    {
      assert !Matches(q[j], o.name);
    }
    RemoveAt(q + [o], |q|, o);
    assert (q + [o])[..|q|] + (q + [o])[|q|+1..] == q;
  }

  predicate AllNew(devices: seq<Obj>, added: seq<Obj>) {
    && (forall j :: 0 <= j < |added| ==> added[j] !in devices)
    && (forall i, j :: 0 <= i < j < |added| ==> added[i] != added[j])
  }

  /** The entries the scan adds are new and different from each other. */
  lemma {:induction false} ScannedAreNew(devices: seq<Obj>, nodes: seq<DtNode>)
    ensures AllNew(devices, Scanned(devices, nodes).0)
    decreases |nodes|
  {
    hide RegisterCode;
    if nodes != [] && !Stops(nodes[0]) {
      if Added(devices, nodes[0]) {
        var e := nodes[0].entry;
        ScannedAreNew(devices + [e], nodes[1..]);
        NewNameIsNew(devices, e);
        AllNewCons(devices, e, Scanned(devices + [e], nodes[1..]).0);
      } else {
        ScannedAreNew(devices, nodes[1..]);
      }
    }
  }

  lemma AllNewCons(devices: seq<Obj>, e: Obj, rest: seq<Obj>)
    requires e !in devices && AllNew(devices + [e], rest)
    ensures AllNew(devices, [e] + rest)
  {
    forall j | 0 <= j < |rest|
      ensures rest[j] !in devices && rest[j] != e
    {
      assert (devices + [e])[|devices|] == e;
      assert forall d :: d in devices ==> d in devices + [e];
    }
  }

  lemma NewNameIsNew(q: seq<Obj>, o: Obj)
    requires RegisterCode(q, o, true) == Ok
    ensures o !in q
  {
    forall j | 0 <= j < |q|
      ensures q[j] != o
    {
      assert !Matches(q[j], o.name);
    }
  }

  /** Cleaning up takes out exactly the entries put in. */
  lemma {:induction false} CleanupUndoes(devices: seq<Obj>, added: seq<Obj>)
    requires AllNew(devices, added)
    ensures Cleanup(devices + added, added) == devices
    decreases |added|
  {
    var q := devices + added;
    if added == [] {
      assert q == devices;
    } else {
      RemoveAt(q, |devices|, added[0]);
      assert q[..|devices|] + q[|devices|+1..] == devices + added[1..];
      CleanupUndoes(devices, added[1..]);
    }
  }

  /** A step other than the scan changes nothing when it fails. */
  lemma FailedStepChangesNothing(w: World, k: nat, env: Env)
    requires !Succeeds(w, k, env) && k != SCAN
    ensures Up(w, k, env) == w
  {
  }

  /** The exit function of a step takes back what its init function did. */
  lemma ExitUndoesStep(w: World, k: nat, env: Env)
    requires k < STEPS && Idle(w, k) && (Succeeds(w, k, env) || k == SCAN)
    ensures Core(Down(Up(w, k, env), k)) == Core(w)
  {
    hide FindIn, RegisterCode, AfterUnregister, Cleanup, Scanned;
    if k == 2 {
      RegisterUndone(w.backends, QEMU);
    } else if k == 4 {
      RegisterUndone(w.backends, PLATDEV);
    } else if k == SCAN {
      var added := Scanned(w.devices, env.nodes).0;
      ScannedAreNew(w.devices, env.nodes);
      CleanupUndoes(w.devices, added);
      assert [] + added == added;
    } else if k > SCAN {
      RegisterUndone(w.drivers, DriverObj(k - 6));
      RegisterUndone(w.devices, DeviceObj(k - 6));
      var dev := DeviceObj(k - 6);
      assert w.bound[dev := DriverObj(k - 6)] - {dev} == w.bound;
    }
  }

  /** Climbing leaves the later steps alone. */
  lemma {:induction false} LaterStepsIdle(w: World, k: nat, j: nat, env: Env)
    requires Unloaded(w) && k <= j < STEPS
    ensures Idle(Ups(w, k, env), j)
    decreases k
  {
    hide Succeeds, DriverUp, Scanned;
    if k > 0 {
      LaterStepsIdle(w, k - 1, j, env);
      UpKeepsIdle(Ups(w, k - 1, env), k - 1, j, env);
    }
  }

  lemma UpKeepsIdle(w: World, k: nat, j: nat, env: Env)
    requires k < j && Idle(w, j)
    ensures Idle(Up(w, k, env), j)
  {
  }

  /** Unwinding does not look at the event log. */
  lemma {:induction false} DownsOfCore(a: World, b: World, k: nat)
    requires Core(a) == Core(b)
    ensures Core(Downs(a, k)) == Core(Downs(b, k))
    decreases k
  {
    hide Down;
    if k > 0 {
      DownOfCore(a, b, k - 1);
      DownsOfCore(Down(a, k - 1), Down(b, k - 1), k - 1);
    }
  }

  lemma DownOfCore(a: World, b: World, k: nat)
    requires Core(a) == Core(b)
    ensures Core(Down(a, k)) == Core(Down(b, k))
  {
    assert a == b.(events := a.events);
  }

  /** Unwinding after `k` steps gives back what there was before them. */
  lemma {:induction false} DownsUndoUps(w: World, k: nat, env: Env)
    requires Unloaded(w) && k <= STEPS && AllUp(w, k, env)
    ensures Core(Downs(Ups(w, k, env), k)) == Core(w)
  {
    hide Up, Down, Succeeds, Idle;
    if k > 0 {
      var x := Ups(w, k - 1, env);
      LaterStepsIdle(w, k - 1, k - 1, env);
      ExitUndoesStep(x, k - 1, env);
      DownsOfCore(Down(Up(x, k - 1, env), k - 1), x, k - 1);
      DownsUndoUps(w, k - 1, env);
    }
  }

  // ===== the rollback theorem =====

  /** The walk runs out of memory at node `j`, after node `i`, which can be made a device. */
  ghost predicate AddsThenStops(devices: seq<Obj>, nodes: seq<DtNode>) {
    exists i, j :: 0 <= i < j < |nodes| && Added(devices, nodes[i]) && Stops(nodes[j])
                   && forall m :: 0 <= m < j ==> !Stops(nodes[m])
  }

  /** A scan that does not get through adds something exactly in that case. */
  lemma {:induction false} FailedScanAdds(devices: seq<Obj>, nodes: seq<DtNode>)
    requires !Scanned(devices, nodes).1
    ensures Scanned(devices, nodes).0 != [] <==> AddsThenStops(devices, nodes)
    decreases |nodes|
  {
    hide RegisterCode;
    if Stops(nodes[0]) {
    } else if Added(devices, nodes[0]) {
      var j := StopOf(devices + [nodes[0].entry], nodes[1..]);
      assert Stops(nodes[j+1]);
    } else {
      FailedScanAdds(devices, nodes[1..]);
      assert forall m :: 0 <= m < |nodes| - 1 ==> nodes[1..][m] == nodes[m+1];
      if AddsThenStops(devices, nodes[1..]) {
        var i, j :| 0 <= i < j < |nodes| - 1 && Added(devices, nodes[1..][i]) && Stops(nodes[1..][j])
                    && forall m :: 0 <= m < j ==> !Stops(nodes[1..][m]);
        assert Added(devices, nodes[i+1]) && Stops(nodes[j+1]);
        assert forall m :: 0 < m < j + 1 ==> nodes[m] == nodes[1..][m-1];
      }
      if AddsThenStops(devices, nodes) {
        var i, j :| 0 <= i < j < |nodes| && Added(devices, nodes[i]) && Stops(nodes[j])
                    && forall m :: 0 <= m < j ==> !Stops(nodes[m]);
        assert Added(devices, nodes[1..][i-1]) && Stops(nodes[1..][j-1]);
      }
    }
  }

  /** The node at which a scan gives up. */
  lemma {:induction false} StopOf(devices: seq<Obj>, nodes: seq<DtNode>) returns (j: nat)
    requires !Scanned(devices, nodes).1
    ensures j < |nodes| && Stops(nodes[j]) && forall m :: 0 <= m < j ==> !Stops(nodes[m])
    decreases |nodes|
  {
    if Stops(nodes[0]) {
      j := 0;
    } else {
      var rest := StopOf(if Added(devices, nodes[0]) then devices + [nodes[0].entry] else devices, nodes[1..]);
      j := rest + 1;
      assert forall m :: 0 < m < j ==> nodes[m] == nodes[1..][m-1];
    }
  }

  lemma {:induction false} FirstStepsLeaveDevices(w: World, k: nat, env: Env)
    requires k <= SCAN
    ensures Ups(w, k, env).devices == w.devices && Ups(w, k, env).scanned == w.scanned
  {
    if k > 0 {
      FirstStepsLeaveDevices(w, k - 1, env);
    }
  }

  lemma {:induction false} FirstExitsLeaveDevices(w: World, k: nat)
    requires k <= SCAN
    ensures Downs(w, k).devices == w.devices
    decreases k
  {
    if k > 0 {
      FirstExitsLeaveDevices(Down(w, k - 1), k - 1);
    }
  }

  /** A start-up that fails gives back the lists, the bindings and everything else it
      touched but the event log, unless it failed in a device-tree scan that ran out of
      memory after a node it could add. */
  lemma FailedInitRollsBackIff(w: World, failed: nat, env: Env)
    requires Unloaded(w) && FailsAt(w, failed, env)
    ensures Core(AfterInit(w, env, failed)) == Core(w)
       <==> !(failed == SCAN && AddsThenStops(w.devices, env.nodes))
  {
    hide Up, Down, Succeeds, Downs, AddsThenStops, AllUp, Unloaded, Scanned;
    var x := Ups(w, failed, env);
    DownsUndoUps(w, failed, env);
    assert Ups(w, failed + 1, env) == Up(x, failed, env);
    if failed != SCAN {
      FailedStepChangesNothing(x, failed, env);
    } else {
      FirstStepsLeaveDevices(w, SCAN, env);
      FailedScan(x, w, env);
      var added := Scanned(w.devices, env.nodes).0;
      if added == [] {
        assert x.devices + [] == x.devices && x.scanned + [] == x.scanned;
      } else {
        FirstExitsLeaveDevices(Up(x, SCAN, env), SCAN);
        assert |w.devices + added| > |w.devices|;
      }
    }
  }

  lemma FailedScan(x: World, w: World, env: Env)
    requires x.devices == w.devices && !Succeeds(x, SCAN, env)
    ensures var added := Scanned(w.devices, env.nodes).0;
            && Up(x, SCAN, env) == x.(devices := x.devices + added, scanned := x.scanned + added)
            && (added != [] <==> AddsThenStops(w.devices, env.nodes))
  {
    FailedScanAdds(w.devices, env.nodes);
  }

  /** Start-up and shut-down leave everything as it was, with no event pending. */
  lemma {:induction false} InitThenExit(w: World, env: Env)
    requires Unloaded(w) && AllUp(w, STEPS, env)
    ensures AfterExit(AfterInit(w, env, STEPS)) == Core(w)
  {
    hide AllUp, Ups, Downs, Unloaded;
    DownsUndoUps(w, STEPS, env);
  }

  /** At most one step can be the one that fails. */
  lemma OneFailure(w: World, i: nat, j: nat, env: Env)
    requires FailsAt(w, i, env) && (FailsAt(w, j, env) || (j == STEPS && AllUp(w, j, env)))
    ensures i == j
  {
    hide Ups, Succeeds, AllUp;
    if i < j {
      AllUpPrefix(w, i + 1, j, env);
      AllUpStep(w, i, env);
    } else if j < i {
      AllUpPrefix(w, j + 1, i, env);
      AllUpStep(w, j, env);
    }
  }

  lemma AllUpStep(w: World, i: nat, env: Env)
    requires AllUp(w, i + 1, env)
    ensures Succeeds(Ups(w, i, env), i, env)
  {
    hide Ups, Succeeds;
  }

  lemma {:induction false} AllUpPrefix(w: World, i: nat, j: nat, env: Env)
    requires i <= j && AllUp(w, j, env)
    ensures AllUp(w, i, env)
  {
    if i < j {
      AllUpPrefix(w, i, j - 1, env);
    }
  }

  // ===== the exceptional case can happen =====

  const BARE := World(false, false, false, [], [], [], map[], [], [])
  const FIRST := Obj(11, Some("first"))

  /** Two nodes, with memory for the entry of the first only. */
  const SHORT := Env(true, true, true,
                     [DtNode(FIRST, true, true, true), DtNode(Obj(12, Some("second")), true, false, true)],
                     (i, w) => true)

  /** Memory runs out at the second node: the start-up fails in the scan, unwinds, and
      leaves the first entry registered. */
  lemma RollbackCanFail()
    ensures Unloaded(BARE) && FailsAt(BARE, SCAN, SHORT) && AddsThenStops(BARE.devices, SHORT.nodes)
    ensures Core(AfterInit(BARE, SHORT, SCAN)) != Core(BARE)
  {
    hide AfterInit;
    var nodes := SHORT.nodes;
    assert Added([], nodes[0]) && Stops(nodes[1]) && !Stops(nodes[0]);
    assert AddsThenStops(BARE.devices, nodes);
    assert Scanned([FIRST], nodes[1..]) == ([], false);
    assert !Scanned([], nodes).1;
    FiveUp();
    FailedInitRollsBackIff(BARE, SCAN, SHORT);
  }

  lemma FiveUp()
    ensures AllUp(BARE, SCAN, SHORT) && Ups(BARE, SCAN, SHORT).devices == []
  {
    hide Scanned, DriverStarts, DriverUp;
    var w2 := BARE.(chardev := true, debugfs := true);
    assert Ups(BARE, 0, SHORT) == BARE && AllUp(BARE, 0, SHORT);
    assert Ups(BARE, 1, SHORT) == BARE.(chardev := true) && AllUp(BARE, 1, SHORT);
    assert Ups(BARE, 2, SHORT) == w2 && AllUp(BARE, 2, SHORT);
    assert RegisterCode([], QEMU, true) == Ok;
    assert Ups(BARE, 3, SHORT) == w2.(backends := [QEMU]) && AllUp(BARE, 3, SHORT);
    assert Ups(BARE, 4, SHORT) == w2.(backends := [QEMU], glue := true) && AllUp(BARE, 4, SHORT);
    assert RegisterCode([QEMU], PLATDEV, true) == Ok by {
      assert [QEMU][1..] == [];
    }
    assert Ups(BARE, 5, SHORT) == w2.(backends := [QEMU] + [PLATDEV], glue := true) && AllUp(BARE, 5, SHORT);
  }
}
