/** When start-up succeeds, and what it leaves (src/core/kdal.c and the init functions it
    calls), said by names and fields. */
module StartUp {
  import opened Wrappers
  import opened Registry
  import opened CoreInit
  import L = EventLog

  const DRIVERS: seq<Obj> := [
    Obj(3, Some("kdal-uart")), Obj(4, Some("kdal-i2c")), Obj(5, Some("kdal-spi")), Obj(6, Some("kdal-gpu"))]

  const DEVICES: seq<Obj> := [Obj(7, Some("uart0")), Obj(8, Some("i2c0")), Obj(9, Some("spi0")), Obj(10, Some("gpu0"))]

  const ANNOUNCED: seq<L.Event> := [
    L.Event(L.DeviceAdded, "uart0", 0), L.Event(L.DeviceAdded, "i2c0", 0),
    L.Event(L.DeviceAdded, "spi0", 0), L.Event(L.DeviceAdded, "gpu0", 0)]

  // ===== the scan =====

  /** The entries a scan with enough memory adds: those of the nodes that can be read and
      mapped, with a name that neither a device nor an earlier entry has. */
  ghost function Admitted(devices: seq<Obj>, nodes: seq<DtNode>): seq<Obj> {
    if nodes == [] then []
    else
      var before, n := Admitted(devices, nodes[..|nodes|-1]), nodes[|nodes|-1];
      if n.readable && n.mapped && n.entry.name.Some? && NameFree(devices + before, n.entry.name.value) then before + [n.entry]
      else before
  }

  /** Memory is there for every node that can be read. */
  predicate EnoughMemory(nodes: seq<DtNode>) {
    forall n :: n in nodes && n.readable ==> n.memory
  }

  lemma {:induction false} ScannedAppend(devices: seq<Obj>, a: seq<DtNode>, b: seq<DtNode>)
    ensures Scanned(devices, a + b)
         == var r := Scanned(devices, a);
            if r.1 then (r.0 + Scanned(devices + r.0, b).0, Scanned(devices + r.0, b).1) else r
    decreases |a|
  {
    hide RegisterCode;
    if a == [] {
      var more := Scanned(devices, b).0;
      assert a + b == b && devices + [] == devices && [] + more == more;
    } else {
      assert (a + b)[1..] == a[1..] + b;
      if Added(devices, a[0]) {
        var e := a[0].entry;
        ScannedAppend(devices + [e], a[1..], b);
        var r := Scanned(devices + [e], a[1..]).0;
        assert devices + [e] + r == devices + ([e] + r);
        var more := Scanned(devices + [e] + r, b).0;
        assert [e] + (r + more) == ([e] + r) + more;
      } else {
        ScannedAppend(devices, a[1..], b);
      }
    }
  }

  /** The scan gets through exactly when there is memory, and then adds those entries. */
  lemma {:induction false} ScanIs(devices: seq<Obj>, nodes: seq<DtNode>)
    ensures Scanned(devices, nodes).1 <==> EnoughMemory(nodes)
    ensures EnoughMemory(nodes) ==> Scanned(devices, nodes).0 == Admitted(devices, nodes)
    decreases |nodes|
  {
    hide RegisterCode, NameFree;
    if nodes != [] {
      var init, n := nodes[..|nodes|-1], nodes[|nodes|-1];
      assert nodes == init + [n];
      ScanIs(devices, init);
      ScannedAppend(devices, init, [n]);
      var r := Scanned(devices, init).0;
      RegisterIff(devices + r, n.entry, true);
      assert [n][1..] == [];
      assert r + [] == r;
    }
  }

  // ===== which step can go through, and what it leaves =====

  /** The first of the named objects, and the bindings between them. */
  function Bound(b: map<Obj, Obj>, n: nat): map<Obj, Obj>
    requires n <= 4
  {
    if n == 0 then b else Bound(b, n - 1)[DEVICES[n-1] := DRIVERS[n-1]]
  }

  /** The log keeps the last 256 events. */
  function Latest(q: seq<L.Event>): seq<L.Event> {
    if |q| <= 256 then q else q[|q| - 256..]
  }

  /** The world with `n` example drivers up. */
  ghost function Loaded(w: World, env: Env, n: nat): World
    requires n <= 4
  {
    var added := Admitted(w.devices, env.nodes);
    World(true, true, true, w.backends + [QEMU, PLATDEV], w.drivers + DRIVERS[..n], w.devices + added + DEVICES[..n],
          Bound(w.bound, n), w.scanned + added, Latest(w.events + ANNOUNCED[..n]))
  }

  /** What the probe of the i-th driver finds: its driver and its device registered and bound. */
  ghost function Probed(w: World, env: Env, i: nat): World
    requires i < 4
  {
    Loaded(w, env, i + 1).(events := Latest(w.events + ANNOUNCED[..i]))
  }

  ghost predicate DriverClear(w: World, env: Env, i: nat)
    requires i < 4
  {
    && NameFree(w.drivers, DRIVERS[i].name.value)
    && NameFree(w.devices + Admitted(w.devices, env.nodes), DEVICES[i].name.value)
    && DEVICES[i] !in w.bound
    && env.probes(i, Probed(w, env, i))
  }

  /** Nothing stands in the way of step `k`. */
  ghost predicate Clear(w: World, env: Env, k: nat)
    requires k < 10
  {
    match k
    case 0 => env.chardev
    case 1 => env.debugfs
    case 2 => NameFree(w.backends, "qemu-virt")
    case 3 => env.glue
    case 4 => NameFree(w.backends, "generic-platdev")
    case 5 => EnoughMemory(env.nodes)
    case _ => DriverClear(w, env, k - 6)
  }

  /** The world with the first `k` steps done. */
  ghost function Reached(w: World, env: Env, k: nat): World
    requires k <= 10
  {
    if k >= 6 then Loaded(w, env, k - 6)
    else
      w.(chardev := k > 0, debugfs := k > 1, glue := k > 3,
         backends := w.backends + if k > 4 then [QEMU, PLATDEV] else if k > 2 then [QEMU] else [])
  }

  // ===== one step =====

  lemma NamesDiffer(i: nat, j: nat)
    requires i < j < 4
    ensures DRIVERS[i].name != DRIVERS[j].name && DEVICES[i].name != DEVICES[j].name && DEVICES[i] != DEVICES[j]
  {
    var d, v := ["kdal-uart", "kdal-i2c", "kdal-spi", "kdal-gpu"], ["uart0", "i2c0", "spi0", "gpu0"];
    assert d[i][5] != d[j][5];
    assert v[i][0] != v[j][0];
  }

  lemma ObjectsAre(i: nat)
    requires i < 4
    ensures DriverObj(i) == DRIVERS[i] && DeviceObj(i) == DEVICES[i]
    ensures ANNOUNCED[i] == L.Event(L.DeviceAdded, DeviceName(i), 0)
  {
  }

  /** A name is free behind the first `i` of ours exactly when it is free before them. */
  lemma FreeBehind(q: seq<Obj>, ours: seq<Obj>, i: nat)
    requires i < 4 && (ours == DRIVERS || ours == DEVICES)
    ensures NameFree(q + ours[..i], ours[i].name.value) <==> NameFree(q, ours[i].name.value)
  {
    forall j: nat | j < i
      ensures ours[j].name != ours[i].name
    {
      NamesDiffer(j, i);
    }
    assert forall o :: o in q + ours[..i] <==> o in q || o in ours[..i];
  }

  lemma {:induction false} BoundOurs(b: map<Obj, Obj>, n: nat, i: nat)
    requires n <= i < 4
    ensures DEVICES[i] in Bound(b, n) <==> DEVICES[i] in b
    decreases n
  {
    hide DEVICES, DRIVERS;
    if n > 0 {
      NamesDiffer(n - 1, i);
      BoundOurs(b, n - 1, i);
    }
  }

  lemma LatestMore(q: seq<L.Event>, e: L.Event)
    ensures L.AfterEmit(Latest(q), e) == Latest(q + [e])
  {
  }

  lemma BackendsStep(w: World, env: Env, k: nat)
    requires k == 2 || k == 4
    ensures Succeeds(Reached(w, env, k), k, env) <==> (if k == 2 then Clear(w, env, 2) else Clear(w, env, 4))
    ensures Succeeds(Reached(w, env, k), k, env) ==> Up(Reached(w, env, k), k, env) == Reached(w, env, k + 1)
  {
    hide NameFree;
    var x := Reached(w, env, k);
    RegisterIff(x.backends, if k == 2 then QEMU else PLATDEV, true);
    if k == 2 {
      assert w.backends + [] == w.backends;
    } else {
      PlatdevIsNew(w.backends);
      assert (w.backends + [QEMU]) + [PLATDEV] == w.backends + [QEMU, PLATDEV];
    }
  }

  lemma PlatdevIsNew(q: seq<Obj>)
    ensures NameFree(q + [QEMU], "generic-platdev") <==> NameFree(q, "generic-platdev")
  {
    assert "qemu-virt"[0] != "generic-platdev"[0];
    assert forall o :: o in q + [QEMU] <==> o in q || o == QEMU;
  }

  lemma FlagStep(w: World, env: Env, k: nat)
    requires (k == 0 || k == 1 || k == 3) && Unloaded(w)
    ensures Succeeds(Reached(w, env, k), k, env) <==> Clear(w, env, k)
    ensures Succeeds(Reached(w, env, k), k, env) ==> Up(Reached(w, env, k), k, env) == Reached(w, env, k + 1)
  {
    hide RegisterCode, NameFree, Admitted;
  }

  lemma ScanStep(w: World, env: Env)
    requires |w.events| <= 256
    ensures Succeeds(Reached(w, env, 5), 5, env) <==> Clear(w, env, 5)
    ensures Succeeds(Reached(w, env, 5), 5, env) ==> Up(Reached(w, env, 5), 5, env) == Reached(w, env, 6)
  {
    hide Scanned, Admitted, EnoughMemory;
    ScanIs(w.devices, env.nodes);
    var added := Admitted(w.devices, env.nodes);
    assert DRIVERS[..0] == [] && DEVICES[..0] == [] && ANNOUNCED[..0] == [];
    assert w.drivers + [] == w.drivers && w.devices + added + [] == w.devices + added && w.events + [] == w.events;
  }

  lemma BackendIsThere(w: World)
    ensures FindIn(w.backends + [QEMU, PLATDEV], QEMU.name).Some?
  {
    hide NameFree;
    var q := w.backends + [QEMU, PLATDEV];
    RegisterIff(q, QEMU, true);
    assert q[|w.backends|] == QEMU && QEMU in q;
    HeldIsNotFree(q, QEMU);
  }

  lemma HeldIsNotFree(q: seq<Obj>, o: Obj)
    requires o in q && o.name.Some?
    ensures !NameFree(q, o.name.value)
  {
  }

  lemma MoreOfOurs(i: nat)
    requires i < 4
    ensures DRIVERS[..i] + [DRIVERS[i]] == DRIVERS[..i+1] && DEVICES[..i] + [DEVICES[i]] == DEVICES[..i+1]
    ensures ANNOUNCED[..i] + [ANNOUNCED[i]] == ANNOUNCED[..i+1]
  {
  }

  lemma BoundIs(w: World, env: Env, i: nat)
    requires i < 4
    ensures DriverBound(Loaded(w, env, i), i) == Probed(w, env, i)
  {
    hide DRIVERS, DEVICES, ANNOUNCED, Admitted, DriverObj, DeviceObj;
    FourOfEach();
    ObjectsAre(i);
    MoreOfOurs(i);
    assert (w.drivers + DRIVERS[..i]) + [DRIVERS[i]] == w.drivers + DRIVERS[..i+1];
    var q := w.devices + Admitted(w.devices, env.nodes);
    assert (q + DEVICES[..i]) + [DEVICES[i]] == q + DEVICES[..i+1];
  }

  lemma DriverStep(w: World, env: Env, i: nat)
    requires i < 4
    ensures DriverStarts(Loaded(w, env, i), i, env) <==> DriverClear(w, env, i)
    ensures DriverUp(Loaded(w, env, i), i) == Loaded(w, env, i + 1)
  {
    hide DRIVERS, DEVICES, ANNOUNCED, Admitted, DriverObj, DeviceObj, NameFree, FindIn, RegisterCode, DriverBound;
    FourOfEach();
    var x := Loaded(w, env, i);
    ObjectsAre(i);
    MoreOfOurs(i);
    BackendIsThere(w);
    BoundIs(w, env, i);
    NamesAreThere(i);
    RegisterIff(x.drivers, DRIVERS[i], true);
    RegisterIff(x.devices, DEVICES[i], true);
    FreeBehind(w.drivers, DRIVERS, i);
    FreeBehind(w.devices + Admitted(w.devices, env.nodes), DEVICES, i);
    BoundOurs(w.bound, i, i);
    LatestMore(w.events + ANNOUNCED[..i], ANNOUNCED[i]);
    assert (w.events + ANNOUNCED[..i]) + [ANNOUNCED[i]] == w.events + ANNOUNCED[..i+1];
  }

  lemma NamesAreThere(i: nat)
    requires i < 4
    ensures DRIVERS[i].name.Some? && DEVICES[i].name.Some?
  {
  }

  lemma OneStep(w: World, env: Env, k: nat)
    requires k < 10 && Unloaded(w) && |w.events| <= 256
    ensures Succeeds(Reached(w, env, k), k, env) <==> Clear(w, env, k)
    ensures Succeeds(Reached(w, env, k), k, env) ==> Up(Reached(w, env, k), k, env) == Reached(w, env, k + 1)
  {
    hide DriverStarts, DriverUp, DriverClear, Scanned, NameFree, RegisterCode, EnoughMemory, Loaded, Unloaded;
    if k >= 6 {
      DriverStep(w, env, k - 6);
    } else if k == 5 {
      ScanStep(w, env);
    } else if k == 2 || k == 4 {
      BackendsStep(w, env, k);
    } else {
      FlagStep(w, env, k);
    }
  }

  // ===== start-up =====

  /** From a module that is not loaded, the first `k` steps go through exactly when nothing
      stands in the way of any of them, and they leave exactly that world. */
  lemma {:induction false} StepsGoThroughIff(w: World, env: Env, k: nat)
    requires k <= 10 && Unloaded(w) && |w.events| <= 256
    ensures AllUp(w, k, env) <==> forall j: nat :: j < k ==> Clear(w, env, j)
    ensures AllUp(w, k, env) ==> Ups(w, k, env) == Reached(w, env, k)
    decreases k
  {
    hide Up, Succeeds, Clear, Reached, Unloaded;
    if k > 0 {
      StepsGoThroughIff(w, env, k - 1);
      OneStep(w, env, k - 1);
    } else {
      NothingReached(w, env);
    }
  }

  lemma NothingReached(w: World, env: Env)
    requires Unloaded(w)
    ensures Reached(w, env, 0) == w
  {
    assert w.backends + [] == w.backends;
  }

  /** Start-up succeeds exactly when the calls into the kernel do, the names of the two
      backends, the four drivers and the four devices are free - those of the devices also
      among the entries the scan adds -, no device is bound, there is memory for the scan and
      the probes succeed. It then leaves the old lists followed by exactly these objects, in
      order, each device bound to its driver and announced. */
  lemma StartUpSucceedsIff(w: World, env: Env)
    requires Unloaded(w) && |w.events| <= 256
    ensures AllUp(w, STEPS, env) <==>
              && env.chardev && env.debugfs && env.glue && EnoughMemory(env.nodes)
              && NameFree(w.backends, "qemu-virt") && NameFree(w.backends, "generic-platdev")
              && forall i: nat :: i < 4 ==> DriverClear(w, env, i)
    ensures AllUp(w, STEPS, env) ==> AfterInit(w, env, STEPS) == Loaded(w, env, 4)
  {
    hide DriverClear, Loaded, Unloaded, NameFree, EnoughMemory, AllUp, Ups;
    StepsGoThroughIff(w, env, 10);
    if forall j: nat :: j < 10 ==> Clear(w, env, j) {
      assert Clear(w, env, 0) && Clear(w, env, 1) && Clear(w, env, 2) && Clear(w, env, 3) && Clear(w, env, 4) && Clear(w, env, 5);
      forall i: nat | i < 4
        ensures DriverClear(w, env, i)
      {
        assert Clear(w, env, i + 6);
      }
    }
  }

  /** The step that fails is the first one with something in its way. */
  lemma FirstObstacleFails(w: World, env: Env, k: nat)
    requires Unloaded(w) && |w.events| <= 256 && k < 10
    ensures FailsAt(w, k, env) <==> !Clear(w, env, k) && forall j: nat :: j < k ==> Clear(w, env, j)
  {
    hide Up, Succeeds, Clear, Reached, Unloaded, AllUp, Ups;
    StepsGoThroughIff(w, env, k);
    OneStep(w, env, k);
  }

  /** Every call succeeds, and no device-tree node is there. */
  const SMOOTH := Env(true, true, true, [], (i, w) => true)

  /** On an empty machine start-up succeeds and leaves our objects and nothing else. */
  lemma StartUpCanSucceed()
    ensures AllUp(BARE, STEPS, SMOOTH)
    ensures var w := AfterInit(BARE, SMOOTH, STEPS);
            && w.backends == [QEMU, PLATDEV] && w.drivers == DRIVERS && w.devices == DEVICES && w.events == ANNOUNCED
            && forall i: nat :: i < 4 ==> DEVICES[i] in w.bound && w.bound[DEVICES[i]] == DRIVERS[i]
  {
    hide AllUp, AfterInit, DRIVERS, DEVICES, ANNOUNCED;
    assert Admitted([], []) == [];
    SmoothIsClear();
    StartUpSucceedsIff(BARE, SMOOTH);
    FourOfEach();
    BindsAll();
  }

  lemma SmoothIsClear()
    ensures forall i: nat :: i < 4 ==> DriverClear(BARE, SMOOTH, i)
  {
    assert Admitted([], []) == [];
  }

  lemma FourOfEach()
    ensures |DRIVERS| == |DEVICES| == |ANNOUNCED| == 4
    ensures DRIVERS[..4] == DRIVERS && DEVICES[..4] == DEVICES && ANNOUNCED[..4] == ANNOUNCED
  {
  }

  lemma BindsAll()
    ensures forall i: nat :: i < 4 ==> DEVICES[i] in Bound(map[], 4) && Bound(map[], 4)[DEVICES[i]] == DRIVERS[i]
  {
    hide DRIVERS, DEVICES;
    FourOfEach();
    forall i: nat | i < 4
      ensures DEVICES[i] in Bound(map[], 4) && Bound(map[], 4)[DEVICES[i]] == DRIVERS[i]
    {
      BindsOne(i, 4);
    }
  }

  lemma {:induction false} BindsOne(i: nat, n: nat)
    requires i < n <= 4
    ensures DEVICES[i] in Bound(map[], n) && Bound(map[], n)[DEVICES[i]] == DRIVERS[i]
    decreases n
  {
    hide DRIVERS, DEVICES;
    if i < n - 1 {
      BindsOne(i, n - 1);
      NamesDiffer(i, n - 1);
    }
  }
}
