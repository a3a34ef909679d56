/** The registry of backends, drivers and devices (src/core/registry.c): three circular
    doubly linked lists of the same shape. */
module Registry {
  import opened Wrappers

  datatype Code = Ok | Exist | Inval

  /** An object: its address and its name, neither of which changes. */
  datatype Obj = Obj(id: nat, name: Option<string>)

  // ===== what a list stands for: the registered objects, oldest first =====

  /** kdal_name_match: a missing name matches nothing. */
  predicate Matches(o: Obj, name: Option<string>) {
    o.name.Some? && o.name == name
  }

  /** Position of the first object of that name, or the length. */
  function IndexOf(q: seq<Obj>, name: Option<string>): (i: nat)
    ensures i <= |q| && (i < |q| ==> Matches(q[i], name))
    ensures forall j :: 0 <= j < i ==> !Matches(q[j], name)
  {
    if q == [] || Matches(q[0], name) then 0 else 1 + IndexOf(q[1..], name)
  }

  /** `ready` says that the object has a name and, where needed, operations. */
  function RegisterCode(q: seq<Obj>, o: Obj, ready: bool): Code {
    if !ready || o.name.None? then Inval else if IndexOf(q, o.name) < |q| then Exist else Ok
  }

  function AfterRegister(q: seq<Obj>, o: Obj, ready: bool): seq<Obj> {
    if RegisterCode(q, o, ready).Ok? then q + [o] else q
  }

  function AfterUnregister(q: seq<Obj>, o: Obj): seq<Obj> {
    if q == [] then [] else if q[0] == o then q[1..] else [q[0]] + AfterUnregister(q[1..], o)
  }

  function FindIn(q: seq<Obj>, name: Option<string>): Option<Obj> {
    var i := IndexOf(q, name);
    if i < |q| then Some(q[i]) else None
  }

  /** No object of the list has the name. */
  ghost predicate NameFree(q: seq<Obj>, name: string) {
    forall o :: o in q ==> o.name != Some(name)
  }

  /** A registration is accepted exactly when the object is ready and has a name that is free,
      and refused as existing exactly when the name is held. */
  lemma RegisterIff(q: seq<Obj>, o: Obj, ready: bool)
    ensures RegisterCode(q, o, ready) == Ok <==> ready && o.name.Some? && NameFree(q, o.name.value)
    ensures RegisterCode(q, o, ready) == Exist <==> ready && o.name.Some? && !NameFree(q, o.name.value)
    ensures AfterRegister(q, o, ready) == if ready && o.name.Some? && NameFree(q, o.name.value) then q + [o] else q
  {
    if o.name.Some? && IndexOf(q, o.name) < |q| {
      assert q[IndexOf(q, o.name)] in q;
    }
  }

  // ===== the intrusive list =====

  /** A list node embedded in its object; the links of an object never registered are null. */
  class Node {
    const obj: Obj
    var prev: Node?
    var next: Node?

    constructor (o: Obj)
      ensures obj == o && prev == null && next == null
    {
      obj, prev, next := o, null, null;
    }
  }

  function Objs(ns: seq<Node>): (q: seq<Obj>)
    ensures |q| == |ns|
    ensures forall i :: 0 <= i < |q| ==> q[i] == ns[i].obj
  {
    seq(|ns|, i requires 0 <= i < |ns| => ns[i].obj)
  }

  ghost predicate NamesDistinct(ns: seq<Node>) {
    && (forall i, j :: 0 <= i < j < |ns| ==> ns[i] != ns[j] && ns[i].obj.name != ns[j].obj.name)
    && (forall i :: 0 <= i < |ns| ==> ns[i].obj.name.Some?)
  }

  /** Taking the k-th node out of a list. */
  lemma DropAt(ns: seq<Node>, k: nat)
    requires NamesDistinct(ns) && k < |ns|
    ensures var r := ns[..k] + ns[k+1..];
            && NamesDistinct(r)
            && (forall f :: f in r <==> f in ns && f != ns[k])
            && Objs(r) == AfterUnregister(Objs(ns), ns[k].obj)
  {
    var r := ns[..k] + ns[k+1..];
    assert forall i :: 0 <= i < |r| ==> r[i] == ns[if i < k then i else i + 1];
    forall f | f in ns && f != ns[k]
      ensures f in r
    {
      var i :| 0 <= i < |ns| && ns[i] == f;
      assert f == r[if i < k then i else i - 1];
    }
    RemoveAt(Objs(ns), k, ns[k].obj);
    assert Objs(r) == Objs(ns)[..k] + Objs(ns)[k+1..];
  }

  lemma AppendNode(ns: seq<Node>, e: Node)
    requires NamesDistinct(ns) && e.obj.name.Some? && IndexOf(Objs(ns), e.obj.name) == |ns|
    ensures NamesDistinct(ns + [e]) && e !in ns
    ensures Objs(ns + [e]) == Objs(ns) + [e.obj]
  {
    forall i | 0 <= i < |ns|
      ensures ns[i].obj.name != e.obj.name && ns[i] != e
    {
      assert !Matches(Objs(ns)[i], e.obj.name);
    }
    assert forall i :: 0 <= i < |ns| ==> (ns + [e])[i] == ns[i];
  }

  class List {
    const head: Node
    ghost var items: seq<Node>
    /** Nodes that register has initialised. */
    ghost var seen: set<Node>

    /** The items form one ring with the head, forwards and backwards. */
    ghost predicate Linked()
      reads this, head, seen
    {
      && (forall i :: 0 <= i < |items| ==> items[i] in seen)
      && (if items == [] then head.next == head && head.prev == head
          else && head.next == items[0] && items[0].prev == head
               && head.prev == items[|items|-1] && items[|items|-1].next == head)
      && (forall i, j :: 0 <= i < |items| && j == i + 1 && j < |items| ==>
            items[i].next == items[j] && items[j].prev == items[i])
    }

    ghost predicate Valid()
      reads this, head, seen
    {
      && head !in seen
      && Linked()
      && NamesDistinct(items)
      && (forall e :: e in seen && e !in items ==> e.next == e && e.prev == e)
      && (forall e, f :: e in seen && f in seen && e.obj == f.obj ==> e == f)
    }

    ghost function Abs(): (q: seq<Obj>)
      reads this
      ensures |q| == |items|
    {
      Objs(items)
    }

    constructor ()
      ensures Valid() && items == [] && seen == {}
    {
      head := new Node(Obj(0, None));
      items, seen := [], {};
      new;
      head.next, head.prev := head, head;
    }

    /** The walk shared by register and find: the first node of that name, or the head. */
    method Walk(name: Option<string>) returns (node: Node, ghost k: nat)
      requires Valid()
      ensures k == IndexOf(Abs(), name)
      ensures node == var i := IndexOf(Abs(), name); if i < |items| then items[i] else head
    {
      var iter := head.next;
      k := 0;
      assert forall i :: 0 <= i < |items| ==> items[i] != head;
      while iter != head
        invariant k <= |items| && iter == if k < |items| then items[k] else head
        invariant IndexOf(Abs(), name) == k + IndexOf(Abs()[k..], name)
        decreases |items| - k
      {
        assert k < |items| && iter == items[k];
        assert Abs()[k] == iter.obj;
        if Matches(iter.obj, name) {
          node := iter;
          return;
        }
        assert Abs()[k..][1..] == Abs()[k+1..];
        assert k + 1 < |items| ==> items[k].next == items[k+1];
        iter := iter.next;
        k := k + 1;
      }
      node := head;
    }

    method Find(name: Option<string>) returns (r: Option<Obj>)
      requires Valid()
      ensures r == FindIn(Abs(), name)
    {
      var node; ghost var k;
      node, k := Walk(name);
      assert k < |items| ==> node in seen;
      r := if node != head then Some(node.obj) else None;
    }

    /** What the walk ends at tells whether the name is held. */
    lemma HeadIffAbsent(name: Option<string>, node: Node)
      requires Valid()
      requires node == var i := IndexOf(Abs(), name); if i < |items| then items[i] else head
      ensures node == head <==> IndexOf(Abs(), name) == |items|
      ensures node != head ==> node in items && node in seen && node.obj.name == name
    {
    }

    /** kdal_register_backend, _driver and _device. */
    method Register(e: Node, ready: bool) returns (code: Code)
      requires Valid() && e != head && (e in seen || forall f :: f in seen ==> f.obj != e.obj)
      modifies this`items, this`seen, head, seen, e
      ensures Valid() && code == RegisterCode(old(Abs()), e.obj, ready)
      ensures Abs() == AfterRegister(old(Abs()), e.obj, ready)
      ensures seen == old(seen) + if code == Inval then {} else {e}
    {
      if !ready || e.obj.name.None? {
        return Inval;
      }
      hide IndexOf, NamesDistinct, Linked;
      var iter; ghost var k;
      iter, k := Walk(e.obj.name);
      HeadIffAbsent(e.obj.name, iter);
      if iter == head {
        AddTail(e);
        return Ok;
      }
      // A node that is on the list is never reinitialised.
      if iter != e {
        NotElsewhere(e, iter);
        InitHead(e);
      }
      code := Exist;
    }

    /** INIT_LIST_HEAD of a node that is not on the list. */
    method InitHead(e: Node)
      requires Valid() && e != head && e !in items
      requires e in seen || forall f :: f in seen ==> f.obj != e.obj
      modifies this`seen, e
      ensures Valid() && seen == old(seen) + {e}
    {
      e.next, e.prev := e, e;
      seen := seen + {e};
    }

    /** An object whose name is held by another object is not on the list. */
    lemma NotElsewhere(e: Node, iter: Node)
      requires Valid() && iter in items && iter.obj.name == e.obj.name && iter != e
      ensures e !in items
    {
    }

    /** list_empty on the embedded node tells whether the object is on the list. */
    lemma OnListIff(e: Node)
      requires Valid() && e in seen
      ensures e in items <==> e.next != e
    {
      if e in items {
        var i :| 0 <= i < |items| && items[i] == e;
        assert i + 1 < |items| ==> items[i].next == items[i+1];
      }
    }

    /** list_add_tail. */
    method AddTail(e: Node)
      requires Valid() && e != head && e.obj.name.Some? && IndexOf(Abs(), e.obj.name) == |items|
      requires e in seen || forall f :: f in seen ==> f.obj != e.obj
      modifies this`items, this`seen, head, seen, e
      ensures Valid() && items == old(items) + [e] && seen == old(seen) + {e}
      ensures Abs() == old(Abs()) + [e.obj]
    {
      hide IndexOf, NamesDistinct;
      AppendNode(items, e);
      assert e !in items;
      Append(e);
    }

    /** list_add_tail: the links. */
    method Append(e: Node)
      requires head !in seen && Linked() && e != head && e !in items
      modifies this`items, this`seen, head, seen, e
      ensures Linked() && items == old(items) + [e] && seen == old(seen) + {e}
      ensures forall f :: f in seen && f !in items ==> f.next == old(f.next) && f.prev == old(f.prev)
    {
      var last := head.prev;
      assert items != [] ==> last in seen && last in items;
      e.next, e.prev := head, last;
      head.prev := e;
      last.next := e;
      ghost var was := items;
      items := was + [e];
      seen := seen + {e};
      assert forall i :: 0 <= i < |was| ==> items[i] == was[i];
    }

    /** kdal_unregister_*, on an object that register has initialised. */
    method Unregister(e: Node)
      requires Valid() && e in seen
      modifies this`items, head, seen
      ensures Valid() && seen == old(seen)
      ensures Abs() == AfterUnregister(old(Abs()), e.obj)
      ensures e !in items
    {
      if e.next != e {
        Delete(e);
      } else {
        OnListIff(e);
        forall i | 0 <= i < |items|
          ensures Abs()[i] != e.obj
        {
          assert items[i] in seen;
        }
        RemoveAbsent(Abs(), e.obj);
      }
    }

    /** list_del_init: the links. */
    method Unlink(e: Node, ghost k: nat)
      requires Valid() && k < |items| && items[k] == e
      modifies this`items, head, seen
      ensures items == old(items)[..k] + old(items)[k+1..] && seen == old(seen)
      ensures Linked()
      ensures forall f :: f in seen && (f == e || f !in old(items)) ==> f.next == f && f.prev == f
    {
      hide NamesDistinct;
      Neighbours(k);
      Bypass(e, k);
      e.next, e.prev := e, e;
    }

    /** list_del: the neighbours of the node point to each other. */
    method Bypass(e: Node, ghost k: nat)
      requires head !in seen && Linked() && k < |items| && items[k] == e
      requires e.prev == (if k > 0 then items[k-1] else head) && e.next == (if k + 1 < |items| then items[k+1] else head)
      requires forall j :: 0 <= j < |items| && j != k - 1 ==> items[j] != e.prev
      requires forall j :: 0 <= j < |items| && j != k + 1 ==> items[j] != e.next
      requires e.prev in seen + {head} && e.next in seen + {head}
      modifies this`items, head, seen
      ensures items == old(items)[..k] + old(items)[k+1..] && seen == old(seen)
      ensures Linked()
      ensures forall f :: f in seen && f !in old(items) ==> f.next == old(f.next) && f.prev == old(f.prev)
    {
      ghost var was := items;
      var before, after := e.prev, e.next;
      after.prev := before;
      before.next := after;
      items := was[..k] + was[k+1..];
      forall i | 0 <= i < |items|
        ensures items[i] == was[if i < k then i else i + 1] && items[i] in seen
      {
      }
      forall i, j | 0 <= i < |items| && j == i + 1 && j < |items|
        ensures items[i].next == items[j] && items[j].prev == items[i]
      {
        if j < k {
          assert items[i] == was[i] && items[j] == was[j];
        } else if j == k {
          assert items[i] == before && items[j] == after;
        } else {
          assert items[i] == was[j] && items[j] == was[j+1];
        }
      }
    }

    /** list_del_init. */
    method Delete(e: Node)
      requires Valid() && e in items
      modifies this`items, head, seen
      ensures Valid() && seen == old(seen) && e !in items
      ensures Abs() == AfterUnregister(old(Abs()), e.obj)
    {
      ghost var k :| 0 <= k < |items| && items[k] == e;
      DropAt(items, k);
      Unlink(e, k);
    }

    lemma Neighbours(k: nat)
      requires Valid() && k < |items|
      ensures items[k].prev == (if k > 0 then items[k-1] else head)
      ensures items[k].next == (if k + 1 < |items| then items[k+1] else head)
      ensures items[k].prev in seen + {head} && items[k].next in seen + {head}
      ensures forall j :: 0 <= j < |items| && j != k ==> items[j] != items[k] && items[j].obj != items[k].obj
      ensures forall j :: 0 <= j < |items| && j != k - 1 ==> items[j] != items[k].prev
      ensures forall j :: 0 <= j < |items| && j != k + 1 ==> items[j] != items[k].next
    {
      assert k > 0 ==> items[k-1].next == items[k];
    }
  }

  lemma {:induction false} RemoveAt(q: seq<Obj>, k: nat, o: Obj)
    requires k < |q| && q[k] == o && forall j :: 0 <= j < k ==> q[j] != o
    ensures AfterUnregister(q, o) == q[..k] + q[k+1..]
  {
    if k > 0 {
      RemoveAt(q[1..], k - 1, o);
      assert q[1..][..k-1] == q[..k][1..];
      assert q[1..][k..] == q[k+1..];
    }
  }

  lemma {:induction false} RemoveAbsent(q: seq<Obj>, o: Obj)
    requires o !in q
    ensures AfterUnregister(q, o) == q
  {
    if q != [] {
      RemoveAbsent(q[1..], o);
    }
  }

  // ===== whole runs =====

  datatype Op = Register(o: Obj, ready: bool) | Unregister(o: Obj)

  function Apply(q: seq<Obj>, op: Op): seq<Obj> {
    match op
    case Register(o, ready) => AfterRegister(q, o, ready)
    case Unregister(o) => AfterUnregister(q, o)
  }

  function Run(ops: seq<Op>): seq<Obj> {
    if ops == [] then [] else Apply(Run(ops[..|ops|-1]), ops[|ops|-1])
  }

  ghost predicate DistinctNames(q: seq<Obj>) {
    && (forall i :: 0 <= i < |q| ==> q[i].name.Some?)
    && (forall i, j :: 0 <= i < j < |q| ==> q[i].name != q[j].name)
  }

  /** The k-th operation put `o` on the list. */
  ghost predicate Accepted(ops: seq<Op>, k: nat, o: Obj)
    requires k < |ops|
  {
    ops[k].Register? && ops[k].o == o && RegisterCode(Run(ops[..k]), o, ops[k].ready) == Ok
  }

  /** Some registration of `o` was accepted and not undone since. */
  ghost predicate StillRegistered(ops: seq<Op>, o: Obj) {
    exists k :: 0 <= k < |ops| && Accepted(ops, k, o) && forall j :: k < j < |ops| ==> ops[j] != Unregister(o)
  }

  lemma {:induction false} UnregisterShape(q: seq<Obj>, o: Obj)
    requires DistinctNames(q)
    ensures DistinctNames(AfterUnregister(q, o))
    ensures forall p :: p in AfterUnregister(q, o) <==> p in q && p != o
  {
    if q != [] {
      var rest := q[1..];
      assert q == [q[0]] + rest;
      assert DistinctNames(rest);
      UnregisterShape(rest, o);
      assert q[0] !in rest;
      if q[0] != o {
        var r := AfterUnregister(rest, o);
        forall j | 0 <= j < |r|
          ensures r[j].name != q[0].name
        {
          assert r[j] in rest;
          var m :| 0 <= m < |rest| && rest[m] == r[j];
          assert q[m+1] == rest[m];
        }
      }
    }
  }

  lemma RegisterShape(q: seq<Obj>, o: Obj, ready: bool)
    requires DistinctNames(q)
    ensures DistinctNames(AfterRegister(q, o, ready))
    ensures forall p :: p in AfterRegister(q, o, ready) <==> p in q || (p == o && RegisterCode(q, o, ready) == Ok)
  {
    if RegisterCode(q, o, ready) == Ok {
      forall i | 0 <= i < |q|
        ensures q[i].name != o.name
      {
        assert !Matches(q[i], o.name);
      }
    }
  }

  /** In every run the names stay distinct, and the list holds exactly the objects whose
      accepted registration was not undone. */
  lemma {:induction false} ListHoldsStillRegistered(ops: seq<Op>)
    ensures DistinctNames(Run(ops))
    ensures forall o :: o in Run(ops) <==> StillRegistered(ops, o)
  {
    if ops != [] {
      var n := |ops| - 1;
      var init, op := ops[..n], ops[n];
      ListHoldsStillRegistered(init);
      var q := Run(init);
      if op.Register? {
        RegisterShape(q, op.o, op.ready);
      } else {
        UnregisterShape(q, op.o);
      }
      forall o
        ensures o in Run(ops) <==> StillRegistered(ops, o)
      {
        StillRegisteredStep(ops, o);
      }
    }
  }

  lemma StillRegisteredStep(ops: seq<Op>, o: Obj)
    requires ops != []
    ensures StillRegistered(ops, o)
       <==> || Accepted(ops, |ops| - 1, o)
            || (StillRegistered(ops[..|ops|-1], o) && ops[|ops|-1] != Unregister(o))
  {
    var n := |ops| - 1;
    var init := ops[..n];
    assert forall k :: 0 <= k < n ==> init[k] == ops[k] && init[..k] == ops[..k];
    if StillRegistered(init, o) && ops[n] != Unregister(o) {
      var k :| 0 <= k < |init| && Accepted(init, k, o) && forall j :: k < j < |init| ==> init[j] != Unregister(o);
      assert Accepted(ops, k, o);
    }
    if StillRegistered(ops, o) {
      var k :| 0 <= k < |ops| && Accepted(ops, k, o) && forall j :: k < j < |ops| ==> ops[j] != Unregister(o);
      if k < n {
        assert Accepted(init, k, o);
      }
    }
  }

  /** Find returns the one object still registered under the name, if there is one. */
  lemma FindIsUniqueHolder(ops: seq<Op>, name: string, o: Obj)
    ensures FindIn(Run(ops), Some(name)) == Some(o) <==> StillRegistered(ops, o) && o.name == Some(name)
  {
    ListHoldsStillRegistered(ops);
    var q := Run(ops);
    var i := IndexOf(q, Some(name));
    if o in q && o.name == Some(name) {
      var k :| 0 <= k < |q| && q[k] == o;
      assert Matches(q[k], Some(name));
      assert i == k;
    }
  }

  /** Unregistering an object whose registration lost to a different holder of its name
      changes nothing. */
  lemma LoserUnregistersNothing(ops: seq<Op>, o: Obj, ready: bool)
    requires RegisterCode(Run(ops), o, ready) == Exist && FindIn(Run(ops), o.name) != Some(o)
    ensures Run(ops + [Register(o, ready), Unregister(o)]) == Run(ops)
  {
    var q := Run(ops);
    ListHoldsStillRegistered(ops);
    FindIsUniqueHolder(ops, o.name.value, o);
    RemoveAbsent(q, o);
    var a := ops + [Register(o, ready)];
    var b := ops + [Register(o, ready), Unregister(o)];
    assert a[..|ops|] == ops && b[..|ops|+1] == a;
    assert Run(a) == q;
  }
}
