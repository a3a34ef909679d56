/** Linked syntax nodes (compiler/parser.c, `kdal_ast_append` and `kdal_ast_add_child`):
    the sibling lists that the rest of the model takes as sequences. */
module Siblings {

  class Node {
    var next: Node?
    var child: Node?

    constructor ()
      ensures next == null && child == null
    {
      next, child := null, null;
    }
  }

  /** `s` is the list that starts at `head` and ends in a null pointer. */
  ghost predicate Chain(head: Node?, s: seq<Node>)
    reads s
  {
    && head == (if s == [] then null else s[0])
    && (forall i, j :: 0 <= i && j == i + 1 && j < |s| ==> s[i].next == s[j])
    && (s != [] ==> s[|s|-1].next == null)
    && (forall i, j :: 0 <= i < j < |s| ==> s[i] != s[j])
  }

  ghost predicate Apart(s: seq<Node>, t: seq<Node>) {
    forall n :: n in s ==> n !in t
  }

  /** A head determines its list. */
  lemma {:induction false} ChainIsUnique(head: Node?, s: seq<Node>, t: seq<Node>)
    requires Chain(head, s) && Chain(head, t)
    ensures s == t
    decreases |s|
  {
    if s != [] {
      assert |s| > 1 ==> s[0].next == s[1];
      assert |t| > 1 ==> t[0].next == t[1];
      ChainTail(s);
      ChainTail(t);
      ChainIsUnique(s[0].next, s[1..], t[1..]);
    }
  }

  lemma ChainTail(s: seq<Node>)
    requires s != [] && Chain(s[0], s)
    ensures Chain(s[0].next, s[1..])
  {
  }

  /** The walk to the last sibling. */
  method Last(list: Node, ghost s: seq<Node>) returns (cur: Node)
    requires Chain(list, s)
    ensures cur == s[|s|-1]
  {
    cur := list;
    ghost var i, j := 0, 1;
    while cur.next != null
      invariant 0 <= i && j == i + 1 && i < |s| && cur == s[i]
      invariant j < |s| ==> s[i].next == s[j]
      decreases |s| - i
    {
      cur := cur.next;
      i, j := j, j + 1;
    }
  }

  /** The walk to the last sibling, and the link to the new one. */
  method Join(list: Node, node: Node?, ghost s: seq<Node>, ghost t: seq<Node>)
    requires Chain(list, s) && Chain(node, t) && Apart(s, t)
    modifies s
    ensures Chain(list, s + t) && forall n :: n in s ==> n.child == old(n.child)
  {
    var cur := Last(list, s);
    assert cur in s && cur !in t;
    cur.next := node;
    Joined(list, node, s, t);
  }

  /** kdal_ast_append: `node` brings its own siblings with it, and no child changes. */
  method Append(list: Node?, node: Node?, ghost s: seq<Node>, ghost t: seq<Node>) returns (r: Node?)
    requires Chain(list, s) && Chain(node, t) && Apart(s, t)
    modifies s
    ensures Chain(r, s + t) && forall n :: n in s ==> n.child == old(n.child)
    ensures list != null ==> r == list
  {
    if list == null {
      assert s + t == t;
      return node;
    }
    Join(list, node, s, t);
    r := list;
  }

  lemma Joined(list: Node, node: Node?, s: seq<Node>, t: seq<Node>)
    requires s != [] && list == s[0] && s[|s|-1].next == node && Chain(node, t) && Apart(s, t)
    requires forall i, j :: 0 <= i && j == i + 1 && j < |s| ==> s[i].next == s[j]
    requires forall i, j :: 0 <= i < j < |s| ==> s[i] != s[j]
    ensures Chain(list, s + t)
  {
    forall i, j | 0 <= i < j < |s + t|
      ensures (s + t)[i] != (s + t)[j]
    {
      assert i < |s| ==> s[i] in s;
      assert j >= |s| ==> t[j - |s|] in t;
    }
  }

  /** kdal_ast_add_child: the whole list that starts at `child` is spliced in after the
      children there are. */
  method AddChild(parent: Node, child: Node?, ghost s: seq<Node>, ghost t: seq<Node>)
    requires Chain(parent.child, s) && Chain(child, t) && Apart(s, t) && parent !in s && parent !in t
    modifies parent`child, s
    ensures Chain(parent.child, s + t) && forall n :: n in s ==> n.child == old(n.child)
  {
    if parent.child == null {
      assert s + t == t;
      parent.child := child;
      return;
    }
    Join(parent.child, child, s, t);
  }
}
