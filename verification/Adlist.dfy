/**
 * The generic doubly linked list of adlist.c: nodes relinked in place, a list
 * header with head, tail and length, and iterators that survive the deletion of
 * the node they returned last.
 */
module Adlist {

  class ListNode<T> {
    var prev: ListNode?<T>
    var next: ListNode?<T>
    var value: T

    constructor (value: T)
      ensures this.value == value && prev == null && next == null
    {
      this.value := value;
      prev, next := null, null;
    }
  }

  /** The i-th node, or null beyond either end. */
  ghost function NodeAt<T>(nodes: seq<ListNode<T>>, i: int): ListNode?<T> {
    if 0 <= i < |nodes| then nodes[i] else null
  }

  ghost predicate Distinct<T>(nodes: seq<ListNode<T>>) {
    forall i, j :: 0 <= i < j < |nodes| ==> nodes[i] != nodes[j]
  }

  /** The links of the nodes are their neighbours. */
  ghost predicate Linked<T>(nodes: seq<ListNode<T>>)
    reads nodes
  {
    && (forall i {:trigger nodes[i].prev} :: 0 <= i < |nodes| ==> nodes[i].prev == NodeAt(nodes, i - 1))
    && (forall i {:trigger nodes[i].next} :: 0 <= i < |nodes| ==> nodes[i].next == NodeAt(nodes, i + 1))
  }

  lemma NodeAtIs<T>(nodes: seq<ListNode<T>>, i: nat)
    requires i < |nodes|
    ensures NodeAt(nodes, i) == nodes[i]
  {
  }

  // ---------------------------------------------------------------------
  // Inserting, removing, rotating
  // ---------------------------------------------------------------------

  ghost function Inserted<X>(s: seq<X>, k: nat, x: X): (r: seq<X>)
    requires k <= |s|
    ensures |r| == |s| + 1
  {
    s[..k] + [x] + s[k..]
  }

  ghost function Removed<X>(s: seq<X>, k: nat): (r: seq<X>)
    requires k < |s|
    ensures |r| == |s| - 1
  {
    s[..k] + s[k + 1..]
  }

  ghost function Rotated<X>(s: seq<X>): (r: seq<X>)
    requires s != []
    ensures |r| == |s|
  {
    [s[|s| - 1]] + s[..|s| - 1]
  }

  lemma InsertedAt<T>(s: seq<ListNode<T>>, k: nat, x: ListNode<T>, i: int)
    requires k <= |s| && -1 <= i <= |s| + 1
    ensures NodeAt(Inserted(s, k, x), i) == if i < k then NodeAt(s, i) else if i == k then x else NodeAt(s, i - 1)
  {
  }

  lemma RemovedAt<T>(s: seq<ListNode<T>>, k: nat, i: int)
    requires k < |s| && -1 <= i < |s|
    ensures NodeAt(Removed(s, k), i) == NodeAt(s, if i < k then i else i + 1)
  {
  }

  lemma RotatedAt<T>(s: seq<ListNode<T>>, i: int)
    requires s != [] && -1 <= i <= |s|
    ensures NodeAt(Rotated(s), i) == if i == 0 then s[|s| - 1] else if i == |s| then null else NodeAt(s, i - 1)
  {
  }

  lemma JoinedAt<T>(a: seq<ListNode<T>>, b: seq<ListNode<T>>, i: int)
    requires -1 <= i <= |a| + |b|
    ensures NodeAt(a + b, i) == if i < |a| then NodeAt(a, i) else NodeAt(b, i - |a|)
  {
  }

  lemma InsertedDistinct<T>(s: seq<ListNode<T>>, k: nat, x: ListNode<T>)
    requires k <= |s| && Distinct(s) && x !in s
    ensures Distinct(Inserted(s, k, x))
  {
    var r := Inserted(s, k, x);
    assert forall i :: 0 <= i < |r| ==> r[i] == if i < k then s[i] else if i == k then x else s[i - 1];
  }

  lemma RemovedDistinct<T>(s: seq<ListNode<T>>, k: nat)
    requires k < |s| && Distinct(s)
    ensures Distinct(Removed(s, k))
  {
    var r := Removed(s, k);
    assert forall i :: 0 <= i < |r| ==> r[i] == if i < k then s[i] else s[i + 1];
  }

  lemma RotatedDistinct<T>(s: seq<ListNode<T>>)
    requires s != [] && Distinct(s)
    ensures Distinct(Rotated(s))
  {
    var r := Rotated(s);
    assert forall i :: 0 <= i < |r| ==> r[i] == if i == 0 then s[|s| - 1] else s[i - 1];
  }

  /** All links but those around position k are as they were, and those lead to the new node. */
  lemma LinkedAfterInsert<T>(was: seq<ListNode<T>>, k: nat, node: ListNode<T>)
    requires k <= |was|
    requires forall j {:trigger was[j].next} :: 0 <= j < |was| ==>
               was[j].next == if j == k - 1 then node else NodeAt(was, j + 1)
    requires forall j {:trigger was[j].prev} :: 0 <= j < |was| ==>
               was[j].prev == if j == k then node else NodeAt(was, j - 1)
    requires node.prev == NodeAt(was, k - 1) && node.next == NodeAt(was, k)
    ensures Linked(Inserted(was, k, node))
  {
    hide Inserted, NodeAt;
    var all := Inserted(was, k, node);
    forall i | 0 <= i < |all| ensures all[i].prev == NodeAt(all, i - 1) && all[i].next == NodeAt(all, i + 1) {
      InsertedAt(was, k, node, i - 1);
      InsertedAt(was, k, node, i);
      InsertedAt(was, k, node, i + 1);
      NodeAtIs(all, i);
      if i != k { NodeAtIs(was, if i < k then i else i - 1); }
    }
  }

  /** All links but those around position k are as they were, and those lead past it. */
  lemma LinkedAfterRemove<T>(was: seq<ListNode<T>>, k: nat)
    requires k < |was|
    requires forall j {:trigger was[j].next} :: 0 <= j < |was| && j != k ==>
               was[j].next == NodeAt(was, if j == k - 1 then k + 1 else j + 1)
    requires forall j {:trigger was[j].prev} :: 0 <= j < |was| && j != k ==>
               was[j].prev == NodeAt(was, if j == k + 1 then k - 1 else j - 1)
    ensures Linked(Removed(was, k))
  {
    hide Removed, NodeAt;
    var all := Removed(was, k);
    forall i | 0 <= i < |all| ensures all[i].prev == NodeAt(all, i - 1) && all[i].next == NodeAt(all, i + 1) {
      RemovedAt(was, k, i - 1);
      RemovedAt(was, k, i);
      RemovedAt(was, k, i + 1);
      NodeAtIs(all, i);
      NodeAtIs(was, if i < k then i else i + 1);
    }
  }

  lemma LinkedAfterRotate<T>(was: seq<ListNode<T>>)
    requires |was| > 1
    requires forall j {:trigger was[j].next} :: 0 <= j < |was| ==>
               was[j].next == if j == |was| - 1 then was[0] else if j == |was| - 2 then null else NodeAt(was, j + 1)
    requires forall j {:trigger was[j].prev} :: 0 <= j < |was| ==>
               was[j].prev == if j == |was| - 1 then null else if j == 0 then was[|was| - 1] else NodeAt(was, j - 1)
    ensures Linked(Rotated(was))
  {
    hide Rotated, NodeAt;
    var all := Rotated(was);
    NodeAtIs(was, 0);
    NodeAtIs(was, |was| - 1);
    forall i | 0 <= i < |all| ensures all[i].prev == NodeAt(all, i - 1) && all[i].next == NodeAt(all, i + 1) {
      RotatedAt(was, i - 1);
      RotatedAt(was, i);
      RotatedAt(was, i + 1);
      NodeAtIs(all, i);
      if i > 0 { NodeAtIs(was, i - 1); }
      NothingBefore(all);
    }
  }

  lemma LinkedAfterJoin<T>(a: seq<ListNode<T>>, b: seq<ListNode<T>>)
    requires forall j {:trigger a[j].prev} :: 0 <= j < |a| ==> a[j].prev == NodeAt(a, j - 1)
    requires forall j {:trigger a[j].next} :: 0 <= j < |a| ==>
               a[j].next == if j == |a| - 1 then NodeAt(b, 0) else NodeAt(a, j + 1)
    requires forall j {:trigger b[j].prev} :: 0 <= j < |b| ==>
               b[j].prev == if j == 0 then NodeAt(a, |a| - 1) else NodeAt(b, j - 1)
    requires forall j {:trigger b[j].next} :: 0 <= j < |b| ==> b[j].next == NodeAt(b, j + 1)
    ensures Linked(a + b)
  {
    hide NodeAt;
    var all := a + b;
    forall i | 0 <= i < |all| ensures all[i].prev == NodeAt(all, i - 1) && all[i].next == NodeAt(all, i + 1) {
      JoinedAt(a, b, i - 1);
      JoinedAt(a, b, i + 1);
      assert all[i] == if i < |a| then a[i] else b[i - |a|];
    }
  }

  lemma JoinedDistinct<T>(a: seq<ListNode<T>>, b: seq<ListNode<T>>)
    requires Distinct(a) && Distinct(b)
    requires forall i, j :: 0 <= i < |a| && 0 <= j < |b| ==> a[i] != b[j]
    ensures Distinct(a + b)
  {
  }

  lemma NodeAtEnds<T>(nodes: seq<ListNode<T>>, i: nat)
    ensures NodeAt(nodes, i) == null <==> i >= |nodes|
    ensures i < |nodes| ==> NodeAt(nodes, i) == nodes[i]
  {
  }

  lemma NothingBefore<T>(nodes: seq<ListNode<T>>)
    ensures NodeAt(nodes, -1) == null && NodeAt(nodes, |nodes|) == null
  {
  }

  lemma LinksOf<T>(nodes: seq<ListNode<T>>, at: nat)
    requires Linked(nodes) && Distinct(nodes) && at < |nodes|
    ensures nodes[at].prev == NodeAt(nodes, at - 1) && nodes[at].next == NodeAt(nodes, at + 1)
    ensures nodes[at] == nodes[0] <==> at == 0
    ensures nodes[at] == nodes[|nodes| - 1] <==> at == |nodes| - 1
  {
  }

  class List<T> {
    var head: ListNode?<T>
    var tail: ListNode?<T>
    var len: nat
    ghost var nodes: seq<ListNode<T>>

    /** The nodes in order: head and tail are its ends, and the links are its neighbours. */
    ghost predicate Valid()
      reads this, nodes
    {
      && len == |nodes| && head == NodeAt(nodes, 0) && tail == NodeAt(nodes, |nodes| - 1)
      && Distinct(nodes) && Linked(nodes)
    }

    /** The values from head to tail. */
    ghost function Contents(): (s: seq<T>)
      reads this, nodes
      ensures |s| == |nodes| && forall i :: 0 <= i < |s| ==> s[i] == nodes[i].value
    {
      seq(|nodes|, i requires 0 <= i < |nodes| reads this, nodes => nodes[i].value)
    }

    /** listCreate. */
    constructor ()
      ensures Valid() && nodes == []
    {
      head, tail, len, nodes := null, null, 0, [];
    }

    /** listAddNodeHead. */
    method AddNodeHead(value: T)
      requires Valid()
      modifies this, nodes`prev, nodes`next
      ensures Valid() && |nodes| > 0 && nodes == [nodes[0]] + old(nodes) && fresh(nodes[0])
      ensures Contents() == [value] + old(Contents())
    {
      ghost var was := nodes;
      var node := new ListNode(value);
      if len == 0 {
        head, tail := node, node;
      } else {
        node.next := head;
        head.prev := node;
        head := node;
      }
      len := len + 1;
      nodes := Inserted(was, 0, node);
      LinkedAfterInsert(was, 0, node);
      InsertedDistinct(was, 0, node);
      InsertedAt(was, 0, node, |was|);
      assert nodes == [node] + was;
    }

    /** listAddNodeTail. */
    method AddNodeTail(value: T)
      requires Valid()
      modifies this, nodes`prev, nodes`next
      ensures Valid() && |nodes| > 0 && nodes == old(nodes) + [nodes[|nodes| - 1]]
      ensures fresh(nodes[|nodes| - 1])
      ensures Contents() == old(Contents()) + [value]
    {
      ghost var was := nodes;
      var node := new ListNode(value);
      if len == 0 {
        head, tail := node, node;
      } else {
        node.prev := tail;
        tail.next := node;
        tail := node;
      }
      len := len + 1;
      nodes := Inserted(was, |was|, node);
      LinkedAfterInsert(was, |was|, node);
      InsertedDistinct(was, |was|, node);
      InsertedAt(was, |was|, node, 0);
      assert nodes == was + [node];
    }

    /** listInsertNode; `at` is the position of the old node. */
    method InsertNode(oldNode: ListNode<T>, value: T, after: bool, ghost at: nat)
      requires Valid() && at < |nodes| && nodes[at] == oldNode
      modifies this, nodes`prev, nodes`next
      ensures Valid()
      ensures var k := if after then at + 1 else at;
              |nodes| > k && fresh(nodes[k]) && nodes[k].value == value && nodes == Inserted(old(nodes), k, nodes[k])
    {
      hide Linked, Inserted;
      ghost var was, k := nodes, if after then at + 1 else at;
      LinksOf(nodes, at);
      var node := new ListNode(value);
      if after {
        node.prev, node.next := oldNode, oldNode.next;
        if tail == oldNode { tail := node; }
      } else {
        node.next, node.prev := oldNode, oldNode.prev;
        if head == oldNode { head := node; }
      }
      LinkIn(node, k);
      InsertedAt(was, k, node, k);
    }

    /** The end of listInsertNode: the neighbours of the new node are linked to it. */
    method LinkIn(node: ListNode<T>, ghost k: nat)
      requires k <= |nodes| && node !in nodes && len == |nodes| && Distinct(nodes) && Linked(nodes)
      requires node.prev == NodeAt(nodes, k - 1) && node.next == NodeAt(nodes, k)
      requires head == (if k == 0 then node else nodes[0])
      requires tail == (if k == |nodes| then node else nodes[|nodes| - 1])
      modifies this`len, this`nodes, nodes`prev, nodes`next
      ensures Valid() && nodes == Inserted(old(nodes), k, node)
    {
      hide Inserted;
      ghost var was := nodes;
      if node.prev != null { node.prev.next := node; }
      if node.next != null { node.next.prev := node; }
      LinkedAfterInsert(was, k, node);
      InsertedDistinct(was, k, node);
      InsertedAt(was, k, node, 0);
      InsertedAt(was, k, node, |was|);
      len := len + 1;
      nodes := Inserted(was, k, node);
    }

    /** listDelNode; `at` is the position of the node. */
    method DelNode(node: ListNode<T>, ghost at: nat)
      requires Valid() && at < |nodes| && nodes[at] == node
      modifies this, nodes`prev, nodes`next
      ensures Valid() && nodes == Removed(old(nodes), at)
    {
      hide Removed;
      ghost var was := nodes;
      if node.prev != null { node.prev.next := node.next; } else { head := node.next; }
      if node.next != null { node.next.prev := node.prev; } else { tail := node.prev; }
      LinkedAfterRemove(was, at);
      RemovedDistinct(was, at);
      RemovedAt(was, at, 0);
      RemovedAt(was, at, |was| - 2);
      len := len - 1;
      nodes := Removed(was, at);
    }

    /** listIndex: from the head for 0, 1, ..., from the tail for -1, -2, .... */
    method Index(index: int) returns (n: ListNode?<T>)
      requires Valid()
      ensures n == NodeAt(nodes, if index < 0 then |nodes| + index else index)
    {
      if index < 0 {
        var i := -index - 1;
        n := tail;
        while i > 0 && n != null
          invariant 0 <= i <= -index - 1
          invariant |nodes| + index + i >= -1 && n == NodeAt(nodes, |nodes| + index + i)
          decreases i
        {
          n := n.prev;
          i := i - 1;
        }
      } else {
        var i := index;
        n := head;
        while i > 0 && n != null
          invariant 0 <= i <= index
          invariant index - i <= |nodes| && n == NodeAt(nodes, index - i)
          decreases i
        {
          n := n.next;
          i := i - 1;
        }
      }
    }

    /** listRotate: the tail node becomes the head. */
    method Rotate()
      requires Valid()
      modifies this, nodes`prev, nodes`next
      ensures Valid()
      ensures |old(nodes)| <= 1 ==> nodes == old(nodes)
      ensures |old(nodes)| > 1 ==> nodes == Rotated(old(nodes))
    {
      if len <= 1 { return; }
      hide Rotated;
      ghost var was := nodes;
      var t := tail;
      tail := t.prev;
      tail.next := null;
      head.prev := t;
      t.prev := null;
      t.next := head;
      head := t;
      LinkedAfterRotate(was);
      RotatedDistinct(was);
      RotatedAt(was, 0);
      RotatedAt(was, |was| - 1);
      nodes := Rotated(was);
    }

    /**
     * listJoin: append the nodes of `o` and leave `o` empty. The tail of this list
     * becomes the tail of `o` unconditionally, so the result is a list exactly when
     * `o` has a node or this list has none.
     */
    method Join(o: List<T>)
      requires Valid() && o.Valid() && o != this
      requires forall i, j :: 0 <= i < |nodes| && 0 <= j < |o.nodes| ==> nodes[i] != o.nodes[j]
      modifies this, nodes`next, o, o.nodes`prev
      ensures nodes == old(nodes) + old(o.nodes)
      ensures o.Valid() && o.nodes == []
      ensures Valid() <==> old(o.nodes) != [] || old(nodes) == []
    {
      ghost var a, b := nodes, o.nodes;
      if o.head != null { o.head.prev := tail; }
      if tail != null { tail.next := o.head; } else { head := o.head; }
      tail := o.tail;
      len := len + o.len;
      nodes := nodes + o.nodes;
      o.head, o.tail, o.len, o.nodes := null, null, 0, [];
      JoinedAt(a, b, 0);
      JoinedAt(a, b, |a| + |b| - 1);
      if b != [] || a == [] {
        LinkedAfterJoin(a, b);
        JoinedDistinct(a, b);
      }
    }
  }

  /** listIter: where the next call of Next will look. */
  class Iter<T> {
    var next: ListNode?<T>
    const forward: bool

    /** The iterator stands before position i of the list, or behind it when going backward. */
    ghost predicate At(l: List<T>, i: int)
      reads this, l
    {
      -1 <= i <= |l.nodes| && next == NodeAt(l.nodes, i)
    }

    /** listGetIterator, listRewind and listRewindTail. */
    constructor (l: List<T>, forward: bool)
      requires l.Valid()
      ensures this.forward == forward && At(l, if forward then 0 else |l.nodes| - 1)
    {
      this.forward := forward;
      next := if forward then l.head else l.tail;
    }

    /** listNext. */
    method Next(ghost l: List<T>, ghost i: int) returns (current: ListNode?<T>)
      requires l.Valid() && At(l, i)
      modifies this
      ensures current == NodeAt(l.nodes, i)
      ensures current != null ==> At(l, if forward then i + 1 else i - 1)
      ensures current == null ==> At(l, i)
    {
      current := next;
      if current != null {
        next := if forward then current.next else current.prev;
      }
    }
  }

  /**
   * An iterator may delete the node it has just returned: it then stands before the
   * node that followed (forward) or preceded (backward) it, and no node is skipped.
   */
  method DelReturned<T>(l: List<T>, iter: Iter<T>, node: ListNode<T>, ghost k: nat)
    requires l.Valid() && k < |l.nodes| && node == l.nodes[k]
    requires iter.At(l, if iter.forward then k + 1 else k - 1)
    modifies l, l.nodes`prev, l.nodes`next
    ensures l.Valid() && l.nodes == Removed(old(l.nodes), k)
    ensures iter.At(l, if iter.forward then k else k - 1)
  {
    l.DelNode(node, k);
  }

  /** listSearchKey without a match method: the first node holding the key, from the head. */
  method SearchKey<T(==)>(l: List<T>, key: T) returns (node: ListNode?<T>)
    requires l.Valid()
    ensures node == null ==> forall j :: 0 <= j < |l.nodes| ==> l.nodes[j].value != key
    ensures node != null ==>
              && node.value == key
              && exists k ::
                   (&& 0 <= k < |l.nodes| && node == l.nodes[k]
                    && forall j :: 0 <= j < k ==> l.nodes[j].value != key)
  {
    var iter := new Iter(l, true);
    ghost var i := 0;
    node := iter.Next(l, i);
    while node != null
      invariant 0 <= i <= |l.nodes| && fresh(iter) && iter.forward
      invariant node == NodeAt(l.nodes, i)
      invariant node != null ==> iter.At(l, i + 1)
      invariant forall j :: 0 <= j < i ==> l.nodes[j].value != key
      decreases |l.nodes| - i
    {
      if node.value == key { return; }
      i := i + 1;
      node := iter.Next(l, i);
    }
  }
}
