/**
 The prev/next thread through the nodes, and the pointer updates by which src/sc_avl.c adds
 a leaf to the tree and takes a node off the thread.
 */
module AvlThread {
  import opened AvlShape
  import opened AvlRotate

  lemma {:induction false} ThreadKept<T>(m: Memory<T>, w: Memory<T>, ns: seq<nat>, head: nat, tail: nat)
    requires Threaded(m, ns, head, tail) && SameThreads(m, w)
    ensures Threaded(w, ns, head, tail)
  {
    forall i | 0 <= i < |ns| ensures Seat(w, ns, i) {
      assert Seat(m, ns, i);
    }
  }

  ghost function Inserted(ns: seq<nat>, i: nat, x: nat): seq<nat>
    requires i <= |ns|
  {
    ns[..i] + [x] + ns[i..]
  }

  ghost function Dropped(ns: seq<nat>, i: nat): seq<nat>
    requires i < |ns|
  {
    ns[..i] + ns[i + 1..]
  }

  /** Only the neighbours of the gap i see the new node x. */
  lemma {:induction false} ThreadInsert<T>(m: Memory<T>, w: Memory<T>, ns: seq<nat>, i: nat, x: nat, head: nat,
          tail: nat, head': nat, tail': nat)
    requires Threaded(m, ns, head, tail) && i <= |ns| && x in w && w.Keys == m.Keys
    requires forall k :: 0 <= k < |ns| ==>
               && Seat(m, ns, k)
               && w[ns[k]].prev == (if k == i then x else m[ns[k]].prev)
               && w[ns[k]].next == (if k == i - 1 then x else m[ns[k]].next)
    requires w[x].prev == PrevOf(ns, i) && w[x].next == NextOf(ns, i - 1)
    requires head' == (if i == 0 then x else head) && tail' == (if i == |ns| then x else tail)
    ensures Threaded(w, Inserted(ns, i, x), head', tail')
  {
    var os := Inserted(ns, i, x);
    forall k | 0 <= k < |os| ensures Seat(w, os, k) {
      InsertedNeighbours(ns, i, x, k);
      if k != i {
        assert Seat(m, ns, if k < i then k else k - 1);
      }
    }
    InsertedNeighbours(ns, i, x, 0);
    InsertedNeighbours(ns, i, x, |ns|);
  }

  /** Who stands at position k of the longer list, and between whom. */
  lemma {:induction false} InsertedNeighbours(ns: seq<nat>, i: nat, x: nat, k: nat)
    requires i <= |ns| && k <= |ns|
    ensures var os := Inserted(ns, i, x);
            && |os| == |ns| + 1
            && os[k] == (if k < i then ns[k] else if k == i then x else ns[k - 1])
            && PrevOf(os, k) == (if k <= i then PrevOf(ns, k) else if k == i + 1 then x else PrevOf(ns, k - 1))
            && NextOf(os, k) == (if k < i - 1 then NextOf(ns, k) else if k == i - 1 then x else NextOf(ns, k - 1))
  {
  }

  /** The neighbours of the node at i see each other. */
  lemma {:induction false} ThreadRemove<T>(m: Memory<T>, w: Memory<T>, ns: seq<nat>, i: nat, head: nat, tail: nat,
          head': nat, tail': nat)
    requires Threaded(m, ns, head, tail) && i < |ns| && w.Keys == m.Keys
    requires forall k :: 0 <= k < |ns| && k != i ==>
               && Seat(m, ns, k)
               && w[ns[k]].prev == (if k == i + 1 then PrevOf(ns, i) else m[ns[k]].prev)
               && w[ns[k]].next == (if k == i - 1 then NextOf(ns, i) else m[ns[k]].next)
    requires head' == (if i == 0 then NextOf(ns, i) else head)
    requires tail' == (if i == |ns| - 1 then PrevOf(ns, i) else tail)
    ensures Threaded(w, Dropped(ns, i), head', tail')
  {
    var os := Dropped(ns, i);
    forall k | 0 <= k < |os| ensures Seat(w, os, k) {
      assert Seat(m, ns, if k < i then k else k + 1);
    }
  }

  // ---------------------------------------------------------------- pointer updates

  /** avl_clear_node */
  function Cleared<T>(n: Node<T>): Node<T> { n.(left := 0, right := 0, count := 1) }

  /** The nodes after newnode has become the left or right leaf of node; other is the next neighbour on that side. */
  ghost predicate Attached<T>(m: Memory<T>, w: Memory<T>, node: nat, newnode: nat, left: bool) {
    && node in m && newnode in m && w.Keys == m.Keys
    && var other := if left then m[node].prev else m[node].next;
    && (other == 0 || other in m) && other != node && other != newnode && node != newnode
    && (forall z :: z in m && z != node && z != newnode && (z == 0 || z != other) ==> w[z] == m[z])
    && w[newnode] == (if left then Cleared(m[newnode]).(next := node, parent := node, prev := other)
                      else Cleared(m[newnode]).(prev := node, parent := node, next := other))
    && w[node] == (if left then m[node].(prev := newnode, left := newnode)
                   else m[node].(next := newnode, right := newnode))
    && (other != 0 ==> w[other] == (if left then m[other].(next := newnode) else m[other].(prev := newnode)))
  }

  ghost predicate CanAttach<T>(m: Memory<T>, node: nat, newnode: nat, other: nat) {
    && node in m && newnode in m && node != newnode && node != 0 && newnode != 0
    && (other == 0 || other in m) && other != node && other != newnode
  }

  method AttachLeft<T>(m0: Memory<T>, head0: nat, node: nat, newnode: nat) returns (m: Memory<T>, head: nat)
    requires node in m0 && CanAttach(m0, node, newnode, m0[node].prev)
    ensures Attached(m0, m, node, newnode, true)
    ensures head == (if m0[node].prev == 0 then newnode else head0)
  {
    head := head0;
    m := m0[newnode := Cleared(m0[newnode])];
    m := m[newnode := m[newnode].(next := node, parent := node)];
    m := m[newnode := m[newnode].(prev := m[node].prev)];
    var prev := m[node].prev;
    if prev != 0 {
      m := m[prev := m[prev].(next := newnode)];
    } else {
      head := newnode;
    }
    m := m[node := m[node].(prev := newnode)];
    m := SetLeft(m, node, newnode);
  }

  method AttachRight<T>(m0: Memory<T>, tail0: nat, node: nat, newnode: nat) returns (m: Memory<T>, tail: nat)
    requires node in m0 && CanAttach(m0, node, newnode, m0[node].next)
    ensures Attached(m0, m, node, newnode, false)
    ensures tail == (if m0[node].next == 0 then newnode else tail0)
  {
    tail := tail0;
    m := m0[newnode := Cleared(m0[newnode])];
    m := m[newnode := m[newnode].(prev := node, parent := node)];
    m := m[newnode := m[newnode].(next := m[node].next)];
    var next := m[node].next;
    if next != 0 {
      m := m[next := m[next].(prev := newnode)];
    } else {
      tail := newnode;
    }
    m := m[node := m[node].(next := newnode)];
    m := SetRight(m, node, newnode);
  }

  /** Its neighbours, if any, see each other. */
  ghost predicate Detached<T>(m: Memory<T>, w: Memory<T>, prev: nat, next: nat) {
    && w.Keys == m.Keys && (prev == 0 || prev in m) && (next == 0 || next in m)
    && (prev != 0 ==> w[prev] == m[prev].(next := next))
    && (next != 0 ==> w[next] == m[next].(prev := prev))
    && (forall z :: z in m && (z == 0 || (z != prev && z != next)) ==> w[z] == m[z])
  }

  /** The start of avl_unlink_node: the node leaves the thread, all links stay. */
  method Unthread<T>(m0: Memory<T>, head0: nat, tail0: nat, node: nat) returns (m: Memory<T>, head: nat, tail: nat)
    requires node in m0
    requires var prev, next := m0[node].prev, m0[node].next;
             (prev == 0 || prev in m0) && (next == 0 || next in m0) && (prev == next ==> prev == 0)
    ensures Detached(m0, m, m0[node].prev, m0[node].next)
    ensures head == (if m0[node].prev == 0 then m0[node].next else head0)
    ensures tail == (if m0[node].next == 0 then m0[node].prev else tail0)
  {
    m, head, tail := m0, head0, tail0;
    var prev, next := m0[node].prev, m0[node].next;
    if prev != 0 {
      m := m[prev := m[prev].(next := next)];
    } else {
      head := next;
    }
    if next != 0 {
      m := m[next := m[next].(prev := prev)];
    } else {
      tail := prev;
    }
  }

  lemma {:induction false} Neighbours<T>(m: Memory<T>, ns: seq<nat>, i: nat, head: nat, tail: nat)
    requires Threaded(m, ns, head, tail) && Distinct(ns) && 0 !in ns && i < |ns|
    ensures Seat(m, ns, i)
    ensures PrevOf(ns, i) == 0 <==> i == 0
    ensures NextOf(ns, i) == 0 <==> i == |ns| - 1
    ensures PrevOf(ns, i) == 0 || PrevOf(ns, i) in m
    ensures NextOf(ns, i) == 0 || NextOf(ns, i) in m
    ensures PrevOf(ns, i) == NextOf(ns, i) ==> PrevOf(ns, i) == 0
    ensures PrevOf(ns, i) != ns[i] && NextOf(ns, i) != ns[i]
    ensures forall k :: 0 <= k < |ns| ==>
              (ns[k] == PrevOf(ns, i) <==> k == i - 1) && (ns[k] == NextOf(ns, i) <==> k == i + 1)
  {
    assert i > 0 ==> Seat(m, ns, i - 1) && ns[i - 1] in ns;
    assert i < |ns| - 1 ==> Seat(m, ns, i + 1) && ns[i + 1] in ns;
    assert ns[i] in ns;
    forall k | 0 <= k < |ns|
      ensures (ns[k] == PrevOf(ns, i) <==> k == i - 1) && (ns[k] == NextOf(ns, i) <==> k == i + 1)
    {
      assert ns[k] in ns;
    }
  }

  lemma {:induction false} DetachedThread<T>(m: Memory<T>, w: Memory<T>, ns: seq<nat>, i: nat, head: nat, tail: nat)
    requires Threaded(m, ns, head, tail) && Distinct(ns) && 0 !in ns && i < |ns|
    requires Detached(m, w, PrevOf(ns, i), NextOf(ns, i))
    ensures var head1 := if i == 0 then NextOf(ns, i) else head;
            var tail1 := if i == |ns| - 1 then PrevOf(ns, i) else tail;
            Threaded(w, Dropped(ns, i), head1, tail1)
  {
    Neighbours(m, ns, i, head, tail);
    forall k | 0 <= k < |ns| && k != i
      ensures Seat(m, ns, k)
      ensures w[ns[k]].prev == (if k == i + 1 then PrevOf(ns, i) else m[ns[k]].prev)
      ensures w[ns[k]].next == (if k == i - 1 then NextOf(ns, i) else m[ns[k]].next)
    {
      assert Seat(m, ns, k);
    }
    var head1 := if i == 0 then NextOf(ns, i) else head;
    var tail1 := if i == |ns| - 1 then PrevOf(ns, i) else tail;
    ThreadRemove(m, w, ns, i, head, tail, head1, tail1);
  }

  /** The thread after a leaf has been attached to ns[i]: the new node sits just before or just after it. */
  lemma {:induction false} AttachedThread<T>(m: Memory<T>, w: Memory<T>, ns: seq<nat>, i: nat, newnode: nat, left: bool,
          head: nat, tail: nat)
    requires Threaded(m, ns, head, tail) && Distinct(ns) && 0 !in ns && i < |ns| && newnode !in ns && newnode != 0
    requires Attached(m, w, ns[i], newnode, left)
    ensures left ==> Threaded(w, Inserted(ns, i, newnode), if i == 0 then newnode else head, tail)
    ensures !left ==> Threaded(w, Inserted(ns, i + 1, newnode), head, if i == |ns| - 1 then newnode else tail)
  {
    Neighbours(m, ns, i, head, tail);
    var j := if left then i else i + 1;
    forall k | 0 <= k < |ns|
      ensures Seat(m, ns, k)
      ensures w[ns[k]].prev == (if k == j then newnode else m[ns[k]].prev)
      ensures w[ns[k]].next == (if k == j - 1 then newnode else m[ns[k]].next)
    {
      assert Seat(m, ns, k) && ns[k] in ns;
      assert k != i ==> ns[k] != ns[i];
    }
    var head1 := if j == 0 then newnode else head;
    var tail1 := if j == |ns| then newnode else tail;
    ThreadInsert(m, w, ns, j, newnode, head, tail, head1, tail1);
  }
}
