/** The search tree object of src/sc_avl.c. */
module SearchTree {
  import opened AvlShape
  import opened AvlBalance
  import opened AvlRotate
  import opened AvlRebalance
  import opened AvlThread
  import opened AvlTree
  import opened AvlUnlink

  // ---------------------------------------------------------------- comparison

  /** A strcmp-like comparison of a strict order. */
  ghost predicate Lawful<T(!new)>(cmp: (T, T) -> int) {
    && (forall x, y :: cmp(x, y) < 0 <==> cmp(y, x) > 0)
    && (forall x, y, z :: cmp(x, y) < 0 && cmp(y, z) < 0 ==> cmp(x, z) < 0)
  }

  ghost predicate Less<T>(cmp: (T, T) -> int, m: Memory<T>, x: nat, y: nat) {
    x in m && y in m && cmp(m[x].item, m[y].item) < 0
  }

  ghost predicate Sorted<T>(cmp: (T, T) -> int, m: Memory<T>, ns: seq<nat>) {
    forall i, j :: 0 <= i < j < |ns| ==> Less(cmp, m, ns[i], ns[j])
  }

  /** item lies strictly between the nodes before position i and those from i on. */
  ghost predicate Between<T>(cmp: (T, T) -> int, m: Memory<T>, ns: seq<nat>, item: T, i: int) {
    Outside(cmp, m, ns, item, i, i)
  }

  /** item is greater than the nodes before position a and smaller than those from b on. */
  ghost predicate Outside<T>(cmp: (T, T) -> int, m: Memory<T>, ns: seq<nat>, item: T, a: int, b: int) {
    && (forall k :: 0 <= k < a && k < |ns| ==> ns[k] in m && cmp(item, m[ns[k]].item) > 0)
    && (forall k :: b <= k < |ns| && 0 <= k ==> ns[k] in m && cmp(item, m[ns[k]].item) < 0)
  }

  lemma {:induction false} SortedInsert<T(!new)>(cmp: (T, T) -> int, m: Memory<T>, w: Memory<T>, ns: seq<nat>, i: nat,
          x: nat)
    requires Lawful(cmp) && Sorted(cmp, m, ns) && SameItems(m, w) && i <= |ns| && x in m
    requires Between(cmp, m, ns, m[x].item, i)
    ensures Sorted(cmp, w, Inserted(ns, i, x))
  {
    var os := Inserted(ns, i, x);
    forall j, k | 0 <= j < k < |os| ensures Less(cmp, w, os[j], os[k]) {
      var a, b := if j < i then j else j - 1, if k < i then k else k - 1;
      assert j != i ==> os[j] == ns[a];
      assert k != i ==> os[k] == ns[b];
      assert j != i && k != i ==> Less(cmp, m, ns[a], ns[b]);
    }
  }

  lemma {:induction false} SortedDrop<T>(cmp: (T, T) -> int, m: Memory<T>, w: Memory<T>, ns: seq<nat>, i: nat)
    requires Sorted(cmp, m, ns) && SameItems(m, w) && i < |ns|
    ensures Sorted(cmp, w, Dropped(ns, i))
  {
    var os := Dropped(ns, i);
    forall j, k | 0 <= j < k < |os| ensures Less(cmp, w, os[j], os[k]) {
      var a, b := if j < i then j else j + 1, if k < i then k else k + 1;
      assert os[j] == ns[a] && os[k] == ns[b] && Less(cmp, m, ns[a], ns[b]);
    }
  }

  /** The search at a node rules out one side of it. */
  lemma {:induction false} SideRuledOut<T(!new)>(cmp: (T, T) -> int, m: Memory<T>, ns: seq<nat>, item: T, i: nat)
    requires Lawful(cmp) && Sorted(cmp, m, ns) && i < |ns| && ns[i] in m
    ensures cmp(item, m[ns[i]].item) < 0 ==> forall k :: i <= k < |ns| ==> ns[k] in m && cmp(item, m[ns[k]].item) < 0
    ensures cmp(item, m[ns[i]].item) > 0 ==> forall k :: 0 <= k <= i ==> ns[k] in m && cmp(item, m[ns[k]].item) > 0
  {
    assert forall k :: i < k < |ns| ==> Less(cmp, m, ns[i], ns[k]);
    assert forall k :: 0 <= k < i ==> Less(cmp, m, ns[k], ns[i]);
  }

  // ---------------------------------------------------------------- whole operations

  /** The rebalancing after a removal. */
  method Finish<T>(m0: Memory<T>, ghost head: nat, ghost tail: nat, top0: nat, balnode: nat, ghost e: Path,
          ghost g: Shape)
    returns (m: Memory<T>, top: nat, ghost s': Shape)
    requires Ready(m0, top0, balnode, e, g) && Apart(Plug(e, g)) && Threaded(m0, Order(Plug(e, g)), head, tail)
    ensures Whole(m, head, tail, top, s') && SameItems(m0, m) && Order(s') == Order(Plug(e, g))
    ensures s' == if balnode == 0 then g else RebalanceUp(e, g)
  {
    if balnode == 0 {
      m, top, s' := m0, top0, g;
    } else {
      m, top, s' := Settle(m0, head, tail, top0, balnode, e, g);
    }
  }

  /** The tree after the node at the end of c has been unlinked. */
  ghost function UnlinkedTree(c: Path, t: Shape): Shape
    requires t.Branch?
  {
    var (e, g) := Unlinked(c, t);
    if g.Leaf? || (c.Top? && (t.l.Leaf? || t.r.Leaf?)) then g else RebalanceUp(e, g)
  }

  method UnlinkAt<T>(m0: Memory<T>, head0: nat, tail0: nat, top0: nat, avlnode: nat, ghost c: Path, ghost t: Shape,
          ghost ns: seq<nat>)
    returns (m: Memory<T>, head: nat, tail: nat, top: nat, ghost s': Shape)
    requires Whole(m0, head0, tail0, top0, Plug(c, t)) && t.Branch? && avlnode == t.n
    requires ns == Order(Plug(c, t)) && Distinct(ns) && 0 !in ns && Position(c, t) < |ns|
    requires ns[Position(c, t)] == avlnode
    ensures Whole(m, head, tail, top, s') && SameItems(m0, m)
    ensures Order(s') == Dropped(ns, Position(c, t)) && s' == UnlinkedTree(c, t)
  {
    ghost var i := Position(c, t);
    Neighbours(m0, ns, i, head0, tail0);
    m, head, tail := Unthread(m0, head0, tail0, avlnode);
    DetachedThread(m0, m, ns, i, head0, tail0);
    Open(m0, top0, c, t);
    UnthreadKeeps(m0, m, top0, c, t, m0[avlnode].prev, m0[avlnode].next);
    if t.l.Branch? { PrevIsLast(c, t); }
    ghost var m1 := m;
    var balnode;
    m, top, balnode := Takeout(m, top0, avlnode, c, t);
    assert balnode == 0 <==> c.Top? && (t.l.Leaf? || t.r.Leaf?);
    DropOrder(c, t);
    DropApart(c, t);
    ThreadKept(m1, m, Dropped(ns, i), head, tail);
    m, top, s' := Finish(m, head, tail, top, balnode, Unlinked(c, t).0, Unlinked(c, t).1);
  }

  /** What the removal of node x makes of a tree. */
  ghost predicate IsUnlink(s: Shape, s': Shape, x: nat) {
    exists c: Path, t: Shape :: t.Branch? && t.n == x && s == Plug(c, t) && s' == UnlinkedTree(c, t)
  }

  method UnlinkFrom<T>(m0: Memory<T>, head0: nat, tail0: nat, top0: nat, avlnode: nat, ghost s: Shape)
    returns (m: Memory<T>, head: nat, tail: nat, top: nat, ghost s': Shape)
    requires Whole(m0, head0, tail0, top0, s) && avlnode in Order(s)
    ensures Whole(m, head, tail, top, s') && SameItems(m0, m)
    ensures Order(s') == Dropped(Order(s), IndexOf(Order(s), avlnode)) && IsUnlink(s, s', avlnode)
  {
    ghost var c, t := Locate(m0, head0, tail0, top0, s, avlnode);
    m, head, tail, top, s' := UnlinkAt(m0, head0, tail0, top0, avlnode, c, t, Order(s));
  }

  lemma {:induction false} UnthreadKeeps<T>(m: Memory<T>, w: Memory<T>, top: nat, c: Path, t: Shape, prev: nat,
          next: nat)
    requires t.Branch? && PathLinked(m, top, c, t.n) && Linked(m, t, Above(c)) && Detached(m, w, prev, next)
    requires t.n != prev && t.n != next
    ensures PathLinked(w, top, c, t.n) && Linked(w, t, Above(c)) && w[t.n] == m[t.n] && SameItems(m, w)
  {
    forall x | x in m ensures SameLinks(m, w, x) && w[x].item == m[x].item { }
    PathFrame(m, w, top, c, t.n);
    LinkedFrame(m, w, t, Above(c));
  }

  // ---------------------------------------------------------------- the tree object

  class Tree<T(!new)> {
    var mem: Memory<T>
    var head: nat
    var tail: nat
    var top: nat
    const cmp: (T, T) -> int
    ghost var shape: Shape

    /** The nodes in order. */
    ghost function Nodes(): seq<nat> reads this { Order(shape) }

    ghost predicate Valid() reads this { Whole(mem, head, tail, top, shape) }

    ghost predicate InOrder() reads this { Lawful(cmp) && Sorted(cmp, mem, Nodes()) }

    /** A node that is allocated and not in the tree. */
    ghost predicate Free(x: nat) reads this { x in mem && x != 0 && x !in Nodes() }

    /** avl_init_tree */
    constructor (cmp: (T, T) -> int, mem: Memory<T>)
      ensures Valid() && Nodes() == [] && shape == Leaf && this.cmp == cmp && this.mem == mem
      ensures Lawful(cmp) ==> InOrder()
    {
      this.cmp, this.mem := cmp, mem;
      head, tail, top := 0, 0, 0;
      shape := Leaf;
    }

    method InsertTop(newnode: nat) returns (r: nat)
      requires newnode in mem && newnode != 0
      modifies this
      ensures Valid() && r == newnode && Nodes() == [newnode] && shape == Leafy(newnode) && SameItems(old(mem), mem)
    {
      mem := mem[newnode := Cleared(mem[newnode])];
      mem := mem[newnode := mem[newnode].(prev := 0, next := 0, parent := 0)];
      head, tail, top := newnode, newnode, newnode;
      shape := Leafy(newnode);
      Single(mem, newnode);
      r := newnode;
    }

    /** Just before node; at the end if node is null. */
    method InsertBefore(node: nat, newnode: nat) returns (r: nat)
      requires Valid() && Free(newnode) && (node == 0 || node in Nodes())
      modifies this
      ensures Valid() && r == newnode && SameItems(old(mem), mem)
      ensures var i := if node == 0 then |old(Nodes())| else IndexOf(old(Nodes()), node);
              Nodes() == Inserted(old(Nodes()), i, newnode)
      ensures IsInsert(old(shape), shape)
      decreases if node == 0 then 2 else if node in mem && mem[node].left != 0 then 1 else 0, 1
    {
      if node == 0 {
        r := InsertLast(newnode);
        return;
      }
      ghost var i := IndexOf(Nodes(), node);
      NodeFacts(mem, head, tail, top, shape, node);
      if mem[node].left != 0 {
        var prev := mem[node].prev;
        assert IndexOf(Nodes(), prev) == i - 1;
        r := InsertAfter(prev, newnode);
      } else {
        mem, head, tail, top, shape := Hang(mem, head, tail, top, node, newnode, true, shape);
        r := newnode;
      }
    }

    /** The case of no node to insert before: after the last one. */
    method InsertLast(newnode: nat) returns (r: nat)
      requires Valid() && Free(newnode)
      modifies this
      ensures Valid() && r == newnode && SameItems(old(mem), mem)
      ensures Nodes() == Inserted(old(Nodes()), |old(Nodes())|, newnode) && IsInsert(old(shape), shape)
      decreases 1, 2
    {
      if tail != 0 {
        LastFacts(mem, head, tail, top, shape);
        r := InsertAfter(tail, newnode);
      } else {
        NoTail(mem, head, tail, top, shape);
        r := InsertTop(newnode);
      }
    }

    /** Just after node; at the front if node is null. */
    method InsertAfter(node: nat, newnode: nat) returns (r: nat)
      requires Valid() && Free(newnode) && (node == 0 || node in Nodes())
      modifies this
      ensures Valid() && r == newnode && SameItems(old(mem), mem)
      ensures Nodes() == Inserted(old(Nodes()), if node == 0 then 0 else IndexOf(old(Nodes()), node) + 1, newnode)
      ensures IsInsert(old(shape), shape)
      decreases if node == 0 then 2 else if node in mem && mem[node].right != 0 then 1 else 0, 1
    {
      if node == 0 {
        r := InsertFirst(newnode);
        return;
      }
      ghost var i := IndexOf(Nodes(), node);
      NodeFacts(mem, head, tail, top, shape, node);
      if mem[node].right != 0 {
        var next := mem[node].next;
        assert IndexOf(Nodes(), next) == i + 1;
        r := InsertBefore(next, newnode);
      } else {
        mem, head, tail, top, shape := Hang(mem, head, tail, top, node, newnode, false, shape);
        r := newnode;
      }
    }

    /** The case of no node to insert after: before the first one. */
    method InsertFirst(newnode: nat) returns (r: nat)
      requires Valid() && Free(newnode)
      modifies this
      ensures Valid() && r == newnode && SameItems(old(mem), mem)
      ensures Nodes() == Inserted(old(Nodes()), 0, newnode) && IsInsert(old(shape), shape)
      decreases 1, 2
    {
      if head != 0 {
        LastFacts(mem, head, tail, top, shape);
        r := InsertBefore(head, newnode);
      } else {
        NoTail(mem, head, tail, top, shape);
        r := InsertTop(newnode);
      }
    }

    /**
     The node that equals item, or else one next to which item belongs: r < 0 when item is
     smaller than that node, r > 0 when it is greater.
     */
    method SearchClosest(item: T) returns (node: nat, r: int)
      requires Valid() && InOrder()
      ensures node == 0 <==> Nodes() == []
      ensures node == 0 ==> r == 0
      ensures node != 0 ==> Closest(cmp, mem, Nodes(), item, node, r)
    {
      NoTop(mem, head, tail, top, shape);
      node, r := top, 0;
      if node != 0 {
        node, r := Descend(cmp, mem, top, item, shape, Nodes());
      }
    }

    /** Null, and nothing changed, exactly when an equal item is there already. */
    method InsertNode(newnode: nat) returns (r: nat)
      requires Valid() && InOrder() && Free(newnode)
      modifies this
      ensures Valid() && InOrder() && SameItems(old(mem), mem)
      ensures r == 0 <==> old(HasEqual(cmp, mem, Nodes(), mem[newnode].item))
      ensures r == 0 ==> mem == old(mem) && head == old(head) && tail == old(tail) && top == old(top)
      ensures r == 0 ==> shape == old(shape)
      ensures r != 0 ==> r == newnode && Extends(old(Nodes()), Nodes(), newnode)
      ensures r != 0 ==> IsInsert(old(shape), shape)
    {
      NoTop(mem, head, tail, top, shape);
      if top == 0 {
        r := InsertOnly(newnode);
        return;
      }
      var node, side := SearchClosest(mem[newnode].item);
      EqualOrNot(cmp, mem, Nodes(), mem[newnode].item, node, side);
      r := 0;
      if side == -1 {
        r := InsertBelow(node, newnode);
      } else if side == 1 {
        r := InsertAbove(node, newnode);
      }
    }

    /** The new node is the first one. */
    method InsertOnly(newnode: nat) returns (r: nat)
      requires Valid() && InOrder() && Free(newnode) && Nodes() == []
      modifies this
      ensures Valid() && InOrder() && SameItems(old(mem), mem) && r == newnode
      ensures Extends(old(Nodes()), Nodes(), newnode) && IsInsert(old(shape), shape)
    {
      OrderElems(shape);
      r := InsertTop(newnode);
      Extended(old(Nodes()), 0, newnode, Nodes());
    }

    /** The new item belongs just below that of node, or just above it. */
    method InsertBelow(node: nat, newnode: nat) returns (r: nat)
      requires Valid() && InOrder() && Free(newnode) && node != 0
      requires Closest(cmp, mem, Nodes(), mem[newnode].item, node, -1)
      modifies this
      ensures Valid() && InOrder() && SameItems(old(mem), mem) && r == newnode
      ensures Extends(old(Nodes()), Nodes(), newnode) && IsInsert(old(shape), shape)
    {
      r := InsertBefore(node, newnode);
      Placed(cmp, old(mem), mem, old(Nodes()), IndexOf(old(Nodes()), node), newnode, Nodes());
    }

    method InsertAbove(node: nat, newnode: nat) returns (r: nat)
      requires Valid() && InOrder() && Free(newnode) && node != 0
      requires Closest(cmp, mem, Nodes(), mem[newnode].item, node, 1)
      modifies this
      ensures Valid() && InOrder() && SameItems(old(mem), mem) && r == newnode
      ensures Extends(old(Nodes()), Nodes(), newnode) && IsInsert(old(shape), shape)
    {
      r := InsertAfter(node, newnode);
      Placed(cmp, old(mem), mem, old(Nodes()), IndexOf(old(Nodes()), node) + 1, newnode, Nodes());
    }

    method UnlinkNode(avlnode: nat)
      requires Valid() && avlnode in Nodes()
      modifies this
      ensures Valid() && Nodes() == Dropped(old(Nodes()), IndexOf(old(Nodes()), avlnode)) && SameItems(old(mem), mem)
      ensures old(InOrder()) ==> InOrder()
      ensures IsUnlink(old(shape), shape, avlnode)
    {
      mem, head, tail, top, shape := UnlinkFrom(mem, head, tail, top, avlnode, shape);
      if old(InOrder()) {
        SortedDrop(cmp, old(mem), mem, old(Nodes()), IndexOf(old(Nodes()), avlnode));
      }
    }

    /** avl_count */
    method Count() returns (n: nat)
      requires Valid()
      ensures n == |Nodes()|
    {
      OrderElems(shape);
      RootIs(mem, shape, 0);
      n := NodeCount(mem, top);
    }

    /** The node of rank u. */
    method At(u: nat) returns (node: nat)
      requires Valid()
      ensures node == if u < |Nodes()| then Nodes()[u] else 0
    {
      node := Select(mem, top, u, shape);
    }

    /** The rank of a node. */
    method Index(avlnode: nat) returns (c: nat)
      requires Valid() && avlnode in Nodes()
      ensures c < |Nodes()| && Nodes()[c] == avlnode && c == IndexOf(Nodes(), avlnode)
    {
      ghost var p, t := Locate(mem, head, tail, top, shape, avlnode);
      c := Rank(mem, top, avlnode, p, t);
    }

    /** avl_to_array: the items in order. */
    method ToArray() returns (items: seq<T>)
      requires Valid()
      ensures |items| == |Nodes()| && forall k :: 0 <= k < |items| ==>
                Nodes()[k] in mem && items[k] == mem[Nodes()[k]].item
    {
      items := [];
      if top != 0 {
        items := Foreach(mem, top, [], shape, 0);
      }
      Itemised(mem, shape, 0);
    }
  }

  /** The items of a subtree in order. */
  ghost function Items<T>(m: Memory<T>, s: Shape): seq<T>
    requires Elems(s) <= m.Keys
  {
    if s.Leaf? then [] else Items(m, s.l) + [m[s.n].item] + Items(m, s.r)
  }

  lemma {:induction false} Itemised<T>(m: Memory<T>, s: Shape, p: nat)
    requires Linked(m, s, p)
    ensures Elems(s) <= m.Keys && |Items(m, s)| == |Order(s)|
    ensures forall k :: 0 <= k < |Order(s)| ==> Order(s)[k] in m && Items(m, s)[k] == m[Order(s)[k]].item
  {
    if s.Branch? {
      Itemised(m, s.l, s.n);
      Itemised(m, s.r, s.n);
    }
  }

  /** avl_foreach_recursion with the callback that fills the array. */
  method Foreach<T>(m: Memory<T>, node: nat, acc: seq<T>, ghost s: Shape, ghost p: nat) returns (items: seq<T>)
    requires Linked(m, s, p) && Apart(s) && s.Branch? && node == s.n
    ensures Elems(s) <= m.Keys && items == acc + Items(m, s)
    decreases s
  {
    Itemised(m, s, p);
    Leafless(s);
    items := acc;
    if m[node].left != 0 {
      items := Foreach(m, m[node].left, items, s.l, s.n);
    }
    items := items + [m[node].item];
    if m[node].right != 0 {
      items := Foreach(m, m[node].right, items, s.r, s.n);
    }
  }

  /** The loop of avl_at. */
  method Select<T>(m: Memory<T>, top: nat, u0: nat, ghost s: Shape) returns (node: nat)
    requires Linked(m, s, 0) && Apart(s) && top == Root(s)
    ensures node == if u0 < |Order(s)| then Order(s)[u0] else 0
  {
    node := top;
    var u: nat := u0;
    ghost var t, p := s, 0;
    while node != 0
      invariant Linked(m, t, p) && Apart(t) && node == Root(t)
      invariant u0 < |Order(s)| <==> u < |Order(t)|
      invariant u < |Order(t)| ==> Order(t)[u] == Order(s)[u0]
      decreases t
    {
      OrderElems(t.l);
      RootIs(m, t.l, t.n);
      var c := NodeCount(m, m[node].left);
      if u < c {
        node := m[node].left;
        t, p := t.l, t.n;
      } else if u > c {
        node := m[node].right;
        u := u - (c + 1);
        t, p := t.r, t.n;
      } else {
        return;
      }
    }
  }

  /** The loop of avl_index. */
  method Rank<T>(m: Memory<T>, ghost top: nat, avlnode: nat, ghost p0: Path, ghost t0: Shape) returns (c: nat)
    requires t0.Branch? && Linked(m, Plug(p0, t0), 0) && Apart(Plug(p0, t0)) && top == Root(Plug(p0, t0))
    requires avlnode == t0.n
    ensures c == Position(p0, t0)
  {
    Open(m, top, p0, t0);
    ApartPlug(p0, t0);
    OrderElems(t0.l);
    RootIs(m, t0.l, t0.n);
    c := NodeCount(m, m[avlnode].left);
    var node := avlnode;
    ghost var p := p0;
    while m[node].parent != 0
      invariant node in m && node != 0 && PathLinked(m, top, p, node) && PathApart(p) && node !in PathElems(p)
      invariant m[node].parent == Above(p) && Position(p0, t0) == |Before(p)| + c
      decreases p
    {
      var next := m[node].parent;
      RankStep(m, top, p, node);
      if node == m[next].right {
        c := c + NodeCount(m, m[next].left) + 1;
      }
      node := next;
      p := p.up;
    }
    AboveIn(p);
    assert Above(p) == 0;
    NoAbove(p);
  }

  lemma {:induction false} NoAbove(p: Path)
    requires PathApart(p) && Above(p) == 0
    ensures p.Top? && Before(p) == []
  {
  }

  lemma {:induction false} RankStep<T>(m: Memory<T>, top: nat, p: Path, node: nat)
    requires PathLinked(m, top, p, node) && PathApart(p) && node !in PathElems(p) && node != 0 && Above(p) != 0
    ensures !p.Top? && p.n == Above(p) && p.n in m && p.n !in PathElems(p.up)
    ensures PathLinked(m, top, p.up, p.n) && m[p.n].parent == Above(p.up) && PathApart(p.up) && p.n != 0
    ensures node == m[p.n].right <==> p.InRight?
    ensures |Before(p)| == |Before(p.up)| + (if p.InRight? then NodeCount(m, m[p.n].left) + 1 else 0)
  {
    if p.InRight? {
      RootIs(m, p.l, p.n);
      OrderElems(p.l);
    } else {
      RootIs(m, p.r, p.n);
    }
  }

  lemma {:induction false} NoTop<T>(m: Memory<T>, head: nat, tail: nat, top: nat, s: Shape)
    requires Whole(m, head, tail, top, s)
    ensures top == 0 <==> Order(s) == []
    ensures 0 !in Order(s) && forall x :: x in Order(s) ==> x in m
  {
    ApartDistinct(s);
    forall x | x in Order(s) ensures x in m {
      assert Seat(m, Order(s), IndexOf(Order(s), x));
    }
  }

  /** item belongs immediately before or after the given node. */
  ghost predicate Closest<T>(cmp: (T, T) -> int, m: Memory<T>, ns: seq<nat>, item: T, node: nat, r: int) {
    && node in ns && node in m && -1 <= r <= 1
    && (r == 0 ==> cmp(item, m[node].item) == 0)
    && (r == -1 ==> m[node].left == 0 && Between(cmp, m, ns, item, IndexOf(ns, node)))
    && (r == 1 ==> m[node].right == 0 && Between(cmp, m, ns, item, IndexOf(ns, node) + 1))
  }

  /** Some node has an equal item. */
  ghost predicate HasEqual<T>(cmp: (T, T) -> int, m: Memory<T>, ns: seq<nat>, item: T) {
    exists k :: 0 <= k < |ns| && ns[k] in m && cmp(item, m[ns[k]].item) == 0
  }

  /** os is ns with x somewhere in it. */
  ghost predicate Extends(ns: seq<nat>, os: seq<nat>, x: nat) {
    exists i :: 0 <= i <= |ns| && os == Inserted(ns, i, x)
  }

  lemma {:induction false} Extended(ns: seq<nat>, i: nat, x: nat, os: seq<nat>)
    requires i <= |ns| && os == ns[..i] + [x] + ns[i..]
    ensures os == Inserted(ns, i, x) && Extends(ns, os, x)
  {
  }

  /** A node at its place in the order. */
  lemma {:induction false} Placed<T(!new)>(cmp: (T, T) -> int, m: Memory<T>, w: Memory<T>, ns: seq<nat>, i: nat, x: nat,
          os: seq<nat>)
    requires Lawful(cmp) && Sorted(cmp, m, ns) && SameItems(m, w) && i <= |ns| && os == Inserted(ns, i, x)
    requires x in m && Between(cmp, m, ns, m[x].item, i)
    ensures Sorted(cmp, w, os) && Extends(ns, os, x)
  {
    SortedInsert(cmp, m, w, ns, i, x);
    Extended(ns, i, x, os);
  }

  lemma {:induction false} EqualOrNot<T>(cmp: (T, T) -> int, m: Memory<T>, ns: seq<nat>, item: T, node: nat, r: int)
    requires Closest(cmp, m, ns, item, node, r)
    ensures HasEqual(cmp, m, ns, item) <==> r == 0
  {
    if r == 0 { assert ns[IndexOf(ns, node)] == node; }
  }

  /** The loop of avl_search_closest. */
  method Descend<T(!new)>(cmp: (T, T) -> int, m: Memory<T>, top: nat, item: T, ghost s: Shape, ghost ns: seq<nat>)
    returns (node: nat, r: int)
    requires s.Branch? && Linked(m, s, 0) && Apart(s) && top == Root(s) && ns == Order(s) && Lawful(cmp)
    requires Sorted(cmp, m, ns)
    ensures Closest(cmp, m, ns, item, node, r)
  {
    node, r := top, 0;
    ghost var c, t := Top, s;
    var searching := true;
    while searching
      invariant searching ==>
               Plug(c, t) == s && t.Branch? && node == t.n && Outside(cmp, m, ns, item, |Before(c)|, |ns| - |After(c)|)
      invariant !searching ==> Closest(cmp, m, ns, item, node, r)
      decreases searching, t
    {
      SearchStep(cmp, m, top, c, t, item, ns);
      var d := cmp(item, m[node].item);
      if d < 0 {
        if m[node].left != 0 {
          node := m[node].left;
          c, t := InLeft(c, t.n, t.r), t.l;
        } else {
          r, searching := -1, false;
        }
      } else if d > 0 {
        if m[node].right != 0 {
          node := m[node].right;
          c, t := InRight(c, t.l, t.n), t.r;
        } else {
          r, searching := 1, false;
        }
      } else {
        r, searching := 0, false;
      }
    }
  }

  /** The counts of nodes on both sides of the node at the end of a path. */
  lemma {:induction false} Sides(c: Path, t: Shape)
    requires t.Branch? && Apart(Plug(c, t))
    ensures var ns, i := Order(Plug(c, t)), Position(c, t);
            && i < |ns| && t.n in ns && IndexOf(ns, t.n) == i && ns[i] == t.n
            && |Before(InLeft(c, t.n, t.r))| == |Before(c)| && |After(InLeft(c, t.n, t.r))| == |ns| - i
            && |Before(InRight(c, t.l, t.n))| == i + 1 && |After(InRight(c, t.l, t.n))| == |After(c)|
            && (t.l.Leaf? ==> i == |Before(c)|) && (t.r.Leaf? ==> i + 1 == |ns| - |After(c)|)
  {
    PositionIs(c, t);
    OrderPlug(c, t);
    ApartDistinct(Plug(c, t));
    IndexIs(Order(Plug(c, t)), Position(c, t));
    assert Order(Leaf) == [];
  }

  lemma {:induction false} SearchStep<T(!new)>(cmp: (T, T) -> int, m: Memory<T>, top: nat, c: Path, t: Shape, item: T,
          ns: seq<nat>)
    requires t.Branch? && Linked(m, Plug(c, t), 0) && Apart(Plug(c, t)) && top == Root(Plug(c, t))
    requires ns == Order(Plug(c, t))
    requires Lawful(cmp) && Sorted(cmp, m, ns) && Outside(cmp, m, ns, item, |Before(c)|, |ns| - |After(c)|)
    ensures var i := Position(c, t);
            && t.n in m && m[t.n].left == Root(t.l) && m[t.n].right == Root(t.r)
            && (Root(t.l) == 0 <==> t.l.Leaf?) && (Root(t.r) == 0 <==> t.r.Leaf?)
            && i < |ns| && t.n in ns && IndexOf(ns, t.n) == i
            && (cmp(item, m[t.n].item) < 0 ==> Outside(cmp, m, ns, item, |Before(c)|, i))
            && (cmp(item, m[t.n].item) > 0 ==> Outside(cmp, m, ns, item, i + 1, |ns| - |After(c)|))
            && |Before(InLeft(c, t.n, t.r))| == |Before(c)| && |After(InLeft(c, t.n, t.r))| == |ns| - i
            && |Before(InRight(c, t.l, t.n))| == i + 1 && |After(InRight(c, t.l, t.n))| == |After(c)|
            && (t.l.Leaf? ==> i == |Before(c)|) && (t.r.Leaf? ==> i + 1 == |ns| - |After(c)|)
  {
    Open(m, top, c, t);
    ApartPlug(c, t);
    Leafless(t);
    Sides(c, t);
    SideRuledOut(cmp, m, ns, item, Position(c, t));
  }

  lemma {:induction false} Single<T>(m: Memory<T>, x: nat)
    requires x in m && x != 0 && m[x].left == 0 && m[x].right == 0 && m[x].parent == 0 && m[x].prev == 0
    requires m[x].next == 0 && m[x].count == 1
    ensures Whole(m, x, x, x, Leafy(x)) && Order(Leafy(x)) == [x] && Balanced(Leafy(x))
  {
    assert Order(Leaf) == [] && Size(Leaf) == 0 && Elems(Leaf) == {} && Linked(m, Leaf, x) && Apart(Leaf)
      && Root(Leaf) == 0;
    Joined(m, Leaf, x, Leaf, 0);
    assert Order(Leafy(x)) == [x];
    assert Seat(m, [x], 0);
  }

  lemma {:induction false} NoTail<T>(m: Memory<T>, head: nat, tail: nat, top: nat, s: Shape)
    requires Whole(m, head, tail, top, s) && (head == 0 || tail == 0)
    ensures Order(s) == [] && s.Leaf?
  {
    ApartDistinct(s);
    assert Order(s) != [] ==> head in Order(s) && tail in Order(s);
    OrderElems(s);
  }

  lemma {:induction false} IndexIs(ns: seq<nat>, i: nat)
    requires i < |ns| && Distinct(ns)
    ensures ns[i] in ns && IndexOf(ns, ns[i]) == i
  {
    var j := IndexOf(ns, ns[i]);
    assert ns[j] == ns[i];
  }

  lemma {:induction false} LastFacts<T>(m: Memory<T>, head: nat, tail: nat, top: nat, s: Shape)
    requires Whole(m, head, tail, top, s) && (head != 0 || tail != 0)
    ensures var ns := Order(s);
            && ns != [] && head in ns && tail in ns && IndexOf(ns, head) == 0 && IndexOf(ns, tail) == |ns| - 1
            && head in m && m[head].left == 0 && tail in m && m[tail].right == 0 && head != 0 && tail != 0
  {
    ApartDistinct(s);
    var ns := Order(s);
    Ends(m, s, 0);
    IndexIs(ns, 0);
    IndexIs(ns, |ns| - 1);
  }

  /** A node with a left child has a predecessor without a right one, and the other way round. */
  lemma {:induction false} NodeFacts<T>(m: Memory<T>, head: nat, tail: nat, top: nat, s: Shape, x: nat)
    requires Whole(m, head, tail, top, s) && x in Order(s)
    ensures var ns := Order(s); var i := IndexOf(ns, x);
            && x in m
            && (m[x].left != 0 ==> var y := m[x].prev;
               y in ns && y != 0 && IndexOf(ns, y) == i - 1 && y in m && m[y].right == 0)
            && (m[x].right != 0 ==> var y := m[x].next;
               y in ns && y != 0 && IndexOf(ns, y) == i + 1 && y in m && m[y].left == 0)
  {
    var c, t := Locate(m, head, tail, top, s, x);
    var ns, i := Order(s), IndexOf(Order(s), x);
    Leafless(t);
    Beside(m, c, t);
    Neighbours(m, ns, i, head, tail);
    if t.l.Branch? { IndexIs(ns, i - 1); }
    if t.r.Branch? { IndexIs(ns, i + 1); }
  }
}
