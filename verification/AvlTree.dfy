/** The search tree of src/sc_avl.c: insertion, removal, search and rank queries. */
module AvlTree {
  import opened AvlShape
  import opened AvlBalance
  import opened AvlRotate
  import opened AvlRebalance
  import opened AvlThread
  import AvlDepth

  /** Links, counts and thread all describe the same tree. */
  ghost predicate Whole<T>(m: Memory<T>, head: nat, tail: nat, top: nat, s: Shape) {
    Linked(m, s, 0) && Apart(s) && top == Root(s) && Threaded(m, Order(s), head, tail)
  }

  ghost function Leafy(n: nat): Shape { Branch(Leaf, n, Leaf) }

  /** The tree at the end of the path after a leaf has been attached. */
  ghost function Grown(s: Shape, x: nat, left: bool): Shape
    requires s.Branch?
  {
    if left then Branch(Leafy(x), s.n, s.r) else Branch(s.l, s.n, Leafy(x))
  }

  lemma {:induction false} AttachedStale<T>(m: Memory<T>, w: Memory<T>, top: nat, c: Path, s: Shape, x: nat, left: bool)
    requires Linked(m, Plug(c, s), 0) && Apart(Plug(c, s)) && top == Root(Plug(c, s))
    requires s.Branch? && (if left then s.l.Leaf? else s.r.Leaf?) && x != 0 && x !in Elems(Plug(c, s))
    requires Attached(m, w, s.n, x, left)
    ensures Stale(w, top, c, Grown(s, x, left))
  {
    Open(m, top, c, s);
    ElemsPlug(c, s);
    ApartPlug(c, s);
    RootIn(s);
    AttachedLinks(m, w, s.n, x, left);
    PathFrame(m, w, top, c, s.n);
    GrownApart(s, x, left);
    GrownPending(m, w, s, x, left, Above(c));
  }

  lemma {:induction false} AttachedLinks<T>(m: Memory<T>, w: Memory<T>, node: nat, x: nat, left: bool)
    requires Attached(m, w, node, x, left)
    ensures forall z :: z in m && z != node && z != x ==> SameLinks(m, w, z)
  {
  }

  lemma {:induction false} GrownApart(s: Shape, x: nat, left: bool)
    requires s.Branch? && Apart(s) && (if left then s.l.Leaf? else s.r.Leaf?) && x != 0 && x !in Elems(s)
    ensures Apart(Grown(s, x, left)) && Elems(Grown(s, x, left)) == Elems(s) + {x}
  {
    assert Elems(Leaf) == {} && Apart(Leaf);
    assert Elems(Leafy(x)) == {x} && Apart(Leafy(x));
  }

  lemma {:induction false} GrownPending<T>(m: Memory<T>, w: Memory<T>, s: Shape, x: nat, left: bool, p: nat)
    requires s.Branch? && Apart(s) && (if left then s.l.Leaf? else s.r.Leaf?) && x != 0 && x !in Elems(s)
    requires Linked(m, s, p) && Attached(m, w, s.n, x, left)
    ensures Pending(w, Grown(s, x, left), p)
  {
    AttachedLinks(m, w, s.n, x, left);
    GrownApart(s, x, left);
    LinkedFrame(m, w, s.l, s.n);
    LinkedFrame(m, w, s.r, s.n);
    assert Linked(w, Leaf, x);
    Joined(w, Leaf, x, Leaf, s.n);
  }

  /** Where the node at the end of the path stands in the traversal. */
  ghost function Position(c: Path, s: Shape): nat
    requires s.Branch?
  {
    |Before(c)| + |Order(s.l)|
  }

  lemma {:induction false} PositionIs(c: Path, s: Shape)
    requires s.Branch?
    ensures var ns := Order(Plug(c, s)); var i := Position(c, s);
            i < |ns| && ns[i] == s.n && ns[..i] == Before(c) + Order(s.l) && ns[i + 1..] == Order(s.r) + After(c)
  {
    OrderPlug(c, s);
    Middle(Before(c), Order(s.l), s.n, Order(s.r), After(c), Order(Plug(c, s)));
  }

  lemma {:induction false} Middle(b: seq<nat>, l: seq<nat>, n: nat, r: seq<nat>, a: seq<nat>, ns: seq<nat>)
    requires ns == b + (l + [n] + r) + a
    ensures var i := |b| + |l|; i < |ns| && ns[i] == n && ns[..i] == b + l && ns[i + 1..] == r + a
  {
  }

  lemma {:induction false} InsertedIs(p: seq<nat>, n: nat, q: seq<nat>, x: nat)
    ensures Inserted(p + [n] + q, |p|, x) == p + [x] + [n] + q
    ensures Inserted(p + [n] + q, |p| + 1, x) == p + [n] + [x] + q
  {
    var ns := p + [n] + q;
    assert ns[..|p|] == p && ns[|p|..] == [n] + q && ns[..|p| + 1] == p + [n] && ns[|p| + 1..] == q;
  }

  lemma {:induction false} Flat(b: seq<nat>, l: seq<nat>, n: nat, x: nat, r: seq<nat>, a: seq<nat>)
    ensures b + (l + [n] + r) + a == (b + l) + [n] + (r + a)
    ensures b + ([x] + [n] + r) + a == (b + []) + [x] + [n] + (r + a)
    ensures b + (l + [n] + [x]) + a == (b + l) + [n] + [x] + ([] + a)
  {
  }

  lemma {:induction false} GrownOrder(c: Path, s: Shape, x: nat, left: bool)
    requires s.Branch? && (if left then s.l.Leaf? else s.r.Leaf?)
    ensures var i := Position(c, s);
            && i < |Order(Plug(c, s))|
            && Order(Plug(c, Grown(s, x, left))) == Inserted(Order(Plug(c, s)), if left then i else i + 1, x)
  {
    OrderPlug(c, s);
    OrderPlug(c, Grown(s, x, left));
    InsertedIs(Before(c) + Order(s.l), s.n, Order(s.r) + After(c), x);
    Flat(Before(c), Order(s.l), s.n, x, Order(s.r), After(c));
    assert Order(Leafy(x)) == [x] by { assert Order(Leaf) == []; }
    assert left ==> Order(Grown(s, x, left)) == [x] + [s.n] + Order(s.r);
    assert !left ==> Order(Grown(s, x, left)) == Order(s.l) + [s.n] + [x];
  }

  /** The first node has no left child, the last one no right child. */
  lemma {:induction false} Ends<T>(m: Memory<T>, s: Shape, p: nat)
    requires s.Branch? && Linked(m, s, p)
    ensures var ns := Order(s);
            ns != [] && ns[0] in m && m[ns[0]].left == 0 && ns[|ns| - 1] in m && m[ns[|ns| - 1]].right == 0
  {
    if s.l.Branch? { Ends(m, s.l, s.n); }
    if s.r.Branch? { Ends(m, s.r, s.n); }
  }

  /** A node with a left child comes after one without right child, and the other way round. */
  lemma {:induction false} Beside<T>(m: Memory<T>, c: Path, s: Shape)
    requires s.Branch? && Linked(m, Plug(c, s), 0)
    ensures var ns := Order(Plug(c, s)); var i := Position(c, s);
            && (s.l.Branch? ==> 0 < i <= |ns| && ns[i - 1] in m && m[ns[i - 1]].right == 0)
            && (s.r.Branch? ==> 0 <= i + 1 < |ns| && ns[i + 1] in m && m[ns[i + 1]].left == 0)
  {
    Open(m, Root(Plug(c, s)), c, s);
    PositionIs(c, s);
    var ns, i := Order(Plug(c, s)), Position(c, s);
    if s.l.Branch? {
      Ends(m, s.l, s.n);
      assert ns[i - 1] == ns[..i][i - 1];
    }
    if s.r.Branch? {
      Ends(m, s.r, s.n);
      assert ns[i + 1] == ns[i + 1..][0];
    }
  }

  ghost function IndexOf(ns: seq<nat>, x: nat): (i: nat)
    requires x in ns
    ensures i < |ns| && ns[i] == x
  {
    if ns[0] == x then 0 else 1 + IndexOf(ns[1..], x)
  }

  /** All nodes keep their item. */
  ghost predicate SameItems<T>(m: Memory<T>, w: Memory<T>) {
    m.Keys == w.Keys && forall z :: z in m ==> w[z].item == m[z].item
  }

  /** The subtree at a node of the tree, and its place in the traversal. */
  lemma {:induction false} Locate<T>(m: Memory<T>, head: nat, tail: nat, top: nat, s: Shape, x: nat)
    returns (c: Path, t: Shape)
    requires Whole(m, head, tail, top, s) && x in Order(s)
    ensures Plug(c, t) == s && t.Branch? && t.n == x && Position(c, t) == IndexOf(Order(s), x)
    ensures x in m && m[x].left == Root(t.l) && m[x].right == Root(t.r) && m[x].parent == Above(c)
    ensures Distinct(Order(s)) && 0 !in Order(s) && Apart(t)
  {
    OrderElems(s);
    PathToIs(Top, s, x);
    var (d, u) := PathTo(Top, s, x);
    c, t := d, u;
    PositionIs(c, t);
    ApartDistinct(s);
    Open(m, top, c, t);
    ApartPlug(c, t);
  }

  /** Rebalancing makes a stale tree whole. */
  method Settle<T>(m0: Memory<T>, ghost head: nat, ghost tail: nat, top0: nat, node: nat, ghost c: Path, ghost g: Shape)
    returns (m: Memory<T>, top: nat, ghost s': Shape)
    requires Stale(m0, top0, c, g) && node == g.n && Threaded(m0, Order(Plug(c, g)), head, tail)
    ensures Whole(m, head, tail, top, s') && SameItems(m0, m)
    ensures Order(s') == Order(Plug(c, g)) && s' == RebalanceUp(c, g)
  {
    s' := RebalanceUp(c, g);
    m, top := Rebalance(m0, top0, node, c, g);
    RebalanceKeeps(c, g);
    ApartPlug(c, g);
    SameOrder(Plug(c, g), RebalanceUp(c, g));
    ThreadKept(m0, m, Order(Plug(c, g)), head, tail);
  }

  /** The pointer updates of avl_insert_before or avl_insert_after, up to the rebalancing. */
  method Attach<T>(m0: Memory<T>, head0: nat, tail0: nat, node: nat, newnode: nat, left: bool, ghost ns: seq<nat>,
          ghost i: nat)
    returns (m: Memory<T>, head: nat, tail: nat)
    requires Threaded(m0, ns, head0, tail0) && Distinct(ns) && 0 !in ns && i < |ns| && ns[i] == node
    requires newnode in m0 && newnode != 0 && newnode !in ns
    ensures Attached(m0, m, node, newnode, left) && SameItems(m0, m)
    ensures Threaded(m, Inserted(ns, i + (if left then 0 else 1), newnode), head, tail)
  {
    Neighbours(m0, ns, i, head0, tail0);
    assert i > 0 ==> PrevOf(ns, i) in ns;
    assert i < |ns| - 1 ==> NextOf(ns, i) in ns;
    head, tail := head0, tail0;
    if left {
      m, head := AttachLeft(m0, head0, node, newnode);
    } else {
      m, tail := AttachRight(m0, tail0, node, newnode);
    }
    AttachedThread(m0, m, ns, i, newnode, left, head0, tail0);
  }

  /** After the attachment only the counts are stale. */
  lemma {:induction false} AttachedReady<T>(m: Memory<T>, w: Memory<T>, top: nat, c: Path, t: Shape, x: nat, left: bool,
          head: nat, tail: nat)
    requires Linked(m, Plug(c, t), 0) && Apart(Plug(c, t)) && top == Root(Plug(c, t))
    requires t.Branch? && (if left then t.l.Leaf? else t.r.Leaf?) && x != 0 && x !in Order(Plug(c, t))
    requires Attached(m, w, t.n, x, left)
    ensures Stale(w, top, c, Grown(t, x, left))
    ensures var i := Position(c, t);
            && i < |Order(Plug(c, t))|
            && Order(Plug(c, Grown(t, x, left))) == Inserted(Order(Plug(c, t)), i + (if left then 0 else 1), x)
  {
    OrderElems(Plug(c, t));
    AttachedStale(m, w, top, c, t, x, left);
    GrownOrder(c, t, x, left);
  }

  method HangAt<T>(m0: Memory<T>, head0: nat, tail0: nat, top0: nat, node: nat, newnode: nat, left: bool, ghost c: Path,
          ghost t: Shape, ghost ns: seq<nat>)
    returns (m: Memory<T>, head: nat, tail: nat, top: nat, ghost s': Shape)
    requires Whole(m0, head0, tail0, top0, Plug(c, t)) && t.Branch? && node == t.n
    requires (if left then t.l.Leaf? else t.r.Leaf?)
    requires ns == Order(Plug(c, t)) && Distinct(ns) && 0 !in ns && Position(c, t) < |ns| && ns[Position(c, t)] == node
    requires newnode in m0 && newnode != 0 && newnode !in ns
    ensures Whole(m, head, tail, top, s') && SameItems(m0, m) && s' == RebalanceUp(c, Grown(t, newnode, left))
    ensures Order(s') == Inserted(ns, Position(c, t) + (if left then 0 else 1), newnode)
  {
    m, head, tail := Attach(m0, head0, tail0, node, newnode, left, ns, Position(c, t));
    AttachedReady(m0, m, top0, c, t, newnode, left, head, tail);
    m, top, s' := Settle(m, head, tail, top0, node, c, Grown(t, newnode, left));
  }

  /** A leaf below `node` on a side where it has no child, then the rebalancing. */
  method Hang<T>(m0: Memory<T>, head0: nat, tail0: nat, top0: nat, node: nat, newnode: nat, left: bool, ghost s: Shape)
    returns (m: Memory<T>, head: nat, tail: nat, top: nat, ghost s': Shape)
    requires Whole(m0, head0, tail0, top0, s) && node in Order(s)
    requires newnode in m0 && newnode != 0 && newnode !in Order(s)
    requires node in m0 && (if left then m0[node].left else m0[node].right) == 0
    ensures Whole(m, head, tail, top, s') && SameItems(m0, m)
    ensures Order(s') == Inserted(Order(s), IndexOf(Order(s), node) + (if left then 0 else 1), newnode)
    ensures IsInsert(s, s')
  {
    ghost var c, t := Locate(m0, head0, tail0, top0, s, node);
    Leafless(t);
    m, head, tail, top, s' := HangAt(m0, head0, tail0, top0, node, newnode, left, c, t, Order(s));
    assert Inserts(s, s', c, t, newnode, left);
  }

  /** s' is s with the leaf x attached below t's root and the path rebalanced. */
  ghost predicate Inserts(s: Shape, s': Shape, c: Path, t: Shape, x: nat, left: bool) {
    t.Branch? && (if left then t.l.Leaf? else t.r.Leaf?) && s == Plug(c, t) && s' == RebalanceUp(c, Grown(t, x, left))
  }

  /** What one insertion, wherever it may be, makes of a tree. */
  ghost predicate IsInsert(s: Shape, s': Shape) {
    || (s.Leaf? && exists x :: s' == Leafy(x))
    || exists c, t, x, left :: Inserts(s, s', c, t, x, left)
  }

  lemma {:induction false} InsertKeepsBalance(s: Shape, s': Shape)
    requires IsInsert(s, s') && Balanced(s) && Size(s) + 1 < 0x1_0000_0000
    ensures Balanced(s') && Size(s') == Size(s) + 1
  {
    assert Size(Leaf) == 0;
    if exists c, t, x, left :: Inserts(s, s', c, t, x, left) {
      var c, t, x, left :| Inserts(s, s', c, t, x, left);
      HangBalanced(c, t, x, left);
      GrownOrder(c, t, x, left);
      RebalanceKeeps(c, Grown(t, x, left));
      OrderElems(s);
      OrderElems(s');
    } else {
      var x :| s' == Leafy(x);
      LeafyIs(x);
    }
  }

  /** A run of insertions into an empty tree. */
  ghost predicate InsertRun(run: seq<Shape>) {
    run != [] && run[0].Leaf? && forall i, j :: 0 <= i && j == i + 1 && j < |run| ==> IsInsert(run[i], run[j])
  }

  /** After every insertion the tree is balanced, and no node is deeper than its size allows. */
  lemma {:induction false} InsertRunBalanced(run: seq<Shape>, i: nat)
    requires InsertRun(run) && i < |run| && i < 0x1_0000_0000
    ensures Size(run[i]) == i && Balanced(run[i])
    ensures forall c, t :: run[i] == Plug(c, t) && t.Branch? ==>
              AvlDepth.Pow(5, AvlDepth.Depth(c)) <= AvlDepth.Pow(4, AvlDepth.Depth(c)) * i
  {
    if i > 0 {
      InsertRunBalanced(run, i - 1);
      InsertKeepsBalance(run[i - 1], run[i]);
    }
    forall c, t | run[i] == Plug(c, t) && t.Branch?
      ensures AvlDepth.Pow(5, AvlDepth.Depth(c)) <= AvlDepth.Pow(4, AvlDepth.Depth(c)) * i
    {
      AvlDepth.DepthBound(c, t);
    }
  }

  lemma {:induction false} LeafyIs(x: nat)
    ensures Balanced(Leafy(x)) && Size(Leafy(x)) == 1
  {
    assert Size(Leaf) == 0 && Balanced(Leaf);
    AvlDepth.BranchOf(Leaf, x, Leaf);
  }

  lemma {:induction false} HangBalanced(c: Path, t: Shape, x: nat, left: bool)
    requires t.Branch? && (if left then t.l.Leaf? else t.r.Leaf?)
    ensures Balanced(Plug(c, t)) && Size(Plug(c, t)) + 1 < 0x1_0000_0000 ==> Balanced(RebalanceUp(c, Grown(t, x, left)))
  {
    if Balanced(Plug(c, t)) && Size(Plug(c, t)) + 1 < 0x1_0000_0000 {
      LeafyIs(x);
      AvlDepth.RebalanceRestores(c, t, Grown(t, x, left));
    }
  }

  lemma {:induction false} Leafless(t: Shape)
    requires t.Branch? && Apart(t)
    ensures Root(t.l) == 0 <==> t.l.Leaf?
    ensures Root(t.r) == 0 <==> t.r.Leaf?
  {
  }
}
