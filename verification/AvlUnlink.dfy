/** avl_unlink_node of src/sc_avl.c: the three ways to take a node out of the tree. */
module AvlUnlink {
  import opened AvlShape
  import opened AvlBalance
  import opened AvlRotate
  import opened AvlRebalance
  import opened AvlThread
  import opened AvlTree

  // ---------------------------------------------------------------- trees

  /** The last node of a tree, its left subtree, its parent, and the tree without it. */
  ghost function LastNode(s: Shape): nat
    requires s.Branch?
  {
    if s.r.Leaf? then s.n else LastNode(s.r)
  }

  ghost function LastLeft(s: Shape): Shape
    requires s.Branch?
  {
    if s.r.Leaf? then s.l else LastLeft(s.r)
  }

  ghost function LastParent(s: Shape): nat
    requires s.Branch? && s.r.Branch?
  {
    if s.r.r.Leaf? then s.n else LastParent(s.r)
  }

  ghost function Trim(s: Shape): Shape
    requires s.Branch?
  {
    if s.r.Leaf? then s.l else Branch(s.l, s.n, Trim(s.r))
  }

  /** Where the rebalancing starts when the last node of s, below base, has been taken away. */
  ghost function Cut(base: Path, s: Shape): (Path, Shape)
    requires s.Branch? && s.r.Branch?
    decreases s
  {
    if s.r.r.Leaf? then (base, Branch(s.l, s.n, s.r.l)) else Cut(InRight(base, s.l, s.n), s.r)
  }

  lemma {:induction false} TrimOrder(s: Shape)
    requires s.Branch?
    ensures Order(s) == Order(Trim(s)) + [LastNode(s)]
  {
    if s.r.Branch? {
      TrimOrder(s.r);
      assert Order(s.l) + [s.n] + (Order(Trim(s.r)) + [LastNode(s.r)])
        == (Order(s.l) + [s.n] + Order(Trim(s.r))) + [LastNode(s.r)];
    } else {
      assert Order(s.r) == [];
    }
  }

  lemma {:induction false} CutPlug(base: Path, s: Shape)
    requires s.Branch? && s.r.Branch?
    ensures var (e, g) := Cut(base, s); g.Branch? && g.n == LastParent(s) && Plug(e, g) == Plug(base, Trim(s))
    decreases s
  {
    if s.r.r.Branch? {
      CutPlug(InRight(base, s.l, s.n), s.r);
    } else {
      assert Trim(s.r) == s.r.l;
    }
  }

  lemma {:induction false} LastElems(s: Shape)
    requires s.Branch? && Apart(s)
    ensures LastNode(s) in Elems(s) && Elems(LastLeft(s)) <= Elems(s) && Apart(LastLeft(s))
    ensures LastNode(s) !in Elems(LastLeft(s))
    ensures s.r.Branch? ==>
              && LastParent(s) in Elems(s) && LastParent(s) != LastNode(s) && LastParent(s) !in Elems(LastLeft(s))
              && s.n != LastNode(s) && s.n !in Elems(LastLeft(s))
              && LastNode(s) in Elems(s.r) && Elems(LastLeft(s)) <= Elems(s.r)
              && (s.r.r.Branch? ==> LastParent(s) in Elems(s.r) && LastParent(s) != s.n)
  {
    RootIn(s);
    if s.r.Branch? {
      LastElems(s.r);
      RootIn(s.r);
    }
  }

  lemma {:induction false} LastLinked<T>(m: Memory<T>, s: Shape, p: nat)
    requires s.Branch? && Linked(m, s, p)
    ensures var y := LastNode(s);
            y in m && m[y].left == Root(LastLeft(s)) && m[y].right == 0 && Linked(m, LastLeft(s), y)
    ensures s.r.Branch? ==> m[LastNode(s)].parent == LastParent(s) && LastParent(s) in m
    ensures s.r.Leaf? ==> m[LastNode(s)].parent == p
  {
    if s.r.Branch? { LastLinked(m, s.r, s.n); }
  }

  // ---------------------------------------------------------------- the links below the substitute

  /** Between m and w the last node of s has left, and its left subtree has moved to its parent. */
  ghost predicate Lifted<T>(m: Memory<T>, w: Memory<T>, s: Shape) {
    && s.Branch? && s.r.Branch? && w.Keys == m.Keys
    && var y, q, z := LastNode(s), LastParent(s), Root(LastLeft(s));
    && q in m && w[q].left == m[q].left && w[q].right == z && (q != s.n ==> w[q].parent == m[q].parent)
    && (z != 0 ==> z in m && w[z] == m[z].(parent := q))
    && (s.n != q ==> s.n in m && w[s.n].left == m[s.n].left && w[s.n].right == m[s.n].right)
    && forall x :: x in Elems(s) && x in m && x != s.n && x != q && x != y && (x == 0 || x != z) ==> SameLinks(m, w, x)
  }

  lemma {:induction false} CutStale<T>(m: Memory<T>, w: Memory<T>, top: nat, base: Path, s: Shape, p: nat)
    requires s.Branch? && s.r.Branch? && Apart(s) && Linked(m, s, p) && Lifted(m, w, s)
    requires PathLinked(w, top, base, s.n) && w[s.n].parent == Above(base)
    ensures var (e, g) := Cut(base, s);
            && g.Branch? && g.n in w && PathLinked(w, top, e, g.n) && w[g.n].parent == Above(e)
            && w[g.n].left == Root(g.l) && w[g.n].right == Root(g.r) && Linked(w, g.l, g.n) && Linked(w, g.r, g.n)
    decreases s
  {
    LastElems(s);
    LastElems(s.r);
    LastLinked(m, s, p);
    RootIn(LastLeft(s));
    LinkedFrame(m, w, s.l, s.n);
    if s.r.r.Leaf? {
      assert LastParent(s) == s.n && LastLeft(s) == s.r.l && LastNode(s) == s.r.n;
      LinkedAdopt(m, w, s.r.l, s.r.n, s.n);
    } else {
      assert w[s.r.n].parent == s.n;
      CutStale(m, w, top, InRight(base, s.l, s.n), s.r, s.n);
    }
  }

  // ---------------------------------------------------------------- pointer updates

  /** The nodes after the substitute y has taken over the children left and right below p. */
  ghost predicate Substituted<T>(m: Memory<T>, w: Memory<T>, y: nat, q: nat, z: nat, left: nat, right: nat, p: nat) {
    && w.Keys == m.Keys && y in m && right in m && left in m
    && w[right] == m[right].(parent := y)
    && w[y] == m[y].(left := if y == left then m[y].left else left, right := right, parent := p)
    && (y != left ==>
          && q in m && w[q] == (if q == left then m[q].(right := z, parent := y) else m[q].(right := z))
          && (q != left ==> w[left] == m[left].(parent := y))
          && (z != 0 ==> z in m && w[z] == m[z].(parent := q)))
    && forall x :: x in m && x != y && x != right && (y != left ==> x != left && x != q && (x == 0 || x != z)) ==>
          w[x] == m[x]
  }

  method Substitute<T>(m0: Memory<T>, subst: nat, left: nat, right: nat, parent: nat)
    returns (m: Memory<T>, balnode: nat)
    requires subst in m0 && left in m0 && right in m0 && right != left && right != subst
    requires subst != left ==>
               var q, z := m0[subst].parent, m0[subst].left;
               && q in m0 && q != subst && q != right
               && (z != 0 ==> z in m0 && z != q && z != left && z != right && z != subst)
    ensures Substituted(m0, m, subst, m0[subst].parent, m0[subst].left, left, right, parent)
    ensures balnode == if subst == left then subst else m0[subst].parent
  {
    m := m0;
    if subst == left {
      balnode := subst;
    } else {
      balnode := m[subst].parent;
      m := SetRight(m, balnode, m[subst].left);
      if m[balnode].right != 0 {
        m := SetParent(m, m[balnode].right, balnode);
      }
      m := SetLeft(m, subst, left);
      m := SetParent(m, left, subst);
    }
    m := SetRight(m, subst, right);
    m := SetParent(m, subst, parent);
    m := SetParent(m, right, subst);
  }

  // ---------------------------------------------------------------- what is left of the order

  lemma {:induction false} DroppedIs(ns: seq<nat>, os: seq<nat>, b: seq<nat>, l: seq<nat>, n: nat, r: seq<nat>,
          a: seq<nat>, i: nat)
    requires ns == b + (l + [n] + r) + a && os == b + (l + r) + a && i == |b| + |l|
    ensures i < |ns| && os == Dropped(ns, i)
  {
    assert ns[..i] == b + l && ns[i + 1..] == r + a;
  }

  lemma {:induction false} DroppedDistinct(ns: seq<nat>, i: nat)
    requires Distinct(ns) && 0 !in ns && i < |ns|
    ensures Distinct(Dropped(ns, i)) && 0 !in Dropped(ns, i)
  {
    var os := Dropped(ns, i);
    forall k | 0 <= k < |os| ensures os[k] == ns[if k < i then k else k + 1] { }
  }

  /** The tree with t's root replaced by the last node of its left subtree, or by its only child. */
  ghost function Joint(l: Shape, r: Shape): Shape {
    if l.Leaf? then r else if r.Leaf? then l else Branch(Trim(l), LastNode(l), r)
  }

  lemma {:induction false} JointOrder(l: Shape, r: Shape)
    ensures Order(Joint(l, r)) == Order(l) + Order(r)
  {
    assert Order(Leaf) == [];
    if l.Branch? { TrimOrder(l); }
  }

  lemma {:induction false} DropBy(c: Path, t: Shape, u: Shape)
    requires t.Branch? && Order(u) == Order(t.l) + Order(t.r)
    ensures Position(c, t) < |Order(Plug(c, t))| && Order(Plug(c, u)) == Dropped(Order(Plug(c, t)), Position(c, t))
  {
    OrderPlug(c, t);
    OrderPlug(c, u);
    DroppedIs(Order(Plug(c, t)), Order(Plug(c, u)), Before(c), Order(t.l), t.n, Order(t.r), After(c), Position(c, t));
  }

  lemma {:induction false} DropOrder(c: Path, t: Shape)
    requires t.Branch?
    ensures Position(c, t) < |Order(Plug(c, t))|
    ensures Order(Plug(c, Joint(t.l, t.r))) == Dropped(Order(Plug(c, t)), Position(c, t))
  {
    JointOrder(t.l, t.r);
    DropBy(c, t, Joint(t.l, t.r));
  }

  lemma {:induction false} DropApart(c: Path, t: Shape)
    requires t.Branch? && Apart(Plug(c, t))
    ensures Apart(Plug(c, Joint(t.l, t.r)))
  {
    DropOrder(c, t);
    ApartDistinct(Plug(c, t));
    DroppedDistinct(Order(Plug(c, t)), Position(c, t));
    DistinctApart(Plug(c, Joint(t.l, t.r)));
  }

  // ---------------------------------------------------------------- the three cases

  /** The tree is ready for the rebalancing to start at balnode, or done if that is null. */
  ghost predicate Ready<T>(m: Memory<T>, top: nat, balnode: nat, e: Path, g: Shape) {
    if balnode == 0 then e.Top? && Linked(m, g, 0) && top == Root(g)
    else g.Branch? && g.n == balnode && Stale(m, top, e, g)
  }

  /** A hole filled by u: the level above has a stale count. */
  ghost function Refilled(c: Path, u: Shape): (Path, Shape) {
    match c
    case Top => (Top, u)
    case InLeft(up, n, r) => (up, Branch(u, n, r))
    case InRight(up, l, n) => (up, Branch(l, n, u))
  }

  lemma {:induction false} RefilledReady<T>(m: Memory<T>, top: nat, c: Path, u: Shape)
    requires PathLinked(m, top, c, Root(u)) && Linked(m, u, Above(c)) && Apart(Plug(c, u))
    ensures var (e, g) := Refilled(c, u); Ready(m, top, Above(c), e, g) && Plug(e, g) == Plug(c, u)
  {
    ApartPlug(c, u);
    if c.InLeft? {
      ApartPlug(c.up, Branch(u, c.n, c.r));
    } else if c.InRight? {
      ApartPlug(c.up, Branch(c.l, c.n, u));
    }
  }

  /** Replacing a node that has at most one child by that child. */
  method Splice<T>(m0: Memory<T>, top0: nat, parent: nat, isLeft: bool, child: nat, ghost node: nat, ghost c: Path,
          ghost u: Shape)
    returns (m: Memory<T>, top: nat)
    requires PathLinked(m0, top0, c, node) && PathApart(c) && parent == Above(c) && (c.InLeft? ==> isLeft)
    requires (c.InRight? ==> !isLeft)
    requires Linked(m0, u, node) && Apart(u) && child == Root(u) && PathElems(c) !! Elems(u)
    ensures PathLinked(m, top, c, Root(u)) && Linked(m, u, Above(c)) && SameThreads(m0, m)
  {
    RootIn(u);
    RootIs(m0, u, node);
    m, top := SetSuper(m0, top0, parent, isLeft, child, c, node);
    AboveIn(c);
    ghost var m1 := m;
    LinkedFrame(m0, m1, u, node);
    if child != 0 {
      m := SetParent(m, child, parent);
    }
    LinkedAdopt(m1, m, u, node, parent);
    PathFrame(m1, m, top, c, child);
  }

  lemma {:induction false} AboveIn(c: Path)
    ensures Above(c) == 0 || Above(c) in PathElems(c)
  {
  }

  /** Where the rebalancing starts when the last node of l replaces the node at the end of c. */
  ghost function Replaced(c: Path, l: Shape, r: Shape): (Path, Shape)
    requires l.Branch?
  {
    if l.r.Leaf? then (c, Branch(l.l, l.n, r)) else Cut(InLeft(c, LastNode(l), r), l)
  }

  lemma {:induction false} ReplacedPlug(c: Path, l: Shape, r: Shape)
    requires l.Branch? && r.Branch?
    ensures var (e, g) := Replaced(c, l, r); g.Branch? && Plug(e, g) == Plug(c, Joint(l, r))
  {
    if l.r.Branch? { CutPlug(InLeft(c, LastNode(l), r), l); }
  }

  /** The nodes around the substitute. */
  lemma {:induction false} AroundLast<T>(m: Memory<T>, l: Shape, n: nat, r: Shape)
    requires l.Branch? && r.Branch? && Apart(Branch(l, n, r)) && Linked(m, l, n) && Linked(m, r, n)
    ensures var y := LastNode(l);
            && y in m && l.n in m && r.n in m && r.n != l.n && r.n != y && y != 0 && y in Elems(l)
            && (y == l.n <==> l.r.Leaf?) && m[y].left == Root(LastLeft(l))
            && (l.r.Branch? ==>
                  var q, z := m[y].parent, m[y].left;
                  && q == LastParent(l) && q in m && q != y && q != r.n && q in Elems(l)
                  && (z != 0 ==> z in m && z != q && z != l.n && z != r.n && z != y && z in Elems(l)))
  {
    LastElems(l);
    LastLinked(m, l, n);
    RootIn(l); RootIn(r); RootIn(LastLeft(l));
    RootIs(m, LastLeft(l), LastNode(l));
  }

  /** Below the substitute the links are those of the lifted tree. */
  lemma {:induction false} SubstLifted<T>(m: Memory<T>, v: Memory<T>, w: Memory<T>, l: Shape, n: nat, r: Shape, p: nat)
    requires l.Branch? && r.Branch? && l.r.Branch? && Apart(Branch(l, n, r)) && Linked(m, l, n) && Linked(m, r, n)
    requires Substituted(m, v, LastNode(l), LastParent(l), Root(LastLeft(l)), l.n, r.n, p)
    requires w.Keys == v.Keys && forall x :: x in Elems(l) && x in v ==> w[x] == v[x]
    ensures Lifted(m, w, l) && w[l.n].parent == LastNode(l)
  {
    AroundLast(m, l, n, r);
    RootIn(l); RootIn(r);
    forall x | x in Elems(l) && x in m && x != l.n && x != LastParent(l) && x != LastNode(l)
      && (x == 0 || x != Root(LastLeft(l)))
      ensures SameLinks(m, w, x)
    {
      assert x != r.n;
    }
  }

  /** The substitute stands where the node was, with the right subtree below it. */
  lemma {:induction false} SubstPath<T>(m: Memory<T>, v: Memory<T>, w: Memory<T>, top: nat, c: Path, l: Shape, n: nat,
          r: Shape)
    requires l.Branch? && r.Branch? && Apart(Branch(l, n, r)) && Linked(m, l, n) && Linked(m, r, n)
    requires LastNode(l) in m
    requires Substituted(m, v, LastNode(l), m[LastNode(l)].parent, Root(LastLeft(l)), l.n, r.n, Above(c))
    requires w.Keys == v.Keys && forall x :: x in Elems(l) + Elems(r) && x in v ==> w[x] == v[x]
    requires PathLinked(w, top, c, LastNode(l))
    ensures Linked(w, r, LastNode(l))
    ensures l.r.Branch? ==> PathLinked(w, top, InLeft(c, LastNode(l), r), l.n)
    ensures l.r.Leaf? ==>
              Linked(w, l.l, l.n) && w[l.n].left == Root(l.l) && w[l.n].right == r.n && w[l.n].parent == Above(c)
  {
    AroundLast(m, l, n, r);
    RootIn(l); RootIn(r);
    var y := LastNode(l);
    forall x | x in Elems(r) && x in m && x != r.n ensures SameLinks(m, w, x) { }
    LinkedAdopt(m, w, r, n, y);
    if l.r.Leaf? {
      forall x | x in Elems(l.l) && x in m ensures SameLinks(m, w, x) { }
      LinkedFrame(m, w, l.l, l.n);
    }
  }

  lemma {:induction false} ReplacedStale<T>(m: Memory<T>, v: Memory<T>, w: Memory<T>, top: nat, c: Path, l: Shape,
          n: nat, r: Shape)
    requires l.Branch? && r.Branch? && Apart(Plug(c, Branch(l, n, r))) && Linked(m, l, n) && Linked(m, r, n)
    requires LastNode(l) in m
    requires Substituted(m, v, LastNode(l), m[LastNode(l)].parent, Root(LastLeft(l)), l.n, r.n, Above(c))
    requires w.Keys == v.Keys && forall x :: x in Elems(l) + Elems(r) && x in v ==> w[x] == v[x]
    requires PathLinked(w, top, c, LastNode(l))
    ensures var (e, g) := Replaced(c, l, r); Stale(w, top, e, g) && Plug(e, g) == Plug(c, Joint(l, r))
    ensures var (e, g) := Replaced(c, l, r); g.n == if l.r.Leaf? then l.n else LastParent(l)
  {
    ApartPlug(c, Branch(l, n, r));
    DropApart(c, Branch(l, n, r));
    ReplacedPlug(c, l, r);
    var (e, g) := Replaced(c, l, r);
    ApartPlug(e, g);
    SubstPath(m, v, w, top, c, l, n, r);
    if l.r.Branch? {
      AroundLast(m, l, n, r);
      SubstLifted(m, v, w, l, n, r, Above(c));
      CutPlug(InLeft(c, LastNode(l), r), l);
      CutStale(m, w, top, InLeft(c, LastNode(l), r), l, n);
    }
  }

  /** Replacing a node that has two children by its predecessor. */
  method Replace<T>(m0: Memory<T>, top0: nat, parent: nat, isLeft: bool, left: nat, right: nat, subst: nat,
          ghost c: Path, ghost t: Shape)
    returns (m: Memory<T>, top: nat, balnode: nat)
    requires t.Branch? && t.l.Branch? && t.r.Branch? && PathLinked(m0, top0, c, t.n) && Linked(m0, t, Above(c))
    requires Apart(Plug(c, t))
    requires parent == Above(c) && (c.InLeft? ==> isLeft) && (c.InRight? ==> !isLeft)
    requires left == t.l.n && right == t.r.n && subst == LastNode(t.l)
    ensures var (e, g) := Replaced(c, t.l, t.r);
            balnode != 0 && Ready(m, top, balnode, e, g) && Plug(e, g) == Plug(c, Joint(t.l, t.r))
    ensures SameThreads(m0, m)
  {
    ApartPlug(c, t);
    AroundLast(m0, t.l, t.n, t.r);
    AboveIn(c);
    var m1;
    m1, balnode := Substitute(m0, subst, left, right, parent);
    SubstFrame(m0, m1, top0, c, t, parent);
    m, top := SetSuper(m1, top0, parent, isLeft, subst, c, t.n);
    ReplacedStale(m0, m1, m, top, c, t.l, t.n, t.r);
  }

  lemma {:induction false} SubstFrame<T>(m: Memory<T>, v: Memory<T>, top: nat, c: Path, t: Shape, p: nat)
    requires t.Branch? && t.l.Branch? && t.r.Branch? && Apart(t) && Linked(m, t, Above(c)) && PathLinked(m, top, c, t.n)
    requires PathElems(c) !! Elems(t)
    requires LastNode(t.l) in m
    requires Substituted(m, v, LastNode(t.l), m[LastNode(t.l)].parent, Root(LastLeft(t.l)), t.l.n, t.r.n, p)
    ensures PathLinked(v, top, c, t.n) && SameThreads(m, v)
  {
    AroundLast(m, t.l, t.n, t.r);
    RootIn(t.l); RootIn(t.r);
    forall x | x in PathElems(c) && x in m ensures SameLinks(m, v, x) { }
    PathFrame(m, v, top, c, t.n);
  }

  // ---------------------------------------------------------------- the whole operation

  /** The predecessor of a node with a left child is the last node of the left subtree. */
  lemma {:induction false} PrevIsLast(c: Path, t: Shape)
    requires t.Branch? && t.l.Branch?
    ensures PrevOf(Order(Plug(c, t)), Position(c, t)) == LastNode(t.l)
  {
    PositionIs(c, t);
    TrimOrder(t.l);
    var ns, i := Order(Plug(c, t)), Position(c, t);
    assert ns[i - 1] == ns[..i][i - 1];
  }

  /** Where the rebalancing starts after the node at the end of c has been unlinked. */
  ghost function Unlinked(c: Path, t: Shape): (Path, Shape)
    requires t.Branch?
  {
    if t.l.Leaf? then Refilled(c, t.r) else if t.r.Leaf? then Refilled(c, t.l) else Replaced(c, t.l, t.r)
  }

  /** All pointer updates of avl_unlink_node but those of the thread and of the rebalancing. */
  method Takeout<T>(m0: Memory<T>, top0: nat, avlnode: nat, ghost c: Path, ghost t: Shape)
    returns (m: Memory<T>, top: nat, balnode: nat)
    requires t.Branch? && avlnode == t.n && avlnode in m0 && PathLinked(m0, top0, c, t.n) && Linked(m0, t, Above(c))
    requires Apart(Plug(c, t))
    requires t.l.Branch? ==> m0[avlnode].prev == LastNode(t.l)
    ensures var (e, g) := Unlinked(c, t); Ready(m, top, balnode, e, g) && Plug(e, g) == Plug(c, Joint(t.l, t.r))
    ensures SameThreads(m0, m) && (balnode == 0 <==> c.Top? && (t.l.Leaf? || t.r.Leaf?))
  {
    ApartPlug(c, t);
    RootIn(t);
    WhichChild(m0, top0, c, t.n);
    Leafless(t);
    DropApart(c, t);
    var parent := m0[avlnode].parent;
    var isLeft := parent != 0 && m0[parent].left == avlnode;
    var left, right := m0[avlnode].left, m0[avlnode].right;
    if left == 0 || right == 0 {
      ghost var u := if t.l.Leaf? then t.r else t.l;
      m, top := Splice(m0, top0, parent, isLeft, if left == 0 then right else left, avlnode, c, u);
      balnode := parent;
      RefilledReady(m, top, c, u);
    } else {
      m, top, balnode := Replace(m0, top0, parent, isLeft, left, right, m0[avlnode].prev, c, t);
    }
  }
}
