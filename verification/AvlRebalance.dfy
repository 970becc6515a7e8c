/** avl_rebalance of src/sc_avl.c: one turn at every node from the given one up to the root. */
module AvlRebalance {
  import opened AvlShape
  import opened Powers
  import opened AvlBalance
  import opened AvlRotate

  /** A rotation at every level of the path, where the balance test asks for one. */
  ghost function RebalanceUp(c: Path, s: Shape): Shape
    requires s.Branch?
    decreases c
  {
    FixKeeps(s);
    match c
    case Top => Fix(s)
    case InLeft(up, n, r) => RebalanceUp(up, Branch(Fix(s), n, r))
    case InRight(up, l, n) => RebalanceUp(up, Branch(l, n, Fix(s)))
  }

  lemma {:induction false} RebalanceKeeps(c: Path, s: Shape)
    requires s.Branch?
    ensures Order(RebalanceUp(c, s)) == Order(Plug(c, s))
    decreases c
  {
    FixKeeps(s);
    match c
    case Top =>
    case InLeft(up, n, r) =>
      RebalanceKeeps(up, Branch(Fix(s), n, r));
      OrderPlug(up, Branch(Fix(s), n, r));
      OrderPlug(up, Branch(s, n, r));
    case InRight(up, l, n) =>
      RebalanceKeeps(up, Branch(l, n, Fix(s)));
      OrderPlug(up, Branch(l, n, Fix(s)));
      OrderPlug(up, Branch(l, n, s));
  }

  /** The tree is whole except that the counts on the path and at the root of s are stale. */
  ghost predicate Stale<T>(m: Memory<T>, top: nat, c: Path, s: Shape) {
    Pending(m, s, Above(c)) && PathLinked(m, top, c, s.n) && PathApart(c) && PathElems(c) !! Elems(s)
  }

  /** *superparent = v */
  method SetSuper<T>(m0: Memory<T>, top0: nat, parent: nat, isLeft: bool, v: nat, ghost c: Path, ghost hole: nat)
    returns (m: Memory<T>, top: nat)
    requires PathLinked(m0, top0, c, hole) && PathApart(c) && parent == Above(c) && (c.InLeft? ==> isLeft)
    requires (c.InRight? ==> !isLeft)
    ensures PathLinked(m, top, c, v) && SameThreads(m0, m)
    ensures forall z :: z in m0 && (z == 0 || z != parent) ==> m[z] == m0[z]
  {
    m, top := m0, top0;
    if parent == 0 {
      top := v;
      assert c.Top?;
    } else if isLeft {
      m := SetLeft(m, parent, v);
      PathFrame(m0, m, top, c.up, c.n);
      LinkedFrame(m0, m, c.r, c.n);
    } else {
      m := SetRight(m, parent, v);
      PathFrame(m0, m, top, c.up, c.n);
      LinkedFrame(m0, m, c.l, c.n);
    }
  }

  /** Which child of its parent the end of a path is. */
  lemma {:induction false} WhichChild<T>(m: Memory<T>, top: nat, c: Path, hole: nat)
    requires PathLinked(m, top, c, hole) && PathApart(c) && hole !in PathElems(c) && hole != 0
    ensures Above(c) == 0 <==> c.Top?
    ensures Above(c) != 0 ==> Above(c) in m && (m[Above(c)].left == hole <==> c.InLeft?)
    ensures Above(c) != 0 ==> Above(c) in PathElems(c)
  {
    if c.InRight? { RootIn(c.l); }
  }

  /** A side that is too heavy is not empty. */
  lemma {:induction false} HeavySide(l: nat, r: nat)
    ensures CheckBalance(l, r) == -1 ==> l > 0
    ensures CheckBalance(l, r) == 1 ==> r > 0
  {
    Pow2Positive(Lg(l) + 1);
    DivZero(r, Pow2(Lg(l) + 1));
  }

  /** The switch on the balance, without the write to the superparent. */
  method Rotate<T>(m0: Memory<T>, avlnode: nat, parent: nat, ghost s: Shape) returns (m: Memory<T>, root: nat)
    requires Pending(m0, s, parent) && avlnode == s.n
    ensures Linked(m, Fix(s), parent) && root == Root(Fix(s)) && Touches(m0, m, Elems(s))
  {
    RootIs(m0, s.l, s.n); RootIs(m0, s.r, s.n);
    var balance := CheckBalance(NodeCount(m0, m0[avlnode].left), NodeCount(m0, m0[avlnode].right));
    HeavySide(Size(s.l), Size(s.r));
    if balance == -1 {
      m, root := RotateRight(m0, avlnode, parent, s);
    } else if balance == 1 {
      m, root := RotateLeft(m0, avlnode, parent, s);
    } else {
      root := avlnode;
      m := SetCount(m0, avlnode, CalcCount(m0, avlnode));
      LinkedFrame(m0, m, s.l, s.n); LinkedFrame(m0, m, s.r, s.n);
      Joined(m, s.l, s.n, s.r, parent);
    }
  }

  /** One turn of the loop. */
  method Turn<T>(m0: Memory<T>, top0: nat, avlnode: nat, ghost c: Path, ghost s: Shape)
    returns (m: Memory<T>, top: nat, parent: nat)
    requires Stale(m0, top0, c, s) && avlnode == s.n
    ensures Linked(m, Fix(s), Above(c)) && PathLinked(m, top, c, Root(Fix(s))) && SameThreads(m0, m)
    ensures parent == Above(c)
  {
    RootIn(s);
    WhichChild(m0, top0, c, s.n);
    parent := m0[avlnode].parent;
    var isLeft := parent != 0 && m0[parent].left == avlnode;
    var m1, root := Rotate(m0, avlnode, parent, s);
    PathFrame(m0, m1, top0, c, s.n);
    m, top := SetSuper(m1, top0, parent, isLeft, root, c, s.n);
    FixKeeps(s);
    RootIn(Fix(s));
    LinkedFrame(m1, m, Fix(s), Above(c));
  }

  /** The whole loop, from avlnode (null when there is nothing to do) to the root. */
  method Rebalance<T>(m0: Memory<T>, top0: nat, avlnode: nat, ghost c0: Path, ghost s0: Shape)
    returns (m: Memory<T>, top: nat)
    requires avlnode != 0 ==> Stale(m0, top0, c0, s0) && avlnode == s0.n
    ensures avlnode != 0 ==> Linked(m, RebalanceUp(c0, s0), 0) && top == Root(RebalanceUp(c0, s0)) && SameThreads(m0, m)
    ensures avlnode == 0 ==> m == m0 && top == top0
  {
    m, top := m0, top0;
    var node := avlnode;
    ghost var c, s := c0, s0;
    while node != 0
      invariant SameThreads(m0, m)
      invariant avlnode == 0 ==> node == 0 && m == m0 && top == top0
      invariant node == 0 && avlnode != 0 ==> s == RebalanceUp(c0, s0) && Linked(m, s, 0) && top == Root(s)
      invariant node != 0 ==> Stale(m, top, c, s) && node == s.n && RebalanceUp(c, s) == RebalanceUp(c0, s0)
      decreases node != 0, c
    {
      m, top, node := Turn(m, top, node, c, s);
      FixKeeps(s);
      Upward(m, top, c, s);
      ghost var t := Fix(s);
      match c {
        case Top => s := t;
        case InLeft(up, n, r) => s := Branch(t, n, r); c := up;
        case InRight(up, l, n) => s := Branch(l, n, t); c := up;
      }
    }
  }

  /** After a turn the level above is the stale one. */
  lemma {:induction false} Upward<T>(m: Memory<T>, top: nat, c: Path, s: Shape)
    requires s.Branch? && Apart(s) && PathApart(c) && PathElems(c) !! Elems(s)
    requires Linked(m, Fix(s), Above(c)) && PathLinked(m, top, c, Root(Fix(s)))
    ensures c.InLeft? ==> Stale(m, top, c.up, Branch(Fix(s), c.n, c.r))
    ensures c.InRight? ==> Stale(m, top, c.up, Branch(c.l, c.n, Fix(s)))
    ensures c.Top? <==> Above(c) == 0
  {
    FixKeeps(s);
    if c.InLeft? {
      var t := Branch(Fix(s), c.n, c.r);
      assert Elems(t) == Elems(s) + {c.n} + Elems(c.r);
      assert Apart(t);
    } else if c.InRight? {
      var t := Branch(c.l, c.n, Fix(s));
      assert Elems(t) == Elems(c.l) + {c.n} + Elems(s);
      assert Apart(t);
    }
  }
}
