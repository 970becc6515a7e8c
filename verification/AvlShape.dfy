/**
 Nodes of the threaded tree of src/sc_avl.c in memory, and the tree they form.  A node is
 an address; 0 is the null pointer.
 */
module AvlShape {

  datatype Node<T> = Node(next: nat, prev: nat, parent: nat, left: nat, right: nat, item: T, count: nat)

  type Memory<T> = map<nat, Node<T>>

  /** The tree that the links describe. */
  datatype Shape = Leaf | Branch(l: Shape, n: nat, r: Shape)

  ghost function Elems(s: Shape): set<nat> {
    if s.Leaf? then {} else Elems(s.l) + {s.n} + Elems(s.r)
  }

  ghost function Size(s: Shape): nat {
    if s.Leaf? then 0 else Size(s.l) + Size(s.r) + 1
  }

  ghost function Root(s: Shape): nat {
    if s.Leaf? then 0 else s.n
  }

  /** In-order traversal. */
  ghost function Order(s: Shape): seq<nat> {
    if s.Leaf? then [] else Order(s.l) + [s.n] + Order(s.r)
  }

  /** No address occurs twice, and none is null. */
  ghost predicate Apart(s: Shape) {
    s.Branch? ==>
      && Apart(s.l) && Apart(s.r) && s.n != 0
      && s.n !in Elems(s.l) && s.n !in Elems(s.r) && Elems(s.l) !! Elems(s.r)
  }

  /** The left, right, parent and count fields of all nodes are those of the shape. */
  ghost predicate Linked<T>(m: Memory<T>, s: Shape, p: nat) {
    s.Branch? ==>
      && s.n in m && m[s.n].parent == p && m[s.n].count == Size(s)
      && m[s.n].left == Root(s.l) && m[s.n].right == Root(s.r)
      && Linked(m, s.l, s.n) && Linked(m, s.r, s.n)
  }

  ghost predicate SameLinks<T>(m: Memory<T>, w: Memory<T>, x: nat) {
    && x in m && x in w && m[x].left == w[x].left && m[x].right == w[x].right
    && m[x].parent == w[x].parent && m[x].count == w[x].count
  }

  /** All nodes keep their thread and item. */
  ghost predicate SameThreads<T>(m: Memory<T>, w: Memory<T>) {
    && m.Keys == w.Keys
    && forall x :: x in m ==> m[x].next == w[x].next && m[x].prev == w[x].prev && m[x].item == w[x].item
  }

  lemma {:induction false} LinkedFrame<T>(m: Memory<T>, w: Memory<T>, s: Shape, p: nat)
    requires Linked(m, s, p) && forall x :: x in Elems(s) ==> x in m ==> SameLinks(m, w, x)
    ensures Linked(w, s, p)
  {
    if s.Branch? {
      LinkedFrame(m, w, s.l, s.n);
      LinkedFrame(m, w, s.r, s.n);
    }
  }

  /** Changing the parent of the root only. */
  lemma {:induction false} LinkedAdopt<T>(m: Memory<T>, w: Memory<T>, s: Shape, q: nat, p: nat)
    requires Linked(m, s, q) && Apart(s)
    requires forall x :: x in Elems(s) ==> x in m ==> x != Root(s) ==> SameLinks(m, w, x)
    requires s.Branch? ==> s.n in w && w[s.n].parent == p && w[s.n].count == m[s.n].count
    requires s.Branch? ==> s.n in m && w[s.n].left == m[s.n].left && w[s.n].right == m[s.n].right
    ensures Linked(w, s, p)
  {
    if s.Branch? {
      LinkedFrame(m, w, s.l, s.n);
      LinkedFrame(m, w, s.r, s.n);
    }
  }

  // ---------------------------------------------------------------- the way to a node

  /** The path from the root to a hole: at each step the other subtree. */
  datatype Path = Top | InLeft(up: Path, n: nat, r: Shape) | InRight(up: Path, l: Shape, n: nat)

  ghost function Plug(c: Path, s: Shape): Shape {
    match c
    case Top => s
    case InLeft(up, n, r) => Plug(up, Branch(s, n, r))
    case InRight(up, l, n) => Plug(up, Branch(l, n, s))
  }

  ghost function Above(c: Path): nat {
    if c.Top? then 0 else c.n
  }

  ghost function PathElems(c: Path): set<nat> {
    match c
    case Top => {}
    case InLeft(up, n, r) => PathElems(up) + {n} + Elems(r)
    case InRight(up, l, n) => PathElems(up) + {n} + Elems(l)
  }

  ghost function Before(c: Path): seq<nat> {
    match c
    case Top => []
    case InLeft(up, n, r) => Before(up)
    case InRight(up, l, n) => Before(up) + Order(l) + [n]
  }

  ghost function After(c: Path): seq<nat> {
    match c
    case Top => []
    case InLeft(up, n, r) => [n] + Order(r) + After(up)
    case InRight(up, l, n) => After(up)
  }

  ghost predicate PathApart(c: Path) {
    match c
    case Top => true
    case InLeft(up, n, r) =>
      PathApart(up) && n != 0 && n !in PathElems(up) && n !in Elems(r) && Elems(r) !! PathElems(up) && Apart(r)
    case InRight(up, l, n) =>
      PathApart(up) && n != 0 && n !in PathElems(up) && n !in Elems(l) && Elems(l) !! PathElems(up) && Apart(l)
  }

  /** The links of the path, with the hole filled by `hole`; counts on the path itself are not trusted. */
  ghost predicate PathLinked<T>(m: Memory<T>, top: nat, c: Path, hole: nat) {
    match c
    case Top => top == hole
    case InLeft(up, n, r) =>
      && n in m && m[n].left == hole && m[n].right == Root(r) && m[n].parent == Above(up)
      && Linked(m, r, n) && PathLinked(m, top, up, n)
    case InRight(up, l, n) =>
      && n in m && m[n].left == Root(l) && m[n].right == hole && m[n].parent == Above(up)
      && Linked(m, l, n) && PathLinked(m, top, up, n)
  }

  lemma {:induction false} PathFrame<T>(m: Memory<T>, w: Memory<T>, top: nat, c: Path, hole: nat)
    requires PathLinked(m, top, c, hole) && forall x :: x in PathElems(c) ==> x in m ==> SameLinks(m, w, x)
    ensures PathLinked(w, top, c, hole)
  {
    match c
    case Top =>
    case InLeft(up, n, r) => PathFrame(m, w, top, up, n); LinkedFrame(m, w, r, n);
    case InRight(up, l, n) => PathFrame(m, w, top, up, n); LinkedFrame(m, w, l, n);
  }

  lemma {:induction false} OrderPlug(c: Path, s: Shape)
    ensures Order(Plug(c, s)) == Before(c) + Order(s) + After(c)
  {
    match c
    case Top =>
    case InLeft(up, n, r) =>
      OrderPlug(up, Branch(s, n, r));
      Regrouped(Before(up), Order(s), n, Order(r), After(up));
    case InRight(up, l, n) =>
      OrderPlug(up, Branch(l, n, s));
      Regrouped(Before(up), Order(l), n, Order(s), After(up));
  }

  lemma {:induction false} Regrouped(b: seq<nat>, l: seq<nat>, n: nat, r: seq<nat>, a: seq<nat>)
    ensures b + (l + [n] + r) + a == b + l + ([n] + r + a)
    ensures b + (l + [n] + r) + a == (b + l + [n]) + r + a
  {
  }

  lemma {:induction false} ElemsPlug(c: Path, s: Shape)
    ensures Elems(Plug(c, s)) == PathElems(c) + Elems(s)
  {
    match c
    case Top =>
    case InLeft(up, n, r) => ElemsPlug(up, Branch(s, n, r));
    case InRight(up, l, n) => ElemsPlug(up, Branch(l, n, s));
  }

  lemma {:induction false} ApartPlug(c: Path, s: Shape)
    ensures Apart(Plug(c, s)) <==> PathApart(c) && Apart(s) && PathElems(c) !! Elems(s)
  {
    match c
    case Top =>
    case InLeft(up, n, r) => ApartPlug(up, Branch(s, n, r));
    case InRight(up, l, n) => ApartPlug(up, Branch(l, n, s));
  }

  /** Opening a linked tree at the end of a path. */
  lemma {:induction false} Open<T>(m: Memory<T>, top: nat, c: Path, s: Shape)
    requires Linked(m, Plug(c, s), 0) && top == Root(Plug(c, s))
    ensures PathLinked(m, top, c, Root(s)) && Linked(m, s, Above(c))
  {
    match c
    case Top =>
    case InLeft(up, n, r) => Open(m, top, up, Branch(s, n, r));
    case InRight(up, l, n) => Open(m, top, up, Branch(l, n, s));
  }

  /** The path to a node, and the subtree there. */
  ghost function PathTo(c: Path, s: Shape, x: nat): (Path, Shape)
    requires x in Elems(s)
    decreases s
  {
    if x == s.n then (c, s)
    else if x in Elems(s.l) then PathTo(InLeft(c, s.n, s.r), s.l, x)
    else PathTo(InRight(c, s.l, s.n), s.r, x)
  }

  lemma {:induction false} PathToIs(c: Path, s: Shape, x: nat)
    requires x in Elems(s)
    ensures var (d, t) := PathTo(c, s, x); t.Branch? && t.n == x && Plug(d, t) == Plug(c, s)
    decreases s
  {
    if x == s.n {
    } else if x in Elems(s.l) {
      PathToIs(InLeft(c, s.n, s.r), s.l, x);
    } else {
      PathToIs(InRight(c, s.l, s.n), s.r, x);
    }
  }

  // ---------------------------------------------------------------- order

  lemma {:induction false} OrderElems(s: Shape)
    ensures forall x :: x in Order(s) <==> x in Elems(s)
    ensures |Order(s)| == Size(s)
  {
    if s.Branch? {
      OrderElems(s.l);
      OrderElems(s.r);
    }
  }

  ghost predicate Distinct(ns: seq<nat>) {
    forall i, j :: 0 <= i < j < |ns| ==> ns[i] != ns[j]
  }

  lemma {:induction false} ApartDistinct(s: Shape)
    requires Apart(s)
    ensures Distinct(Order(s)) && 0 !in Order(s)
  {
    if s.Branch? {
      ApartDistinct(s.l);
      ApartDistinct(s.r);
      OrderElems(s.l);
      OrderElems(s.r);
      DistinctJoin(Order(s.l), s.n, Order(s.r));
    }
  }

  lemma {:induction false} DistinctJoin(a: seq<nat>, x: nat, b: seq<nat>)
    requires Distinct(a) && Distinct(b) && x !in a && x !in b && forall y :: y in a ==> y !in b
    ensures Distinct(a + [x] + b)
  {
    var c := a + [x] + b;
    forall i, j | 0 <= i < j < |c| ensures c[i] != c[j] {
      assert i < |a| ==> c[i] in a;
      assert j > |a| ==> c[j] in b;
    }
  }

  lemma {:induction false} DistinctParts(a: seq<nat>, x: nat, b: seq<nat>, c: seq<nat>)
    requires c == a + [x] + b && Distinct(c) && 0 !in c
    ensures Distinct(a) && Distinct(b) && 0 !in a && 0 !in b && x != 0
    ensures x !in a && x !in b && forall y :: y in a ==> y !in b
  {
    forall i | 0 <= i < |a| ensures c[i] == a[i] { }
    forall i | 0 <= i < |b| ensures c[|a| + 1 + i] == b[i] { }
    assert c[|a|] == x && x in c;
  }

  lemma {:induction false} DistinctApart(s: Shape)
    requires Distinct(Order(s)) && 0 !in Order(s)
    ensures Apart(s)
  {
    if s.Branch? {
      DistinctParts(Order(s.l), s.n, Order(s.r), Order(s));
      DistinctApart(s.l);
      DistinctApart(s.r);
      OrderElems(s.l);
      OrderElems(s.r);
    }
  }

  /** Trees with the same traversal have the same elements, and one is apart if the other is. */
  lemma {:induction false} SameOrder(s: Shape, t: Shape)
    requires Order(s) == Order(t)
    ensures Elems(s) == Elems(t) && Size(s) == Size(t) && (Apart(s) <==> Apart(t))
  {
    OrderElems(s);
    OrderElems(t);
    if Apart(s) { ApartDistinct(s); DistinctApart(t); }
    if Apart(t) { ApartDistinct(t); DistinctApart(s); }
  }

  ghost function PrevOf(ns: seq<nat>, i: int): nat { if 0 < i <= |ns| then ns[i - 1] else 0 }
  ghost function NextOf(ns: seq<nat>, i: int): nat { if 0 <= i + 1 < |ns| then ns[i + 1] else 0 }

  /** The node at position i of the thread knows its neighbours. */
  ghost predicate Seat<T>(m: Memory<T>, ns: seq<nat>, i: int) {
    0 <= i < |ns| && ns[i] in m && m[ns[i]].prev == PrevOf(ns, i) && m[ns[i]].next == NextOf(ns, i)
  }

  /** The prev/next fields of `ns` form a list from head to tail. */
  ghost predicate Threaded<T>(m: Memory<T>, ns: seq<nat>, head: nat, tail: nat) {
    head == NextOf(ns, -1) && tail == PrevOf(ns, |ns|) && forall i :: 0 <= i < |ns| ==> Seat(m, ns, i)
  }
}
