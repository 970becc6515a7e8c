/** The rotations of avl_rebalance in src/sc_avl.c: pointer updates, and the trees they make. */
module AvlRotate {
  import opened AvlShape
  import opened AvlBalance

  function SetLeft<T>(m: Memory<T>, x: nat, v: nat): Memory<T> requires x in m { m[x := m[x].(left := v)] }
  function SetRight<T>(m: Memory<T>, x: nat, v: nat): Memory<T> requires x in m { m[x := m[x].(right := v)] }
  function SetParent<T>(m: Memory<T>, x: nat, v: nat): Memory<T> requires x in m { m[x := m[x].(parent := v)] }
  function SetCount<T>(m: Memory<T>, x: nat, v: nat): Memory<T> requires x in m { m[x := m[x].(count := v)] }

  /** NODE_COUNT and CALC_COUNT */
  function NodeCount<T>(m: Memory<T>, x: nat): nat { if x in m && x != 0 then m[x].count else 0 }
  function CalcCount<T>(m: Memory<T>, x: nat): nat
    requires x in m
  {
    NodeCount(m, m[x].left) + NodeCount(m, m[x].right) + 1
  }

  /** A child pointer is null or a node, and none of the nodes in `who`. */
  ghost predicate Child<T>(m: Memory<T>, c: nat, who: set<nat>) {
    (c == 0 || c in m) && c !in who
  }

  // ---------------------------------------------------------------- pointer updates

  /** x and y with children a, b, c from left to right; one is the child of the other. */
  ghost predicate SingleBefore<T>(m: Memory<T>, a: nat, x: nat, b: nat, y: nat, c: nat) {
    && x in m && y in m && x != y && x != 0 && y != 0
    && Child(m, a, {x, y}) && Child(m, b, {x, y}) && Child(m, c, {x, y})
    && m[x].left == a && m[y].right == c
  }

  /** Afterwards `lower` hangs below `upper`, which hangs below p. */
  ghost predicate SingleAfter<T>(m: Memory<T>, w: Memory<T>, a: nat, x: nat, b: nat, y: nat, c: nat, right: bool,
          p: nat)
  {
    var na, nb, nc := NodeCount(m, a), NodeCount(m, b), NodeCount(m, c);
    && SingleBefore(m, a, x, b, y, c)
    && w.Keys == m.Keys
    && (forall z :: z in m && z != x && z != y && (z == 0 || z != b) ==> w[z] == m[z])
    && (b != 0 ==> w[b] == m[b].(parent := if right then y else x))
    && w[x] == (if right then m[x].(right := y, parent := p, count := na + (nb + nc + 1) + 1)
                else m[x].(right := b, parent := y, count := na + nb + 1))
    && w[y] == (if right then m[y].(left := b, parent := x, count := nb + nc + 1)
                else m[y].(left := x, parent := p, count := (na + nb + 1) + nc + 1))
  }

  method SingleRight<T>(m0: Memory<T>, avlnode: nat, parent: nat) returns (m: Memory<T>, child: nat)
    requires avlnode in m0 && m0[avlnode].left in m0
    requires var x := m0[avlnode].left; SingleBefore(m0, m0[x].left, x, m0[x].right, avlnode, m0[avlnode].right)
    ensures child == m0[avlnode].left
    ensures SingleAfter(m0, m, m0[child].left, child, m0[child].right, avlnode, m0[avlnode].right, true, parent)
  {
    child := m0[avlnode].left;
    m := SetLeft(m0, avlnode, m0[child].right);
    if m[avlnode].left != 0 {
      m := SetParent(m, m[avlnode].left, avlnode);
    }
    m := SetRight(m, child, avlnode);
    m := SetParent(m, avlnode, child);
    m := SetParent(m, child, parent);
    m := SetCount(m, avlnode, CalcCount(m, avlnode));
    m := SetCount(m, child, CalcCount(m, child));
  }

  method SingleLeft<T>(m0: Memory<T>, avlnode: nat, parent: nat) returns (m: Memory<T>, child: nat)
    requires avlnode in m0 && m0[avlnode].right in m0
    requires var y := m0[avlnode].right; SingleBefore(m0, m0[avlnode].left, avlnode, m0[y].left, y, m0[y].right)
    ensures child == m0[avlnode].right
    ensures SingleAfter(m0, m, m0[avlnode].left, avlnode, m0[child].left, child, m0[child].right, false, parent)
  {
    child := m0[avlnode].right;
    m := SetRight(m0, avlnode, m0[child].left);
    if m[avlnode].right != 0 {
      m := SetParent(m, m[avlnode].right, avlnode);
    }
    m := SetLeft(m, child, avlnode);
    m := SetParent(m, avlnode, child);
    m := SetParent(m, child, parent);
    m := SetCount(m, avlnode, CalcCount(m, avlnode));
    m := SetCount(m, child, CalcCount(m, child));
  }

  /** x, g, y with children a, b, c, d from left to right, g between the other two. */
  ghost predicate DoubleBefore<T>(m: Memory<T>, a: nat, x: nat, b: nat, g: nat, c: nat, y: nat, d: nat) {
    && x in m && g in m && y in m && x != y && x != g && g != y && x != 0 && g != 0 && y != 0
    && Child(m, a, {x, g, y}) && Child(m, b, {x, g, y}) && Child(m, c, {x, g, y}) && Child(m, d, {x, g, y})
    && (b == c ==> b == 0)
    && m[x].left == a && m[g].left == b && m[g].right == c && m[y].right == d
  }

  /** Afterwards x and y hang below g, which hangs below p. */
  ghost predicate DoubleAfter<T>(m: Memory<T>, w: Memory<T>, a: nat, x: nat, b: nat, g: nat, c: nat, y: nat, d: nat,
          p: nat)
  {
    var na, nb, nc, nd := NodeCount(m, a), NodeCount(m, b), NodeCount(m, c), NodeCount(m, d);
    && DoubleBefore(m, a, x, b, g, c, y, d)
    && w.Keys == m.Keys
    && (forall z :: z in m && z != x && z != y && z != g && (z == 0 || (z != b && z != c)) ==> w[z] == m[z])
    && (b != 0 ==> w[b] == m[b].(parent := x))
    && (c != 0 ==> w[c] == m[c].(parent := y))
    && w[x] == m[x].(right := b, parent := g, count := na + nb + 1)
    && w[y] == m[y].(left := c, parent := g, count := nc + nd + 1)
    && w[g] == m[g].(left := x, right := y, parent := p, count := (na + nb + 1) + (nc + nd + 1) + 1)
  }

  /** The links afterwards, the counts of x, g and y still being the old ones. */
  ghost predicate DoubleLinks<T>(m: Memory<T>, w: Memory<T>, a: nat, x: nat, b: nat, g: nat, c: nat, y: nat, d: nat,
          p: nat)
  {
    && DoubleBefore(m, a, x, b, g, c, y, d)
    && w.Keys == m.Keys
    && (forall z :: z in m && z != x && z != y && z != g && (z == 0 || (z != b && z != c)) ==> w[z] == m[z])
    && (b != 0 ==> w[b] == m[b].(parent := x))
    && (c != 0 ==> w[c] == m[c].(parent := y))
    && w[x] == m[x].(right := b, parent := g)
    && w[y] == m[y].(left := c, parent := g)
    && w[g] == m[g].(left := x, right := y, parent := p)
  }

  /** Only b and c have moved, to x and y. */
  ghost predicate InnerMoved<T>(m: Memory<T>, w: Memory<T>, a: nat, x: nat, b: nat, g: nat, c: nat, y: nat, d: nat)
  {
    && DoubleBefore(m, a, x, b, g, c, y, d)
    && w.Keys == m.Keys
    && (forall z :: z in m && z != x && z != y && (z == 0 || (z != b && z != c)) ==> w[z] == m[z])
    && (b != 0 ==> w[b] == m[b].(parent := x))
    && (c != 0 ==> w[c] == m[c].(parent := y))
    && w[x] == m[x].(right := b) && w[y] == m[y].(left := c)
  }

  /** gchild takes avlnode and child as its children; avlnode is y if it stood on the right. */
  method LiftInner<T>(ghost m0: Memory<T>, m1: Memory<T>, ghost a: nat, x: nat, ghost b: nat, g: nat, ghost c: nat,
          y: nat, ghost d: nat, parent: nat, yFirst: bool)
    returns (m: Memory<T>)
    requires InnerMoved(m0, m1, a, x, b, g, c, y, d)
    ensures DoubleLinks(m0, m, a, x, b, g, c, y, d, parent)
  {
    if yFirst {
      m := SetRight(m1, g, y);
      m := SetParent(m, y, g);
      m := SetLeft(m, g, x);
      m := SetParent(m, x, g);
    } else {
      m := SetLeft(m1, g, x);
      m := SetParent(m, x, g);
      m := SetRight(m, g, y);
      m := SetParent(m, y, g);
    }
    m := SetParent(m, g, parent);
  }

  lemma {:induction false} SameCounts<T>(m: Memory<T>, w: Memory<T>, a: nat, x: nat, b: nat, g: nat, c: nat, y: nat,
          d: nat, p: nat)
    requires DoubleLinks(m, w, a, x, b, g, c, y, d, p)
    ensures CalcCount(w, x) == NodeCount(m, a) + NodeCount(m, b) + 1
    ensures CalcCount(w, y) == NodeCount(m, c) + NodeCount(m, d) + 1
  {
  }

  /** The recounts that end a double rotation, lower nodes first. */
  method Recount<T>(ghost m0: Memory<T>, m1: Memory<T>, ghost a: nat, x: nat, ghost b: nat, g: nat, ghost c: nat,
          y: nat, ghost d: nat, ghost p: nat, yFirst: bool)
    returns (m: Memory<T>)
    requires DoubleLinks(m0, m1, a, x, b, g, c, y, d, p)
    ensures DoubleAfter(m0, m, a, x, b, g, c, y, d, p)
  {
    SameCounts(m0, m1, a, x, b, g, c, y, d, p);
    m := RecountBelow(m1, x, y, yFirst);
    m := SetCount(m, g, CalcCount(m, g));
  }

  method RecountBelow<T>(m1: Memory<T>, x: nat, y: nat, yFirst: bool) returns (m: Memory<T>)
    requires x in m1 && y in m1 && x != y
    requires m1[x].left != y && m1[x].right != y && m1[y].left != x && m1[y].right != x
    ensures m == m1[x := m1[x].(count := CalcCount(m1, x))][y := m1[y].(count := CalcCount(m1, y))]
  {
    if yFirst {
      m := SetCount(m1, y, CalcCount(m1, y));
      m := SetCount(m, x, CalcCount(m, x));
    } else {
      m := SetCount(m1, x, CalcCount(m1, x));
      m := SetCount(m, y, CalcCount(m, y));
    }
  }

  method DoubleRight<T>(m0: Memory<T>, avlnode: nat, parent: nat) returns (m: Memory<T>, gchild: nat)
    requires avlnode in m0 && m0[avlnode].left in m0 && m0[m0[avlnode].left].right in m0
    requires var x := m0[avlnode].left; var g := m0[x].right;
             DoubleBefore(m0, m0[x].left, x, m0[g].left, g, m0[g].right, avlnode, m0[avlnode].right)
    ensures var x, y := m0[avlnode].left, avlnode;
            && gchild == m0[x].right
            && DoubleAfter(m0, m, m0[x].left, x, m0[gchild].left, gchild, m0[gchild].right, y, m0[y].right, parent)
  {
    var child := m0[avlnode].left;
    gchild := m0[child].right;
    m := SetLeft(m0, avlnode, m0[gchild].right);
    if m[avlnode].left != 0 {
      m := SetParent(m, m[avlnode].left, avlnode);
    }
    m := SetRight(m, child, m[gchild].left);
    if m[child].right != 0 {
      m := SetParent(m, m[child].right, child);
    }
    ghost var a, b, c, d := m0[child].left, m0[gchild].left, m0[gchild].right, m0[avlnode].right;
    m := LiftInner(m0, m, a, child, b, gchild, c, avlnode, d, parent, true);
    m := Recount(m0, m, a, child, b, gchild, c, avlnode, d, parent, true);
  }

  method DoubleLeft<T>(m0: Memory<T>, avlnode: nat, parent: nat) returns (m: Memory<T>, gchild: nat)
    requires avlnode in m0 && m0[avlnode].right in m0 && m0[m0[avlnode].right].left in m0
    requires var y := m0[avlnode].right; var g := m0[y].left;
             DoubleBefore(m0, m0[avlnode].left, avlnode, m0[g].left, g, m0[g].right, y, m0[y].right)
    ensures var x, y := avlnode, m0[avlnode].right;
            && gchild == m0[y].left
            && DoubleAfter(m0, m, m0[x].left, x, m0[gchild].left, gchild, m0[gchild].right, y, m0[y].right, parent)
  {
    var child := m0[avlnode].right;
    gchild := m0[child].left;
    m := SetRight(m0, avlnode, m0[gchild].left);
    if m[avlnode].right != 0 {
      m := SetParent(m, m[avlnode].right, avlnode);
    }
    m := SetLeft(m, child, m[gchild].right);
    if m[child].left != 0 {
      m := SetParent(m, m[child].left, child);
    }
    ghost var a, b, c, d := m0[avlnode].left, m0[gchild].left, m0[gchild].right, m0[child].right;
    m := LiftInner(m0, m, a, avlnode, b, gchild, c, child, d, parent, false);
    m := Recount(m0, m, a, avlnode, b, gchild, c, child, d, parent, false);
  }

  // ---------------------------------------------------------------- trees

  /** A subtree whose root has the right children and parent but not yet the right count. */
  ghost predicate Pending<T>(m: Memory<T>, s: Shape, p: nat) {
    && s.Branch? && Apart(s) && s.n in m
    && m[s.n].left == Root(s.l) && m[s.n].right == Root(s.r) && m[s.n].parent == p
    && Linked(m, s.l, s.n) && Linked(m, s.r, s.n)
  }

  lemma {:induction false} RootIn(s: Shape)
    ensures s.Branch? ==> s.n in Elems(s)
    ensures Apart(s) ==> 0 !in Elems(s)
  {
    if s.Branch? { RootIn(s.l); RootIn(s.r); }
  }

  /** What a child pointer to the root of a linked tree leads to. */
  lemma {:induction false} RootIs<T>(m: Memory<T>, s: Shape, p: nat)
    requires Linked(m, s, p) && Apart(s)
    ensures NodeCount(m, Root(s)) == Size(s) && (Root(s) == 0 <==> s.Leaf?) && (Root(s) == 0 || Root(s) in m)
    ensures Root(s) != 0 ==> Root(s) in Elems(s)
  {
  }

  /** x has subtrees l and r in place and the right parent and count. */
  lemma {:induction false} Joined<T>(m: Memory<T>, l: Shape, x: nat, r: Shape, p: nat)
    requires Linked(m, l, x) && Linked(m, r, x) && x in m
    requires m[x].left == Root(l) && m[x].right == Root(r) && m[x].parent == p && m[x].count == Size(l) + Size(r) + 1
    ensures Linked(m, Branch(l, x, r), p)
  {
  }

  /** A subtree moves below p: only its root may have changed, and only in the parent. */
  lemma {:induction false} Moved<T>(m: Memory<T>, w: Memory<T>, s: Shape, q: nat, p: nat)
    requires Apart(s) && Linked(m, s, q) && w.Keys == m.Keys
    requires Root(s) != 0 ==> Root(s) in m && w[Root(s)] == m[Root(s)].(parent := p)
    requires forall x :: x in Elems(s) && x in m && x != Root(s) ==> w[x] == m[x]
    ensures Linked(w, s, p)
  {
    LinkedAdopt(m, w, s, q, p);
  }

  lemma {:induction false} SingleParts<T>(m: Memory<T>, a: Shape, x: nat, b: Shape, y: nat, c: Shape, right: bool,
          q: nat)
    requires Pending(m, if right then Branch(Branch(a, x, b), y, c) else Branch(a, x, Branch(b, y, c)), q)
    ensures Linked(m, a, x) && Linked(m, b, if right then x else y) && Linked(m, c, y)
    ensures x in m && y in m && m[x].left == Root(a) && m[y].right == Root(c)
    ensures if right then m[x].right == Root(b) && m[y].left == x else m[x].right == y && m[y].left == Root(b)
    ensures Apart(a) && Apart(b) && Apart(c) && x != y && x != 0 && y != 0
    ensures {x, y} !! Elems(a) && {x, y} !! Elems(b) && {x, y} !! Elems(c)
    ensures Elems(a) !! Elems(b) + Elems(c) && Elems(b) !! Elems(c)
  {
    var child := if right then Branch(a, x, b) else Branch(b, y, c);
    assert Linked(m, child, if right then y else x);
    assert Apart(child);
    assert Elems(child) == Elems(child.l) + {child.n} + Elems(child.r);
  }

  lemma {:induction false} SingleTree<T>(m: Memory<T>, w: Memory<T>, a: Shape, x: nat, b: Shape, y: nat, c: Shape,
          right: bool, q: nat, p: nat)
    requires Pending(m, if right then Branch(Branch(a, x, b), y, c) else Branch(a, x, Branch(b, y, c)), q)
    requires SingleAfter(m, w, Root(a), x, Root(b), y, Root(c), right, p)
    ensures Linked(w, if right then Branch(a, x, Branch(b, y, c)) else Branch(Branch(a, x, b), y, c), p)
  {
    SingleParts(m, a, x, b, y, c, right, q);
    RootIs(m, a, x); RootIs(m, b, if right then x else y); RootIs(m, c, y);
    RootIn(a); RootIn(b); RootIn(c);
    LinkedFrame(m, w, a, x);
    LinkedFrame(m, w, c, y);
    Moved(m, w, b, if right then x else y, if right then y else x);
    if right {
      Joined(w, b, y, c, x);
      Joined(w, a, x, Branch(b, y, c), p);
    } else {
      Joined(w, a, x, b, y);
      Joined(w, Branch(a, x, b), y, c, p);
    }
  }

  lemma {:induction false} DoubleParts<T>(m: Memory<T>, a: Shape, x: nat, b: Shape, g: nat, c: Shape, y: nat, d: Shape,
          right: bool, q: nat)
    requires Pending(m, if right then Branch(Branch(a, x, Branch(b, g, c)), y, d)
               else Branch(a, x, Branch(Branch(b, g, c), y, d)), q)
    ensures Linked(m, a, x) && Linked(m, b, g) && Linked(m, c, g) && Linked(m, d, y)
    ensures x in m && g in m && y in m
    ensures m[x].left == Root(a) && m[g].left == Root(b) && m[g].right == Root(c) && m[y].right == Root(d)
    ensures if right then m[x].right == g && m[y].left == x else m[x].right == y && m[y].left == g
  {
    var lower := Branch(b, g, c);
    assert Linked(m, if right then Branch(a, x, lower) else Branch(lower, y, d), if right then y else x);
    assert Linked(m, lower, if right then x else y);
  }

  lemma {:induction false} DoubleApart(a: Shape, x: nat, b: Shape, g: nat, c: Shape, y: nat, d: Shape, right: bool)
    requires Apart(if right then Branch(Branch(a, x, Branch(b, g, c)), y, d)
               else Branch(a, x, Branch(Branch(b, g, c), y, d)))
    ensures Apart(a) && Apart(b) && Apart(c) && Apart(d)
    ensures x != g && g != y && x != y && x != 0 && g != 0 && y != 0
    ensures {x, g, y} !! Elems(a) && {x, g, y} !! Elems(d) && {x, g, y} !! Elems(b) && {x, g, y} !! Elems(c)
    ensures Elems(a) !! Elems(b) + Elems(c) + Elems(d) && Elems(b) !! Elems(c) + Elems(d) && Elems(c) !! Elems(d)
  {
    var lower := Branch(b, g, c);
    var child := if right then Branch(a, x, lower) else Branch(lower, y, d);
    assert Apart(child);
    assert Apart(lower);
    assert Elems(child) == Elems(child.l) + {child.n} + Elems(child.r);
    assert Elems(lower) == Elems(b) + {g} + Elems(c);
  }

  lemma {:induction false} DoubleTree<T>(m: Memory<T>, w: Memory<T>, a: Shape, x: nat, b: Shape, g: nat, c: Shape,
          y: nat, d: Shape, right: bool, q: nat, p: nat)
    requires Pending(m, if right then Branch(Branch(a, x, Branch(b, g, c)), y, d)
               else Branch(a, x, Branch(Branch(b, g, c), y, d)), q)
    requires DoubleAfter(m, w, Root(a), x, Root(b), g, Root(c), y, Root(d), p)
    ensures Linked(w, Branch(Branch(a, x, b), g, Branch(c, y, d)), p)
  {
    DoubleParts(m, a, x, b, g, c, y, d, right, q);
    DoubleApart(a, x, b, g, c, y, d, right);
    DoubleJoin(m, w, a, x, b, g, c, y, d, p);
  }

  lemma {:induction false} DoubleJoin<T>(m: Memory<T>, w: Memory<T>, a: Shape, x: nat, b: Shape, g: nat, c: Shape,
          y: nat, d: Shape, p: nat)
    requires DoubleAfter(m, w, Root(a), x, Root(b), g, Root(c), y, Root(d), p)
    requires Linked(m, a, x) && Linked(m, b, g) && Linked(m, c, g) && Linked(m, d, y)
    requires Apart(a) && Apart(b) && Apart(c) && Apart(d)
    requires {x, g, y} !! Elems(a) && {x, g, y} !! Elems(d) && {x, g, y} !! Elems(b) && {x, g, y} !! Elems(c)
    requires Elems(a) !! Elems(b) + Elems(c) + Elems(d) && Elems(b) !! Elems(c) + Elems(d) && Elems(c) !! Elems(d)
    ensures Linked(w, Branch(Branch(a, x, b), g, Branch(c, y, d)), p)
  {
    RootIs(m, a, x); RootIs(m, b, g); RootIs(m, c, g); RootIs(m, d, y);
    LeftJoin(m, w, a, x, b, g, c, y, d, p);
    RightJoin(m, w, a, x, b, g, c, y, d, p);
    Joined(w, Branch(a, x, b), g, Branch(c, y, d), p);
  }

  lemma {:induction false} LeftJoin<T>(m: Memory<T>, w: Memory<T>, a: Shape, x: nat, b: Shape, g: nat, c: Shape, y: nat,
          d: Shape, p: nat)
    requires DoubleAfter(m, w, Root(a), x, Root(b), g, Root(c), y, Root(d), p)
    requires Linked(m, a, x) && Linked(m, b, g) && Linked(m, c, g) && Apart(a) && Apart(b) && Apart(c)
    requires {x, g, y} !! Elems(a) && {x, g, y} !! Elems(b)
    requires Elems(a) !! Elems(b) + Elems(c) && Elems(b) !! Elems(c)
    ensures Linked(w, Branch(a, x, b), g)
  {
    RootIs(m, a, x); RootIs(m, b, g); RootIs(m, c, g);
    RootIn(a); RootIn(b); RootIn(c);
    LinkedFrame(m, w, a, x);
    Moved(m, w, b, g, x);
    Joined(w, a, x, b, g);
  }

  lemma {:induction false} RightJoin<T>(m: Memory<T>, w: Memory<T>, a: Shape, x: nat, b: Shape, g: nat, c: Shape,
          y: nat, d: Shape, p: nat)
    requires DoubleAfter(m, w, Root(a), x, Root(b), g, Root(c), y, Root(d), p)
    requires Linked(m, b, g) && Linked(m, c, g) && Linked(m, d, y) && Apart(b) && Apart(c) && Apart(d)
    requires {x, g, y} !! Elems(c) && {x, g, y} !! Elems(d)
    requires Elems(b) !! Elems(c) + Elems(d) && Elems(c) !! Elems(d)
    ensures Linked(w, Branch(c, y, d), g)
  {
    RootIs(m, b, g); RootIs(m, c, g); RootIs(m, d, y);
    RootIn(b); RootIn(c); RootIn(d);
    LinkedFrame(m, w, d, y);
    Moved(m, w, c, g, y);
    Joined(w, c, y, d, g);
  }

  // ---------------------------------------------------------------- one turn of the loop

  /** Nothing but the links of nodes in `who` has changed. */
  ghost predicate Touches<T>(m: Memory<T>, w: Memory<T>, who: set<nat>) {
    SameThreads(m, w) && forall z :: z in m && z !in who ==> w[z] == m[z]
  }

  lemma {:induction false} SingleTouches<T>(m: Memory<T>, w: Memory<T>, a: nat, x: nat, b: nat, y: nat, c: nat,
          right: bool, p: nat, who: set<nat>)
    requires SingleAfter(m, w, a, x, b, y, c, right, p) && x in who && y in who && (b != 0 ==> b in who)
    ensures Touches(m, w, who)
  {
  }

  lemma {:induction false} DoubleTouches<T>(m: Memory<T>, w: Memory<T>, a: nat, x: nat, b: nat, g: nat, c: nat, y: nat,
          d: nat, p: nat, who: set<nat>)
    requires DoubleAfter(m, w, a, x, b, g, c, y, d, p) && x in who && y in who && g in who && (b != 0 ==> b in who)
    requires (c != 0 ==> c in who)
    ensures Touches(m, w, who)
  {
  }

  lemma {:induction false} DoubleIn(a: Shape, x: nat, b: Shape, g: nat, c: Shape, y: nat, d: Shape, right: bool)
    ensures var s := if right then Branch(Branch(a, x, Branch(b, g, c)), y, d)
                     else Branch(a, x, Branch(Branch(b, g, c), y, d));
            {x, g, y} + Elems(b) + Elems(c) <= Elems(s)
  {
    var lower := Branch(b, g, c);
    assert Elems(lower) == Elems(b) + {g} + Elems(c);
    var child := if right then Branch(a, x, lower) else Branch(lower, y, d);
    assert Elems(child) == Elems(child.l) + {child.n} + Elems(child.r);
  }

  /** The left subtree is too heavy. */
  method RotateRight<T>(m0: Memory<T>, avlnode: nat, parent: nat, ghost s: Shape) returns (m: Memory<T>, root: nat)
    requires Pending(m0, s, parent) && avlnode == s.n && s.l.Branch?
    ensures Linked(m, TurnRight(s.l, s.n, s.r), parent) && root == TurnRight(s.l, s.n, s.r).n
    ensures Touches(m0, m, Elems(s))
  {
    ghost var k := s.l;
    SingleParts(m0, k.l, k.n, k.r, s.n, s.r, true, parent);
    RootIs(m0, k.l, k.n); RootIs(m0, k.r, k.n);
    var child := m0[avlnode].left;
    if NodeCount(m0, m0[child].left) >= NodeCount(m0, m0[child].right) {
      m, root := SingleRightTurn(m0, avlnode, parent, s);
    } else {
      m, root := DoubleRightTurn(m0, avlnode, parent, s);
    }
  }

  method SingleRightTurn<T>(m0: Memory<T>, avlnode: nat, parent: nat, ghost s: Shape) returns (m: Memory<T>, root: nat)
    requires Pending(m0, s, parent) && avlnode == s.n && s.l.Branch?
    ensures root == s.l.n && Linked(m, Branch(s.l.l, s.l.n, Branch(s.l.r, s.n, s.r)), parent)
    ensures Touches(m0, m, Elems(s))
  {
    ghost var k := s.l;
    SingleParts(m0, k.l, k.n, k.r, s.n, s.r, true, parent);
    RootIs(m0, k.l, k.n); RootIs(m0, k.r, k.n); RootIs(m0, s.r, s.n);
    m, root := SingleRight(m0, avlnode, parent);
    SingleTree(m0, m, k.l, k.n, k.r, s.n, s.r, true, parent, parent);
    SingleTouches(m0, m, Root(k.l), k.n, Root(k.r), s.n, Root(s.r), true, parent, Elems(s));
  }

  method DoubleRightTurn<T>(m0: Memory<T>, avlnode: nat, parent: nat, ghost s: Shape) returns (m: Memory<T>, root: nat)
    requires Pending(m0, s, parent) && avlnode == s.n && s.l.Branch? && s.l.r.Branch?
    ensures var k, g := s.l, s.l.r;
            root == g.n && Linked(m, Branch(Branch(k.l, k.n, g.l), g.n, Branch(g.r, s.n, s.r)), parent)
    ensures Touches(m0, m, Elems(s))
  {
    ghost var k, g := s.l, s.l.r;
    DoubleParts(m0, k.l, k.n, g.l, g.n, g.r, s.n, s.r, true, parent);
    DoubleApart(k.l, k.n, g.l, g.n, g.r, s.n, s.r, true);
    RootIs(m0, k.l, k.n); RootIs(m0, g.l, g.n); RootIs(m0, g.r, g.n); RootIs(m0, s.r, s.n);
    m, root := DoubleRight(m0, avlnode, parent);
    DoubleTree(m0, m, k.l, k.n, g.l, g.n, g.r, s.n, s.r, true, parent, parent);
    DoubleIn(k.l, k.n, g.l, g.n, g.r, s.n, s.r, true);
    DoubleTouches(m0, m, Root(k.l), k.n, Root(g.l), g.n, Root(g.r), s.n, Root(s.r), parent, Elems(s));
  }

  /** The right subtree is too heavy. */
  method RotateLeft<T>(m0: Memory<T>, avlnode: nat, parent: nat, ghost s: Shape) returns (m: Memory<T>, root: nat)
    requires Pending(m0, s, parent) && avlnode == s.n && s.r.Branch?
    ensures Linked(m, TurnLeft(s.l, s.n, s.r), parent) && root == TurnLeft(s.l, s.n, s.r).n
    ensures Touches(m0, m, Elems(s))
  {
    ghost var k := s.r;
    SingleParts(m0, s.l, s.n, k.l, k.n, k.r, false, parent);
    RootIs(m0, k.l, k.n); RootIs(m0, k.r, k.n);
    var child := m0[avlnode].right;
    if NodeCount(m0, m0[child].right) >= NodeCount(m0, m0[child].left) {
      m, root := SingleLeftTurn(m0, avlnode, parent, s);
    } else {
      m, root := DoubleLeftTurn(m0, avlnode, parent, s);
    }
  }

  method SingleLeftTurn<T>(m0: Memory<T>, avlnode: nat, parent: nat, ghost s: Shape) returns (m: Memory<T>, root: nat)
    requires Pending(m0, s, parent) && avlnode == s.n && s.r.Branch?
    ensures root == s.r.n && Linked(m, Branch(Branch(s.l, s.n, s.r.l), s.r.n, s.r.r), parent)
    ensures Touches(m0, m, Elems(s))
  {
    ghost var k := s.r;
    SingleParts(m0, s.l, s.n, k.l, k.n, k.r, false, parent);
    RootIs(m0, s.l, s.n); RootIs(m0, k.l, k.n); RootIs(m0, k.r, k.n);
    m, root := SingleLeft(m0, avlnode, parent);
    SingleTree(m0, m, s.l, s.n, k.l, k.n, k.r, false, parent, parent);
    SingleTouches(m0, m, Root(s.l), s.n, Root(k.l), k.n, Root(k.r), false, parent, Elems(s));
  }

  method DoubleLeftTurn<T>(m0: Memory<T>, avlnode: nat, parent: nat, ghost s: Shape) returns (m: Memory<T>, root: nat)
    requires Pending(m0, s, parent) && avlnode == s.n && s.r.Branch? && s.r.l.Branch?
    ensures var k, g := s.r, s.r.l;
            root == g.n && Linked(m, Branch(Branch(s.l, s.n, g.l), g.n, Branch(g.r, k.n, k.r)), parent)
    ensures Touches(m0, m, Elems(s))
  {
    ghost var k, g := s.r, s.r.l;
    DoubleParts(m0, s.l, s.n, g.l, g.n, g.r, k.n, k.r, false, parent);
    DoubleApart(s.l, s.n, g.l, g.n, g.r, k.n, k.r, false);
    RootIs(m0, s.l, s.n); RootIs(m0, g.l, g.n); RootIs(m0, g.r, g.n); RootIs(m0, k.r, k.n);
    m, root := DoubleLeft(m0, avlnode, parent);
    DoubleTree(m0, m, s.l, s.n, g.l, g.n, g.r, k.n, k.r, false, parent, parent);
    DoubleIn(s.l, s.n, g.l, g.n, g.r, k.n, k.r, false);
    DoubleTouches(m0, m, Root(s.l), s.n, Root(g.l), g.n, Root(g.r), k.n, Root(k.r), parent, Elems(s));
  }
}
