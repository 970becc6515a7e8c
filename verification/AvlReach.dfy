/** The trees that insertions make: exactly the balanced ones (src/sc_avl.c). */
module AvlReach {
  import opened AvlShape
  import opened Powers
  import opened AvlBalance
  import opened AvlRebalance
  import opened AvlThread
  import opened AvlDepth
  import opened AvlTree

  /** Where all is balanced the turns change nothing. */
  lemma {:induction false} NoTurns(c: Path, g: Shape)
    requires g.Branch? && Balanced(Plug(c, g)) && Size(Plug(c, g)) < 0x1_0000_0000
    ensures RebalanceUp(c, g) == Plug(c, g)
    decreases c
  {
    BalancedPlug(c, g);
    NoTurn(g);
    match c
    case Top =>
    case InLeft(up, n, r) => NoTurns(up, Branch(g, n, r));
    case InRight(up, l, n) => NoTurns(up, Branch(l, n, g));
  }

  lemma {:induction false} NoTurn(g: Shape)
    requires g.Branch? && Balanced(g) && Size(g) < 0x1_0000_0000
    ensures Fix(g) == g
  {
    FixIs(g);
  }

  lemma {:induction false} LosesFirst(k: nat, j: nat)
    requires Close(k + 1, j) && BitLen(k + 1) >= BitLen(j)
    ensures Close(k, j) && Close(j, k)
  {
    BitLenIs(k, BitLen(k + 1));
    BitLenBounds(k + 1);
    BitLenIs(k + 1, BitLen(k) + 1);
    BitLenBounds(k);
    Pow2Mono(0, BitLen(k));
  }

  /** The smaller tree with h0 in place of the side h, which is the longer one in bits. */
  lemma {:induction false} SideShrinks(h0: Shape, h: Shape, n: nat, other: Shape)
    requires Balanced(h0) && Size(h0) + 1 == Size(h) && Balanced(other) && Close(Size(h), Size(other))
    requires Bits(h) >= Bits(other)
    ensures Balanced(Branch(h0, n, other)) && Balanced(Branch(other, n, h0))
  {
    LosesFirst(Size(h0), Size(other));
    BranchOf(h0, n, other);
    BranchOf(other, n, h0);
  }

  /** What is left of s when a leaf is plucked from it, and where it was. */
  datatype Plucked = Plucked(rest: Shape, d: Path, t: Shape, x: nat, left: bool)

  ghost predicate PluckedFrom(p: Plucked, c: Path, s: Shape) {
    && p.t.Branch? && (if p.left then p.t.l.Leaf? else p.t.r.Leaf?)
    && Plug(c, p.rest) == Plug(p.d, p.t) && Plug(c, s) == Plug(p.d, Grown(p.t, p.x, p.left))
  }

  lemma {:induction false} SizeOne(s: Shape)
    requires Size(s) == 1
    ensures s.Branch? && s == Leafy(s.n)
  {
    EmptyIsLeaf(s.l);
    EmptyIsLeaf(s.r);
  }

  lemma {:induction false} EmptyIsLeaf(s: Shape)
    ensures Size(s) == 0 <==> s.Leaf?
  {
  }

  /** A leaf can be plucked from the side that is longer in bits, so that the rest is balanced. */
  lemma {:induction false} Pluck(c: Path, s: Shape) returns (p: Plucked)
    requires Balanced(s) && Size(s) >= 2
    ensures PluckedFrom(p, c, s) && Balanced(p.rest) && Size(p.rest) + 1 == Size(s)
    decreases s
  {
    PartsOf(s);
    LongerSide(Size(s.l), Size(s.r));
    if Bits(s.l) >= Bits(s.r) {
      p := PluckLeft(c, s);
    } else {
      p := PluckRight(c, s);
    }
  }

  lemma {:induction false} LongerSide(l: nat, r: nat)
    requires l + r + 1 >= 2
    ensures BitLen(l) >= BitLen(r) ==> l >= 1
    ensures BitLen(r) >= BitLen(l) ==> r >= 1
  {
    BitLenBounds(l);
    BitLenBounds(r);
  }

  lemma {:induction false} PluckLeft(c: Path, s: Shape) returns (p: Plucked)
    requires s.Branch? && Balanced(s.l) && Balanced(s.r) && Close(Size(s.l), Size(s.r))
    requires Bits(s.l) >= Bits(s.r) && Size(s.l) >= 1
    ensures PluckedFrom(p, c, s) && Balanced(p.rest) && Size(p.rest) + 1 == Size(s)
    decreases s, 0
  {
    var h0: Shape;
    if Size(s.l) == 1 {
      SizeOne(s.l);
      h0 := Leaf;
      assert Size(Leaf) == 0 && Balanced(Leaf);
      var rest := Branch(Leaf, s.n, s.r);
      p := Plucked(rest, c, rest, s.l.n, true);
    } else {
      var q := Pluck(InLeft(c, s.n, s.r), s.l);
      h0 := q.rest;
      p := q.(rest := Branch(h0, s.n, s.r));
    }
    SideShrinks(h0, s.l, s.n, s.r);
  }

  lemma {:induction false} PluckRight(c: Path, s: Shape) returns (p: Plucked)
    requires s.Branch? && Balanced(s.l) && Balanced(s.r) && Close(Size(s.l), Size(s.r))
    requires Bits(s.r) >= Bits(s.l) && Size(s.r) >= 1
    ensures PluckedFrom(p, c, s) && Balanced(p.rest) && Size(p.rest) + 1 == Size(s)
    decreases s, 0
  {
    var h0: Shape;
    if Size(s.r) == 1 {
      SizeOne(s.r);
      h0 := Leaf;
      assert Size(Leaf) == 0 && Balanced(Leaf);
      var rest := Branch(s.l, s.n, Leaf);
      p := Plucked(rest, c, rest, s.r.n, false);
    } else {
      var q := Pluck(InRight(c, s.l, s.n), s.r);
      h0 := q.rest;
      p := q.(rest := Branch(s.l, s.n, h0));
    }
    SideShrinks(h0, s.r, s.n, s.l);
  }

  /** Putting the leaf back is an insertion. */
  lemma {:induction false} PluckedInserts(p: Plucked, s: Shape)
    requires PluckedFrom(p, Top, s) && Balanced(s) && Size(s) < 0x1_0000_0000
    ensures IsInsert(p.rest, s) && (Apart(s) ==> Apart(p.rest))
  {
    NoTurns(p.d, Grown(p.t, p.x, p.left));
    assert Inserts(p.rest, s, p.d, p.t, p.x, p.left);
    if Apart(s) {
      GrownOrder(p.d, p.t, p.x, p.left);
      ApartDistinct(s);
      LessDistinct(Order(p.rest), Position(p.d, p.t) + (if p.left then 0 else 1), p.x, Order(s));
      DistinctApart(p.rest);
    }
  }

  lemma {:induction false} LessDistinct(ns: seq<nat>, i: nat, x: nat, os: seq<nat>)
    requires i <= |ns| && os == Inserted(ns, i, x) && Distinct(os) && 0 !in os
    ensures Distinct(ns) && 0 !in ns
  {
    forall k | 0 <= k < |ns| ensures ns[k] == os[if k < i then k else k + 1] { }
  }

  /** Every balanced tree is the end of a run of insertions into the empty tree. */
  lemma {:induction false} RunTo(s: Shape) returns (run: seq<Shape>)
    requires Balanced(s) && Size(s) < 0x1_0000_0000
    ensures InsertRun(run) && |run| == Size(s) + 1 && run[Size(s)] == s
    ensures Apart(s) ==> forall i :: 0 <= i < |run| ==> Apart(run[i])
    decreases Size(s)
  {
    if s.Leaf? {
      run := [s];
    } else if Size(s) == 1 {
      SizeOne(s);
      run := [Leaf, s];
      assert IsInsert(Leaf, s);
    } else {
      var p := Pluck(Top, s);
      PluckedInserts(p, s);
      var before := RunTo(p.rest);
      run := before + [s];
    }
  }

  /** The trees that runs of insertions make are the balanced ones. */
  lemma {:induction false} ReachedIffBalanced(s: Shape)
    requires Size(s) < 0x1_0000_0000
    ensures Balanced(s) <==> exists run :: InsertRun(run) && |run| == Size(s) + 1 && run[Size(s)] == s
  {
    if Balanced(s) {
      var run := RunTo(s);
    }
    if exists run :: InsertRun(run) && |run| == Size(s) + 1 && run[Size(s)] == s {
      var run :| InsertRun(run) && |run| == Size(s) + 1 && run[Size(s)] == s;
      InsertRunBalanced(run, Size(s));
    }
  }
}
