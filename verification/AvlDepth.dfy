/** Balance on runs of insertions, and the depth it implies, for the tree of src/sc_avl.c. */
module AvlDepth {
  import opened AvlShape
  import opened Powers
  import opened AvlBalance
  import opened AvlRebalance

  /** What the bit length says about u at the powers around 2^k. */
  lemma {:induction false} Around(u: nat, k: nat)
    ensures u < Pow2(k) <==> BitLen(u) <= k
    ensures u < Pow2(k + 1) <==> BitLen(u) <= k + 1
    ensures u < Pow2(k + 2) <==> BitLen(u) <= k + 2
    ensures k >= 1 ==> (u < Pow2(k - 1) <==> BitLen(u) <= k - 1)
    ensures k >= 2 ==> (u < Pow2(k - 2) <==> BitLen(u) <= k - 2)
    ensures Pow2(k + 2) == 2 * Pow2(k + 1) && Pow2(k + 1) == 2 * Pow2(k)
    ensures k >= 1 ==> Pow2(k) == 2 * Pow2(k - 1)
    ensures k >= 2 ==> Pow2(k - 1) == 2 * Pow2(k - 2)
  {
    BitLenIs(u, k); BitLenIs(u, k + 1); BitLenIs(u, k + 2);
    if k >= 1 { BitLenIs(u, k - 1); }
    if k >= 2 { BitLenIs(u, k - 2); }
  }

  /** A single rotation: sizes a, b below the heavy child, r on the light side. */
  lemma {:induction false} SingleEven(k: nat, a: nat, b: nat, r: nat, ab: nat, br: nat)
    requires ab == a + b + 1 && br == b + r + 1
    requires BitLen(ab) == k + 2 && BitLen(r) == k && a >= b && Close(a, b)
    ensures Close(b, r) && Close(a, br)
  {
    Around(ab, k); Around(a, k); Around(b, k); Around(r, k); Around(br, k);
    BitLenBounds(0);
  }

  /** The heavy side has just reached 2^(k+1), and its inner half is the larger one. */
  lemma {:induction false} HalvesAre(k: nat, a: nat, b: nat)
    requires a + b + 1 == Pow2(k + 1) && a < b && Close(a, b)
    ensures BitLen(a) == k && BitLen(b) == k + 1
  {
    Around(a, k); Around(b, k);
    Pow2Mono(0, k);
  }

  lemma {:induction false} InnerAre(k: nat, a: nat, b: nat, c: nat, bc: nat)
    requires bc == b + c + 1 && a + bc + 1 == Pow2(k + 1) && BitLen(a) == k && BitLen(bc) == k + 1 && Close(b, c)
    ensures k - 1 <= BitLen(b) <= k
  {
    Around(a, k); Around(bc, k); Around(b, k); Around(c, k);
    Pow2Mono(0, k);
  }

  lemma {:induction false} PairIs(k: nat, a: nat, b: nat, ab: nat)
    requires ab == a + b + 1 && BitLen(a) == k && k - 1 <= BitLen(b) <= k
    ensures Close(a, b) && k <= BitLen(ab) <= k + 1
  {
    Around(a, k); Around(b, k); Around(ab, k);
    Pow2Mono(0, k);
  }

  /** A double rotation: sizes a, b, c, r from left to right. */
  lemma {:induction false} DoubleEven(k: nat, a: nat, b: nat, c: nat, r: nat, bc: nat, ab: nat, cr: nat)
    requires bc == b + c + 1 && ab == a + b + 1 && cr == c + r + 1
    requires a + bc + 1 == Pow2(k + 1) && BitLen(r) == k && a < bc && Close(a, bc) && Close(b, c)
    ensures Close(a, b) && Close(c, r) && Close(ab, cr)
  {
    HalvesAre(k, a, bc);
    InnerAre(k, a, b, c, bc);
    InnerAre(k, a, c, b, bc);
    PairIs(k, a, b, ab);
    PairIs(k, r, c, cr);
  }

  /** The heavier child has just grown to a power of two, or the node is even. */
  ghost predicate JustGrown(l: nat, r: nat) {
    Close(l, r) || l == Pow2(BitLen(r) + 1) || r == Pow2(BitLen(l) + 1)
  }

  lemma {:induction false} PowBits(k: nat)
    ensures BitLen(Pow2(k)) == k + 1
  {
    if k > 0 { PowBits(k - 1); }
  }

  /** Growing by one can break the rule only by reaching a power of two. */
  lemma {:induction false} GrowsTo(l: nat, l': nat, r: nat)
    requires Close(l, r) && l' == l + 1
    ensures JustGrown(l', r) && JustGrown(r, l')
  {
    var k := BitLen(r);
    BitLenIs(l, k + 1);
    BitLenIs(l', k + 1);
    BitLenIs(l, BitLen(l'));
    BitLenBounds(l');
  }

  lemma {:induction false} BranchOf(l: Shape, n: nat, r: Shape)
    ensures Balanced(l) && Balanced(r) && Close(Size(l), Size(r)) ==> Balanced(Branch(l, n, r))
    ensures Size(Branch(l, n, r)) == Size(l) + Size(r) + 1
  {
  }

  lemma {:induction false} PartsOf(s: Shape)
    requires s.Branch? && Balanced(s)
    ensures Balanced(s.l) && Balanced(s.r) && Close(Size(s.l), Size(s.r)) && Size(s) == Size(s.l) + Size(s.r) + 1
  {
  }

  /** The parts of a heavy side of 2^(k+1) nodes and of a light side r: outer part a, inner part b. */
  ghost predicate HeavySide(a: Shape, b: Shape, r: Shape, heavy: nat) {
    && Balanced(a) && Balanced(b) && Balanced(r) && Close(Size(a), Size(b))
    && heavy == Size(a) + Size(b) + 1 && heavy == Pow2(Bits(r) + 1)
  }

  lemma {:induction false} OuterHeavy(a: Shape, b: Shape, r: Shape, heavy: nat, br: Shape)
    requires HeavySide(a, b, r, heavy) && Size(a) >= Size(b) && Size(br) == Size(b) + Size(r) + 1
    ensures Close(Size(b), Size(r)) && Close(Size(r), Size(b)) && Close(Size(a), Size(br)) && Close(Size(br), Size(a))
  {
    PowBits(Bits(r) + 1);
    SingleEven(Bits(r), Size(a), Size(b), Size(r), heavy, Size(br));
  }

  lemma {:induction false} InnerHeavy(a: Shape, b: Shape, c: Shape, r: Shape, bc: Shape, heavy: nat, ab: Shape,
          cr: Shape)
    requires HeavySide(a, bc, r, heavy) && Size(a) < Size(bc) && Size(bc) == Size(b) + Size(c) + 1
    requires Close(Size(b), Size(c))
    requires Size(ab) == Size(a) + Size(b) + 1 && Size(cr) == Size(c) + Size(r) + 1
    ensures Close(Size(a), Size(b)) && Close(Size(b), Size(a)) && Close(Size(c), Size(r)) && Close(Size(r), Size(c))
    ensures Close(Size(ab), Size(cr)) && Close(Size(cr), Size(ab))
  {
    DoubleEven(Bits(r), Size(a), Size(b), Size(c), Size(r), Size(bc), Size(ab), Size(cr));
  }

  /** One turn restores the balance of a node whose subtree has grown by one. */
  lemma {:induction false} RightTurnRestores(l: Shape, n: nat, r: Shape)
    requires l.Branch? && HeavySide(l.l, l.r, r, Size(l))
    ensures Balanced(TurnRight(l, n, r))
  {
    var a, b := l.l, l.r;
    if Size(a) >= Size(b) {
      var br := Branch(b, n, r);
      BranchOf(b, n, r);
      OuterHeavy(a, b, r, Size(l), br);
      BranchOf(a, l.n, br);
    } else {
      var ab, cr := Branch(a, l.n, b.l), Branch(b.r, n, r);
      PartsOf(b);
      BranchOf(a, l.n, b.l);
      BranchOf(b.r, n, r);
      InnerHeavy(a, b.l, b.r, r, b, Size(l), ab, cr);
      BranchOf(ab, b.n, cr);
    }
  }

  lemma {:induction false} LeftTurnRestores(l: Shape, n: nat, r: Shape)
    requires r.Branch? && HeavySide(r.r, r.l, l, Size(r))
    ensures Balanced(TurnLeft(l, n, r))
  {
    var a, b := r.r, r.l;
    if Size(a) >= Size(b) {
      var br := Branch(l, n, b);
      BranchOf(l, n, b);
      OuterHeavy(a, b, l, Size(r), br);
      BranchOf(br, r.n, a);
    } else {
      var ab, cr := Branch(b.r, r.n, a), Branch(l, n, b.l);
      PartsOf(b);
      BranchOf(b.r, r.n, a);
      BranchOf(l, n, b.l);
      InnerHeavy(a, b.r, b.l, l, b, Size(r), ab, cr);
      BranchOf(cr, b.n, ab);
    }
  }

  lemma {:induction false} HeavyCases(l: nat, r: nat)
    requires JustGrown(l, r) && !Close(l, r)
    ensures || (l == Pow2(BitLen(r) + 1) && BitLen(l) > BitLen(r) + 1)
            || (r == Pow2(BitLen(l) + 1) && BitLen(r) > BitLen(l) + 1)
  {
    PowBits(BitLen(r) + 1);
    PowBits(BitLen(l) + 1);
  }

  lemma {:induction false} FixRestores(s: Shape)
    requires s.Branch? && Balanced(s.l) && Balanced(s.r) && JustGrown(Size(s.l), Size(s.r)) && Size(s) < 0x1_0000_0000
    ensures Balanced(Fix(s))
  {
    if Close(Size(s.l), Size(s.r)) {
      FixIs(s);
    } else {
      HeavyCases(Size(s.l), Size(s.r));
      if Bits(s.l) > Bits(s.r) + 1 {
        FixRight(s);
      } else {
        FixLeft(s);
      }
    }
  }

  lemma {:induction false} FixRight(s: Shape)
    requires s.Branch? && Balanced(s.l) && Balanced(s.r) && Bits(s.l) > Bits(s.r) + 1
    requires Size(s.l) == Pow2(Bits(s.r) + 1) < 0x1_0000_0000
    ensures Balanced(Fix(s))
  {
    FixIs(s);
    PartsOf(s.l);
    RightTurnRestores(s.l, s.n, s.r);
  }

  lemma {:induction false} FixLeft(s: Shape)
    requires s.Branch? && Balanced(s.l) && Balanced(s.r) && Bits(s.r) > Bits(s.l) + 1
    requires Size(s.r) == Pow2(Bits(s.l) + 1) && Size(s.l) < 0x1_0000_0000
    ensures Balanced(Fix(s))
  {
    FixIs(s);
    PartsOf(s.r);
    LeftTurnRestores(s.l, s.n, s.r);
  }

  // ---------------------------------------------------------------- a run of turns

  /** g is s with one of its subtrees replaced by a balanced one that has one node more. */
  ghost predicate Grew(s: Shape, g: Shape) {
    && s.Branch? && g.Branch?
    && ( || (g.r == s.r && Size(g.l) == Size(s.l) + 1 && Balanced(g.l))
         || (g.l == s.l && Size(g.r) == Size(s.r) + 1 && Balanced(g.r)))
  }

  lemma {:induction false} BalancedPlug(c: Path, s: Shape)
    requires Balanced(Plug(c, s))
    ensures Balanced(s) && Size(s) <= Size(Plug(c, s))
  {
    match c
    case Top =>
    case InLeft(up, n, r) => BalancedPlug(up, Branch(s, n, r));
    case InRight(up, l, n) => BalancedPlug(up, Branch(l, n, s));
  }

  lemma {:induction false} LevelRestores(s: Shape, g: Shape)
    requires Balanced(s) && Grew(s, g) && Size(s) + 1 < 0x1_0000_0000
    ensures Fix(g).Branch? && Balanced(Fix(g)) && Size(Fix(g)) == Size(s) + 1
  {
    if g.r == s.r && Size(g.l) == Size(s.l) + 1 && Balanced(g.l) {
      GrowsTo(Size(s.l), Size(g.l), Size(s.r));
    } else {
      GrowsTo(Size(s.r), Size(g.r), Size(s.l));
    }
    FixRestores(g);
    FixKeeps(g);
  }

  /** After an insertion into a balanced tree the turns up to the root make it balanced again. */
  lemma {:induction false} RebalanceRestores(c: Path, s: Shape, g: Shape)
    requires Balanced(Plug(c, s)) && Grew(s, g) && Size(Plug(c, s)) + 1 < 0x1_0000_0000
    ensures Balanced(RebalanceUp(c, g))
    decreases c
  {
    BalancedPlug(c, s);
    LevelRestores(s, g);
    match c
    case Top =>
    case InLeft(up, n, r) =>
      RebalanceRestores(up, Branch(s, n, r), Branch(Fix(g), n, r));
    case InRight(up, l, n) =>
      RebalanceRestores(up, Branch(l, n, s), Branch(l, n, Fix(g)));
  }

  // ---------------------------------------------------------------- depth

  ghost function Depth(c: Path): nat { if c.Top? then 0 else 1 + Depth(c.up) }

  function Pow(b: nat, e: nat): nat { if e == 0 then 1 else b * Pow(b, e - 1) }

  /** A child has at most four fifths of the nodes. */
  lemma {:induction false} FourFifths(a: nat, b: nat)
    requires Close(a, b)
    ensures 5 * a <= 4 * (a + b + 1)
  {
    BitLenBounds(b);
    BitLenIs(a, BitLen(b) + 1);
  }

  lemma {:induction false} Scale(p: nat, q: nat, a: nat, n: nat, t: nat)
    requires 5 * a <= 4 * n && p * n <= q * t
    ensures (5 * p) * a <= (4 * q) * t
  {
    assert (5 * p) * a == p * (5 * a);
    assert p * (5 * a) <= p * (4 * n);
    assert p * (4 * n) == 4 * (p * n);
    assert (4 * q) * t == 4 * (q * t);
  }

  /** A node at depth h of a balanced tree with n nodes has 5^h <= 4^h n. */
  lemma {:induction false} DepthBound(c: Path, s: Shape)
    requires Balanced(Plug(c, s))
    ensures Pow(5, Depth(c)) * Size(s) <= Pow(4, Depth(c)) * Size(Plug(c, s))
    ensures s.Branch? ==> Pow(5, Depth(c)) <= Pow(4, Depth(c)) * Size(Plug(c, s))
  {
    match c {
      case Top =>
      case InLeft(up, n, r) =>
        var t := Branch(s, n, r);
        DepthBound(up, t);
        BalancedPlug(up, t);
        FourFifths(Size(s), Size(r));
        Scale(Pow(5, Depth(up)), Pow(4, Depth(up)), Size(s), Size(t), Size(Plug(up, t)));
      case InRight(up, l, n) =>
        var t := Branch(l, n, s);
        DepthBound(up, t);
        BalancedPlug(up, t);
        FourFifths(Size(s), Size(l));
        Scale(Pow(5, Depth(up)), Pow(4, Depth(up)), Size(s), Size(t), Size(Plug(up, t)));
    }
    AtLeast(Pow(5, Depth(c)), Size(s));
  }

  lemma {:induction false} AtLeast(p: nat, n: nat)
    ensures n >= 1 ==> p <= p * n
  {
  }
}
