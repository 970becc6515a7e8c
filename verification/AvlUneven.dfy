/** When a removal from the tree of src/sc_avl.c keeps it balanced, and a tree where it does not. */
module AvlUneven {
  import opened AvlShape
  import opened Powers
  import opened AvlBalance
  import opened AvlRebalance
  import opened AvlDepth
  import opened AvlTree
  import opened AvlUnlink
  import opened AvlReach
  import opened SearchTree

  /** The balance rule for the three pairs of siblings that a double rotation makes, in sizes from left to right. */
  ghost predicate Regular(a: nat, b: nat, c: nat, d: nat) {
    Close(a, b) && Close(c, d) && Close(a + b + 1, c + d + 1)
  }

  lemma {:induction false} RegularSwaps(a: nat, b: nat, c: nat, d: nat)
    ensures Regular(a, b, c, d) <==> Regular(d, c, b, a)
  {
    assert a + b + 1 == b + a + 1 && c + d + 1 == d + c + 1;
  }

  lemma {:induction false} DoubleMends(a: Shape, x: nat, b: Shape, g: nat, c: Shape, y: nat, d: Shape)
    requires Balanced(a) && Balanced(b) && Balanced(c) && Balanced(d)
    ensures Balanced(Branch(Branch(a, x, b), g, Branch(c, y, d))) <==> Regular(Size(a), Size(b), Size(c), Size(d))
  {
    BalancedIff(a, x, b);
    BalancedIff(c, y, d);
    TopIff(Branch(a, x, b), g, Branch(c, y, d), Size(a) + Size(b) + 1, Size(c) + Size(d) + 1);
  }

  lemma {:induction false} TopIff(l: Shape, n: nat, r: Shape, k: nat, j: nat)
    requires Size(l) == k && Size(r) == j
    ensures Balanced(Branch(l, n, r)) <==> Balanced(l) && Balanced(r) && Close(k, j)
  {
  }

  lemma {:induction false} BalancedIff(l: Shape, n: nat, r: Shape)
    ensures Balanced(Branch(l, n, r)) <==> Balanced(l) && Balanced(r) && Close(Size(l), Size(r))
    ensures Size(Branch(l, n, r)) == Size(l) + Size(r) + 1
  {
  }

  /**
   A removal can make one side two bits longer than the other.  The single rotation always
   mends this; the double one exactly when the three new pairs of siblings are close.
   */
  lemma {:induction false} RightTurnMends(l: Shape, n: nat, r: Shape)
    requires l.Branch? && Balanced(l) && Balanced(r) && Bits(l) == Bits(r) + 2
    ensures Balanced(TurnRight(l, n, r)) <==>
              Size(l.l) >= Size(l.r) || Regular(Size(l.l), Size(l.r.l), Size(l.r.r), Size(r))
  {
    var a, b := l.l, l.r;
    if Size(a) >= Size(b) {
      var br := Branch(b, n, r);
      SingleEven(Bits(r), Size(a), Size(b), Size(r), Size(l), Size(br));
      BranchOf(b, n, r);
      BranchOf(a, l.n, br);
    } else {
      DoubleMends(a, l.n, b.l, b.n, b.r, n, r);
    }
  }

  lemma {:induction false} LeftTurnMends(l: Shape, n: nat, r: Shape)
    requires r.Branch? && Balanced(l) && Balanced(r) && Bits(r) == Bits(l) + 2
    ensures Balanced(TurnLeft(l, n, r)) <==>
              Size(r.r) >= Size(r.l) || Regular(Size(l), Size(r.l.l), Size(r.l.r), Size(r.r))
  {
    var a, b := r.r, r.l;
    if Size(a) >= Size(b) {
      var br := Branch(l, n, b);
      SingleEven(Bits(l), Size(a), Size(b), Size(l), Size(r), Size(br));
      BranchOf(l, n, b);
      BranchOf(br, r.n, a);
    } else {
      DoubleMends(l, n, b.l, b.n, b.r, r.n, a);
    }
  }

  // ---------------------------------------------------------------- the hole that a removal leaves

  /** The path to the place of the last node of s, which is below base. */
  ghost function LastHole(base: Path, s: Shape): Path
    requires s.Branch?
    decreases s
  {
    if s.r.Leaf? then base else LastHole(InRight(base, s.l, s.n), s.r)
  }

  /** Where the removal of t's root leaves a hole, and the subtree that fills it. */
  ghost function Hole(c: Path, t: Shape): (Path, Shape)
    requires t.Branch?
  {
    if t.l.Leaf? then (c, t.r)
    else if t.r.Leaf? then (c, t.l)
    else (LastHole(InLeft(c, LastNode(t.l), t.r), t.l), LastLeft(t.l))
  }

  /** The turns up from a filled hole. */
  ghost function UpFrom(p: Path, u: Shape): Shape
    decreases p
  {
    match p
    case Top => u
    case InLeft(up, n, r) => UpFrom(up, Fix(Branch(u, n, r)))
    case InRight(up, l, n) => UpFrom(up, Fix(Branch(l, n, u)))
  }

  lemma {:induction false} UpIs(p: Path, g: Shape)
    requires g.Branch?
    ensures RebalanceUp(p, g) == UpFrom(p, Fix(g))
    decreases p
  {
    FixKeeps(g);
    match p
    case Top =>
    case InLeft(up, n, r) => UpIs(up, Branch(Fix(g), n, r));
    case InRight(up, l, n) => UpIs(up, Branch(l, n, Fix(g)));
  }

  lemma {:induction false} LastHoleIs(base: Path, s: Shape)
    requires s.Branch? && s.r.Branch?
    ensures var (e, g) := Cut(base, s); g.Branch? && LastHole(base, s) == InRight(e, g.l, g.n) && LastLeft(s) == g.r
    decreases s
  {
    if s.r.r.Branch? { LastHoleIs(InRight(base, s.l, s.n), s.r); }
  }

  lemma {:induction false} UnlinkedIsUpFrom(c: Path, t: Shape)
    requires t.Branch?
    ensures UnlinkedTree(c, t) == UpFrom(Hole(c, t).0, Hole(c, t).1)
  {
    var (e, g) := Unlinked(c, t);
    if t.l.Branch? && t.r.Branch? && t.l.r.Branch? {
      LastHoleIs(InLeft(c, LastNode(t.l), t.r), t.l);
      UpIs(e, g);
    } else if !(c.Top? && (t.l.Leaf? || t.r.Leaf?)) {
      UpIs(e, g);
    }
  }

  // ---------------------------------------------------------------- sizes along the path

  /** A rule for the sizes of siblings. */
  type Rule = (nat, nat) -> bool

  ghost function CloseRule(): Rule { (a: nat, b: nat) => Close(a, b) }

  /** Balance with the rule as a parameter. */
  ghost predicate Ruled(s: Shape, rule: Rule) {
    s.Branch? ==> && rule(Size(s.l), Size(s.r)) && rule(Size(s.r), Size(s.l)) && Ruled(s.l, rule) && Ruled(s.r, rule)
  }

  lemma {:induction false} RuledIsBalanced(s: Shape)
    ensures Ruled(s, CloseRule()) <==> Balanced(s)
  {
    if s.Branch? {
      RuledIsBalanced(s.l);
      RuledIsBalanced(s.r);
      BalancedIff(s.l, s.n, s.r);
    }
  }

  /** The rule at all nodes of a path whose hole holds k nodes, and in the subtrees beside it. */
  ghost predicate PathRuled(p: Path, k: nat, rule: Rule) {
    match p
    case Top => true
    case InLeft(up, n, r) => Ruled(r, rule) && rule(k, Size(r)) && PathRuled(up, k + Size(r) + 1, rule)
    case InRight(up, l, n) => Ruled(l, rule) && rule(k, Size(l)) && PathRuled(up, k + Size(l) + 1, rule)
  }

  /** The size of the whole tree. */
  ghost function Total(p: Path, k: nat): nat {
    match p
    case Top => k
    case InLeft(up, n, r) => Total(up, k + Size(r) + 1)
    case InRight(up, l, n) => Total(up, k + Size(l) + 1)
  }

  lemma {:induction false} TotalGrows(p: Path, k: nat)
    ensures k <= Total(p, k)
  {
    match p
    case Top =>
    case InLeft(up, n, r) => TotalGrows(up, k + Size(r) + 1);
    case InRight(up, l, n) => TotalGrows(up, k + Size(l) + 1);
  }

  lemma {:induction false} PlugTotal(p: Path, s: Shape, k: nat)
    requires Size(s) == k
    ensures Size(Plug(p, s)) == Total(p, k)
  {
    match p
    case Top =>
    case InLeft(up, n, r) => PlugTotal(up, Branch(s, n, r), k + Size(r) + 1);
    case InRight(up, l, n) => PlugTotal(up, Branch(l, n, s), k + Size(l) + 1);
  }

  lemma {:induction false} PlugRuled(p: Path, s: Shape, k: nat, rule: Rule)
    requires Ruled(Plug(p, s), rule) && Size(s) == k
    ensures Ruled(s, rule) && PathRuled(p, k, rule)
  {
    match p
    case Top =>
    case InLeft(up, n, r) =>
      RuledSize(s, n, r);
      PlugRuled(up, Branch(s, n, r), k + Size(r) + 1, rule);
      RuledParts(s, n, r, rule);
    case InRight(up, l, n) =>
      RuledSize(l, n, s);
      PlugRuled(up, Branch(l, n, s), k + Size(l) + 1, rule);
      RuledParts(l, n, s, rule);
  }

  lemma {:induction false} RuledSize(l: Shape, n: nat, r: Shape)
    ensures Size(Branch(l, n, r)) == Size(l) + Size(r) + 1 && Size(Branch(l, n, r)) == Size(r) + Size(l) + 1
  {
  }

  lemma {:induction false} RuledParts(l: Shape, n: nat, r: Shape, rule: Rule)
    requires Ruled(Branch(l, n, r), rule)
    ensures Ruled(l, rule) && Ruled(r, rule) && rule(Size(l), Size(r)) && rule(Size(r), Size(l))
  {
  }

  lemma {:induction false} LastHoleRuled(base: Path, s: Shape, rule: Rule)
    requires s.Branch? && Ruled(s, rule) && PathRuled(base, Size(s), rule)
    ensures var p, k := LastHole(base, s), Size(LastLeft(s)) + 1;
            Ruled(LastLeft(s), rule) && PathRuled(p, k, rule) && Total(p, k) == Total(base, Size(s))
    decreases s
  {
    if s.r.Branch? {
      assert Size(s) == Size(s.r) + Size(s.l) + 1;
      LastHoleRuled(InRight(base, s.l, s.n), s.r, rule);
    } else {
      assert Size(s.r) == 0;
    }
  }

  lemma {:induction false} HoleRuled(c: Path, t: Shape, rule: Rule)
    requires t.Branch? && Ruled(t, rule) && PathRuled(c, Size(t), rule)
    ensures var (p, u) := Hole(c, t);
            Ruled(u, rule) && PathRuled(p, Size(u) + 1, rule) && Total(p, Size(u) + 1) == Total(c, Size(t))
  {
    assert Size(Leaf) == 0;
    if t.l.Branch? && t.r.Branch? {
      LastHoleRuled(InLeft(c, LastNode(t.l), t.r), t.l, rule);
    }
  }

  // ---------------------------------------------------------------- when the turns mend the tree

  /**
   The condition at one level: the light side has k nodes, h is the other side.  If h is too
   heavy, a single rotation mends it, and a double one if the new siblings are close in size.
   */
  ghost predicate Mend(k: nat, h: Shape, lightIsLeft: bool) {
    Bits(h) > BitLen(k) + 1 && h.Branch? ==>
      if lightIsLeft then
        Size(h.r) >= Size(h.l) || Regular(k, Size(h.l.l), Size(h.l.r), Size(h.r))
      else
        Size(h.l) >= Size(h.r) || Regular(k, Size(h.r.r), Size(h.r.l), Size(h.l))
  }

  /** The condition at all levels: only the sizes before the removal matter. */
  ghost predicate MendUp(p: Path, k: nat) {
    match p
    case Top => true
    case InLeft(up, n, r) => Mend(k, r, true) && MendUp(up, k + Size(r) + 1)
    case InRight(up, l, n) => Mend(k, l, false) && MendUp(up, k + Size(l) + 1)
  }

  /** Losing one node makes the difference at most two bits, and only the other side too heavy. */
  lemma {:induction false} LosesOne(k: nat, h: nat)
    requires Close(k + 1, h)
    ensures BitLen(k) <= BitLen(h) + 1 && BitLen(h) <= BitLen(k) + 2
  {
    BitLenIs(k, BitLen(k + 1));
    BitLenBounds(k + 1);
    BitLenIs(k + 1, BitLen(k) + 1);
    BitLenBounds(k);
    Pow2Mono(0, BitLen(k));
  }

  /** The light side stays a subtree, so what is wrong in it stays wrong. */
  lemma {:induction false} LightSurvives(u: Shape, n: nat, h: Shape)
    requires h.Branch? && !Balanced(u)
    ensures !Balanced(TurnLeft(u, n, h)) && !Balanced(TurnRight(h, n, u))
  {
    BalancedIff(u, n, h.l);
    BalancedIff(h.r, n, u);
    if h.l.Branch? { BalancedIff(u, n, h.l.l); }
    if h.r.Branch? { BalancedIff(h.r.r, n, u); }
  }

  /** One level above a hole that has lost a node, on either side. */
  lemma {:induction false} LeftLevel(u: Shape, n: nat, r: Shape)
    requires Balanced(r) && Close(Size(u) + 1, Size(r)) && Size(u) < 0x1_0000_0000
    ensures Balanced(Fix(Branch(u, n, r))) <==> Balanced(u) && Mend(Size(u), r, true)
  {
    LosesOne(Size(u), Size(r));
    FixIs(Branch(u, n, r));
    if Even(u, r) {
      BalancedIff(u, n, r);
    } else if Balanced(u) {
      LeftTurnMends(u, n, r);
    } else {
      LightSurvives(u, n, r);
    }
  }

  lemma {:induction false} RightLevel(l: Shape, n: nat, u: Shape)
    requires Balanced(l) && Close(Size(u) + 1, Size(l)) && Size(l) < 0x1_0000_0000
    ensures Balanced(Fix(Branch(l, n, u))) <==> Balanced(u) && Mend(Size(u), l, false)
  {
    LosesOne(Size(u), Size(l));
    FixIs(Branch(l, n, u));
    if Even(l, u) {
      BalancedIff(l, n, u);
    } else if Balanced(u) {
      RightTurnMends(l, n, u);
      if l.r.Branch? { RegularSwaps(Size(l.l), Size(l.r.l), Size(l.r.r), Size(u)); }
    } else {
      LightSurvives(u, n, l);
    }
  }

  lemma {:induction false} NextRuled(p: Path, h: Shape, k: nat, j: nat, rule: Rule)
    requires !p.Top? && h == (if p.InLeft? then p.r else p.l) && j == k + Size(h) + 1 && PathRuled(p, k + 1, rule)
    ensures Ruled(h, rule) && rule(k + 1, Size(h)) && PathRuled(p.up, j + 1, rule)
    ensures Total(p, k + 1) == Total(p.up, j + 1) && Total(p, k + 1) >= j + 1
  {
    assert k + 1 + Size(h) + 1 == j + 1;
    TotalGrows(p.up, j + 1);
  }

  lemma {:induction false} NextClose(p: Path, h: Shape, k: nat, j: nat)
    requires !p.Top? && h == (if p.InLeft? then p.r else p.l) && j == k + Size(h) + 1
    requires PathRuled(p, k + 1, CloseRule()) && Total(p, k + 1) < 0x1_0000_0000
    ensures Balanced(h) && Close(k + 1, Size(h)) && k < 0x1_0000_0000 && Size(h) < 0x1_0000_0000
  {
    NextRuled(p, h, k, j, CloseRule());
    RuledIsBalanced(h);
  }

  /** One level of the way up: f is the subtree there after the turn, m whether the turn could mend it. */
  lemma {:induction false} Turned(p: Path, u: Shape, h: Shape, k: nat) returns (f: Shape, m: bool)
    requires !p.Top? && h == (if p.InLeft? then p.r else p.l) && Size(u) == k
    requires Balanced(h) && Close(k + 1, Size(h)) && k < 0x1_0000_0000 && Size(h) < 0x1_0000_0000
    ensures UpFrom(p, u) == UpFrom(p.up, f) && Size(f) == k + Size(h) + 1
    ensures m == Mend(k, h, p.InLeft?) && (Balanced(f) <==> Balanced(u) && m)
  {
    m := Mend(k, h, p.InLeft?);
    if p.InLeft? {
      f := Fix(Branch(u, p.n, h));
      LeftLevel(u, p.n, h);
      TurnSize(u, p.n, h);
    } else {
      f := Fix(Branch(h, p.n, u));
      RightLevel(h, p.n, u);
      TurnSize(h, p.n, u);
    }
  }

  lemma {:induction false} MendUnfold(p: Path, h: Shape, k: nat, m: bool, j: nat)
    requires !p.Top? && h == (if p.InLeft? then p.r else p.l) && m == Mend(k, h, p.InLeft?) && j == k + Size(h) + 1
    ensures MendUp(p, k) <==> m && MendUp(p.up, j)
  {
  }

  lemma {:induction false} Level(p: Path, u: Shape, h: Shape, k: nat, j: nat) returns (f: Shape, m: bool)
    requires !p.Top? && h == (if p.InLeft? then p.r else p.l) && Size(u) == k && j == k + Size(h) + 1
    requires PathRuled(p, k + 1, CloseRule()) && Total(p, k + 1) < 0x1_0000_0000
    ensures UpFrom(p, u) == UpFrom(p.up, f) && Size(f) == j && (Balanced(f) <==> Balanced(u) && m)
    ensures m == Mend(k, h, p.InLeft?)
  {
    NextClose(p, h, k, j);
    f, m := Turned(p, u, h, k);
  }

  lemma {:induction false} TurnSize(l: Shape, n: nat, r: Shape)
    ensures Size(Fix(Branch(l, n, r))) == Size(l) + Size(r) + 1
  {
    FixKeeps(Branch(l, n, r));
  }

  lemma {:induction false} UpFromBalanced(p: Path, u: Shape, k: nat)
    requires Size(u) == k && PathRuled(p, k + 1, CloseRule()) && Total(p, k + 1) < 0x1_0000_0000
    ensures Balanced(UpFrom(p, u)) <==> Balanced(u) && MendUp(p, k)
    decreases p
  {
    if !p.Top? {
      var h := if p.InLeft? then p.r else p.l;
      var j := k + Size(h) + 1;
      NextRuled(p, h, k, j, CloseRule());
      var f, m := Level(p, u, h, k, j);
      UpFromBalanced(p.up, f, j);
      MendUnfold(p, h, k, m, j);
    }
  }

  /** A removal keeps a balanced tree balanced exactly if every level above the hole can be mended. */
  lemma {:induction false} UnlinkBalancedIff(c: Path, t: Shape)
    requires t.Branch? && Balanced(Plug(c, t)) && Size(Plug(c, t)) < 0x1_0000_0000
    ensures Balanced(UnlinkedTree(c, t)) <==> MendUp(Hole(c, t).0, Size(Hole(c, t).1))
  {
    HoleReady(c, t);
    var (p, u) := Hole(c, t);
    UnlinkUp(p, u);
    UnlinkedIsUpFrom(c, t);
  }

  lemma {:induction false} HoleReady(c: Path, t: Shape)
    requires t.Branch? && Balanced(Plug(c, t)) && Size(Plug(c, t)) < 0x1_0000_0000
    ensures var (p, u) := Hole(c, t);
            Ruled(u, CloseRule()) && PathRuled(p, Size(u) + 1, CloseRule()) && Total(p, Size(u) + 1) < 0x1_0000_0000
  {
    RuledIsBalanced(Plug(c, t));
    PlugRuled(c, t, Size(t), CloseRule());
    PlugTotal(c, t, Size(t));
    HoleRuled(c, t, CloseRule());
  }

  lemma {:induction false} UnlinkUp(p: Path, u: Shape)
    requires Ruled(u, CloseRule()) && PathRuled(p, Size(u) + 1, CloseRule()) && Total(p, Size(u) + 1) < 0x1_0000_0000
    ensures Balanced(UpFrom(p, u)) <==> MendUp(p, Size(u))
  {
    RuledIsBalanced(u);
    UpFromBalanced(p, u, Size(u));
  }

  // ---------------------------------------------------------------- a removal that unbalances

  /** A balanced tree with the nodes first, first + 1, ..., first + n - 1. */
  ghost function Build(first: nat, n: nat): Shape
    decreases n
  {
    if n == 0 then Leaf else
    var k := n / 2;
    Branch(Build(first, k), first + k, Build(first + k + 1, n - 1 - k))
  }

  lemma {:induction false} CloseHalves(k: nat, j: nat)
    requires k == j || k == j + 1
    ensures Close(k, j)
  {
    BitLenIs(k, BitLen(j) + 1);
    BitLenBounds(j);
    BitLenIs(j, BitLen(k));
    BitLenBounds(k);
    Pow2Mono(0, BitLen(j));
  }

  /** Every left subtree is as large as the right one, or larger by one node. */
  ghost predicate Halved(s: Shape) {
    s.Branch? ==> (Size(s.l) == Size(s.r) || Size(s.l) == Size(s.r) + 1) && Halved(s.l) && Halved(s.r)
  }

  lemma {:induction false} HalvedBalanced(s: Shape)
    requires Halved(s)
    ensures Balanced(s)
  {
    if s.Branch? {
      HalvedBalanced(s.l);
      HalvedBalanced(s.r);
      CloseHalves(Size(s.l), Size(s.r));
      BranchOf(s.l, s.n, s.r);
    }
  }

  lemma {:induction false} BuildHalved(first: nat, n: nat)
    ensures Size(Build(first, n)) == n && Halved(Build(first, n))
    decreases n
  {
    if n > 0 {
      var k := n / 2;
      var j := n - 1 - k;
      BuildHalved(first, k);
      BuildHalved(first + k + 1, j);
      HalvedBranch(Build(first, k), first + k, Build(first + k + 1, j), k, j);
      BuildBranch(first, n, k, j);
    }
  }

  lemma {:induction false} BuildBranch(first: nat, n: nat, k: nat, j: nat)
    requires n > 0 && k == n / 2 && j == n - 1 - k
    ensures Build(first, n) == Branch(Build(first, k), first + k, Build(first + k + 1, j))
  {
  }

  lemma {:induction false} HalvedBranch(l: Shape, x: nat, r: Shape, k: nat, j: nat)
    requires Halved(l) && Halved(r) && Size(l) == k && Size(r) == j && (k == j || k == j + 1)
    ensures Size(Branch(l, x, r)) == k + j + 1 && Halved(Branch(l, x, r))
  {
  }

  lemma {:induction false} BuildIs(first: nat, n: nat)
    ensures Size(Build(first, n)) == n && Balanced(Build(first, n))
  {
    BuildHalved(first, n);
    HalvedBalanced(Build(first, n));
  }

  /** Its traversal. */
  ghost function Run(first: nat, n: nat): seq<nat> {
    seq(n, i requires 0 <= i < n => first + i)
  }

  lemma {:induction false} RunJoin(first: nat, n: nat, k: nat)
    ensures Run(first, n) + [first + n] + Run(first + n + 1, k) == Run(first, n + 1 + k)
  {
  }

  lemma {:induction false} RunBranch(l: Shape, x: nat, r: Shape, first: nat, n: nat, k: nat)
    requires Order(l) == Run(first, n) && x == first + n && Order(r) == Run(first + n + 1, k)
    ensures Order(Branch(l, x, r)) == Run(first, n + 1 + k)
  {
    RunJoin(first, n, k);
  }

  lemma {:induction false} RunApart(s: Shape, first: nat, n: nat)
    requires Order(s) == Run(first, n) && first > 0
    ensures Apart(s)
  {
    DistinctApart(s);
  }

  lemma {:induction false} BuildOrder(first: nat, n: nat)
    ensures Order(Build(first, n)) == Run(first, n)
    decreases n
  {
    if n > 0 {
      var k := n / 2;
      var j := n - 1 - k;
      BuildOrder(first, k);
      BuildOrder(first + k + 1, j);
      BuildBranch(first, n, k, j);
      RunBranch(Build(first, k), first + k, Build(first + k + 1, j), first, k, j);
    }
  }

  /** Sizes 8 and 9 = 2 + 1 + 6 on the left of the root, 4 and 3 on the right, 27 nodes in all. */
  datatype Parts = Parts(b8: Shape, b2: Shape, b6: Shape, b4: Shape, b1: Shape)

  ghost predicate PartsOk(p: Parts) {
    && Size(p.b8) == 8 && Size(p.b2) == 2 && Size(p.b6) == 6 && Size(p.b4) == 4 && Size(p.b1) == 1
    && Balanced(p.b8) && Balanced(p.b2) && Balanced(p.b6) && Balanced(p.b4) && Balanced(p.b1)
    && Order(p.b8) == Run(1, 8) && Order(p.b2) == Run(10, 2) && Order(p.b6) == Run(13, 6)
    && Order(p.b4) == Run(20, 4) && Order(p.b1) == Run(25, 1)
  }

  ghost function Heavy(p: Parts): Shape {
    Branch(p.b8, 9, Branch(p.b2, 12, p.b6))
  }

  ghost function Way(p: Parts): Path {
    InRight(InRight(InRight(Top, Heavy(p), 19), p.b4, 24), p.b1, 26)
  }

  ghost function Last(): Shape { Branch(Leaf, 27, Leaf) }

  lemma {:induction false} SmallBits()
    ensures BitLen(0) == 0 && BitLen(1) == 1 && BitLen(2) == 2 && BitLen(3) == 2 && BitLen(4) == 3 && BitLen(6) == 3
    ensures BitLen(7) == 3 && BitLen(8) == 4 && BitLen(9) == 4 && BitLen(18) == 5 && BitLen(16) == 5
  {
    assert BitLen(1) == 1 + BitLen(0);
    assert BitLen(2) == 1 + BitLen(1) && BitLen(3) == 1 + BitLen(1);
    assert BitLen(4) == 1 + BitLen(2) && BitLen(6) == 1 + BitLen(3) && BitLen(7) == 1 + BitLen(3);
    assert BitLen(8) == 1 + BitLen(4) && BitLen(9) == 1 + BitLen(4);
    assert BitLen(18) == 1 + BitLen(9) && BitLen(16) == 1 + BitLen(8);
  }

  lemma {:induction false} PlugWay(p: Parts, s: Shape)
    ensures Plug(Way(p), s) == Branch(Heavy(p), 19, Branch(p.b4, 24, Branch(p.b1, 26, s)))
  {
    var low := Branch(p.b1, 26, s);
    var right := Branch(p.b4, 24, low);
    assert Plug(Way(p), s) == Plug(Way(p).up, low);
    assert Plug(Way(p).up, low) == Plug(Way(p).up.up, right);
    assert Plug(Way(p).up.up, right) == Plug(Top, Branch(Heavy(p), 19, right));
  }

  lemma {:induction false} HeavyIs(p: Parts)
    requires PartsOk(p)
    ensures Balanced(Heavy(p)) && Size(Heavy(p)) == 18 && Size(Heavy(p).l) == 8 && Size(Heavy(p).r) == 9
    ensures Size(Heavy(p).r.l) == 2
  {
    SmallBits();
    BranchOf(p.b2, 12, p.b6);
    BranchOf(p.b8, 9, Branch(p.b2, 12, p.b6));
  }

  lemma {:induction false} LastIs()
    ensures Size(Last()) == 1 && Balanced(Last()) && Order(Last()) == Run(27, 1)
  {
    assert Size(Leaf) == 0 && Order(Leaf) == [] && Balanced(Leaf);
    BranchOf(Leaf, 27, Leaf);
  }

  /** Before the removal the tree is balanced, and all its nodes are different. */
  lemma {:induction false} EvenBefore(p: Parts)
    requires PartsOk(p)
    ensures Balanced(Plug(Way(p), Last()))
  {
    HeavyIs(p);
    SmallBits();
    LastIs();
    PlugWay(p, Last());
    var low := Branch(p.b1, 26, Last());
    BranchOf(p.b1, 26, Last());
    BranchOf(p.b4, 24, low);
    BranchOf(Heavy(p), 19, Branch(p.b4, 24, low));
  }

  lemma {:induction false} ApartBefore(p: Parts)
    requires PartsOk(p)
    ensures Apart(Plug(Way(p), Last()))
  {
    LastIs();
    PlugWay(p, Last());
    var low, inner := Branch(p.b1, 26, Last()), Branch(p.b2, 12, p.b6);
    var left, right := Branch(p.b8, 9, inner), Branch(p.b4, 24, low);
    RunBranch(p.b1, 26, Last(), 25, 1, 1);
    RunBranch(p.b4, 24, low, 20, 4, 3);
    RunBranch(p.b2, 12, p.b6, 10, 2, 6);
    RunBranch(p.b8, 9, inner, 1, 8, 9);
    RunBranch(left, 19, right, 1, 18, 8);
    RunApart(Branch(left, 19, right), 1, 27);
  }

  /** Removing node 27 ends in a double rotation that leaves node 9 with subtrees of 8 and 2 nodes. */
  lemma {:induction false} UnevenAfter(p: Parts)
    requires PartsOk(p)
    ensures !Balanced(UnlinkedTree(Way(p), Last()))
  {
    HeavyIs(p);
    TwoTurns(Heavy(p), 19, p.b4, 24, p.b1, 26);
    UnevenTurn(Heavy(p), 19, Branch(p.b4, 24, Branch(p.b1, 26, Leaf)));
  }

  /** The two turns below the root change nothing. */
  lemma {:induction false} TwoTurns(l: Shape, n: nat, b4: Shape, m: nat, b1: Shape, k: nat)
    requires Size(b4) == 4 && Size(b1) == 1
    ensures var mid := Branch(b4, m, Branch(b1, k, Leaf));
            && Size(mid) == 7
            && RebalanceUp(InRight(InRight(Top, l, n), b4, m), Branch(b1, k, Leaf)) == Fix(Branch(l, n, mid))
  {
    SmallBits();
    assert Size(Leaf) == 0;
    var low := Branch(b1, k, Leaf);
    BranchOf(b1, k, Leaf);
    FixIs(low);
    var mid := Branch(b4, m, low);
    BranchOf(b4, m, low);
    FixIs(mid);
    var c := InRight(Top, l, n);
    assert RebalanceUp(InRight(c, b4, m), low) == RebalanceUp(c, mid);
    assert RebalanceUp(c, mid) == RebalanceUp(Top, Branch(l, n, mid));
  }

  lemma {:induction false} UnevenTurn(l: Shape, n: nat, r: Shape)
    requires l.Branch? && l.r.Branch? && Size(l) == 18 && Size(l.l) == 8 && Size(l.r) == 9 && Size(l.r.l) == 2
    requires Size(r) == 7
    ensures !Balanced(Fix(Branch(l, n, r)))
  {
    SmallBits();
    FixIs(Branch(l, n, r));
    assert !Balanced(Branch(l.l, l.n, l.r.l));
  }

  /** Balance is not an invariant of removal: a tree of 27 nodes that insertions make loses it. */
  lemma {:induction false} UnlinkCanUnbalance()
    ensures exists run: seq<Shape>, c: Path, t: Shape ::
              && InsertRun(run) && |run| == 28 && (forall i :: 0 <= i < 28 ==> Apart(run[i]))
              && run[27] == Plug(c, t) && t.Branch? && !Balanced(UnlinkedTree(c, t))
  {
    var p := SomeParts();
    EvenBefore(p);
    ApartBefore(p);
    UnevenAfter(p);
    SizeBefore(p);
    var run := RunTo(Plug(Way(p), Last()));
  }

  lemma {:induction false} SizeBefore(p: Parts)
    requires PartsOk(p)
    ensures Size(Plug(Way(p), Last())) == 27
  {
    HeavyIs(p);
    LastIs();
    PlugWay(p, Last());
    var low := Branch(p.b1, 26, Last());
    BranchOf(p.b1, 26, Last());
    BranchOf(p.b4, 24, low);
    BranchOf(Heavy(p), 19, Branch(p.b4, 24, low));
  }

  lemma {:induction false} SomeParts() returns (p: Parts)
    ensures PartsOk(p)
  {
    BuildIs(1, 8); BuildIs(10, 2); BuildIs(13, 6); BuildIs(20, 4); BuildIs(25, 1);
    BuildOrder(1, 8); BuildOrder(10, 2); BuildOrder(13, 6); BuildOrder(20, 4); BuildOrder(25, 1);
    p := Parts(Build(1, 8), Build(10, 2), Build(13, 6), Build(20, 4), Build(25, 1));
  }
}
