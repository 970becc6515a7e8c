/**
 The communication geometry of the tree recursions in src/sc_notify.c.

 One level joins `w` branches of `n` ranks each into groups of n * w ranks.  With
 P ranks in all, the last group may be short or lack whole branches.  A rank is
 written (a * w + p) * n + c for group a, branch p and position c; ranks that talk
 to each other at this level share c.
 */
module Radix {

  // ---------------------------------------------------------------- coordinates

  lemma {:induction false} Quotient(x: int, n: nat, q: int, c: nat)
    requires n > 0 && c < n && x == q * n + c
    ensures x / n == q && x % n == c
  {
    var d := x / n - q;
    assert x == (x / n) * n + x % n;
    assert (x / n) * n == q * n + d * n;
    assert d >= 1 ==> d * n >= n;
    assert d <= -1 ==> d * n + n <= 0;
  }

  /** The branch of rank r inside its group, or of a record for r: (r % length) / lengthn. */
  function Part(r: nat, n: nat, w: nat): nat
    requires n > 0 && w > 0
  {
    (r % (n * w)) / n
  }

  ghost predicate At(r: int, n: nat, w: nat, a: int, p: nat, c: nat) {
    p < w && c < n && r == (a * w + p) * n + c
  }

  lemma {:induction false} InBranch(n: nat, w: nat, p: nat, c: nat)
    requires p < w && c < n
    ensures p * n + c < n * w
  {
    assert p * n <= (w - 1) * n;
    assert (w - 1) * n == n * w - n;
  }

  lemma {:induction false} GroupForm(n: nat, w: nat, a: int, p: nat, c: nat)
    ensures (a * w + p) * n + c == a * (n * w) + (p * n + c)
  {
    assert (a * w + p) * n == (a * w) * n + p * n;
    assert (a * w) * n == a * (n * w);
  }

  lemma {:induction false} Locate(r: nat, n: nat, w: nat) returns (a: nat, p: nat, c: nat)
    requires n > 0 && w > 0
    ensures At(r, n, w, a, p, c)
  {
    var u := r / n;
    c := r % n;
    a, p := u / w, u % w;
    Divided(r, n);
    Divided(u, w);
  }

  lemma {:induction false} Multiple(k: int, l: int, n: nat)
    ensures k <= l ==> k * n <= l * n
  {
  }

  lemma {:induction false} Divided(x: nat, n: nat)
    requires n > 0
    ensures x == (x / n) * n + x % n
  {
  }

  lemma {:induction false} AtIs(r: nat, n: nat, w: nat, a: int, p: nat, c: nat)
    requires At(r, n, w, a, p, c)
    ensures n * w > 0
    ensures r % n == c && Part(r, n, w) == p && r % (n * w) == p * n + c && r / (n * w) == a
    ensures r == r / (n * w) * (n * w) + (p * n + c)
  {
    InBranch(n, w, p, c);
    GroupForm(n, w, a, p, c);
    Quotient(r, n, a * w + p, c);
    Quotient(r, n * w, a, p * n + c);
    Quotient(p * n + c, n, p, c);
  }

  /** Coordinates are unique. */
  lemma {:induction false} AtUnique(r: nat, n: nat, w: nat, a: int, p: nat, c: nat, b: int, q: nat, d: nat)
    requires At(r, n, w, a, p, c) && At(r, n, w, b, q, d)
    ensures a == b && p == q && c == d
  {
    AtIs(r, n, w, a, p, c);
    AtIs(r, n, w, b, q, d);
  }

  lemma {:induction false} NextGroup(n: nat, w: nat, a: int, p: nat, c: nat)
    ensures ((a + 1) * w + p) * n + c == (a * w + p) * n + c + n * w
  {
    GroupForm(n, w, a + 1, p, c);
    GroupForm(n, w, a, p, c);
    assert (a + 1) * (n * w) == a * (n * w) + n * w;
  }

  // ---------------------------------------------------------------- sending

  /**
   The rank that `me` addresses for branch j: the one in its own group or, where that
   does not exist, the same position one group below; -1 if there is neither.
   */
  function Peer(P: nat, n: nat, w: nat, me: nat, j: nat): int
    requires n > 0 && w > 0
  {
    var peer := me + (j - Part(me, n, w)) * n;
    if peer < P then peer else if peer - n * w >= 0 then peer - n * w else -1
  }

  function Dests(P: nat, n: nat, w: nat, me: nat): set<nat>
    requires n > 0 && w > 0
  {
    set j: nat | j < w && j != Part(me, n, w) && Peer(P, n, w, me, j) >= 0 :: Peer(P, n, w, me, j)
  }

  lemma {:induction false} PeerAt(P: nat, n: nat, w: nat, me: nat, j: nat, a: nat, p: nat, c: nat)
    requires At(me, n, w, a, p, c) && j < w
    ensures var x := (a * w + j) * n + c;
            && Peer(P, n, w, me, j) == (if x < P then x else if a > 0 then x - n * w else -1)
            && (a > 0 ==> At(x - n * w, n, w, a - 1, j, c) && x - n * w >= 0)
            && x >= 0
  {
    AtIs(me, n, w, a, p, c);
    PeerStep(n, w, a, p, j, c);
    PeerForm(n, w, a, j, c);
  }

  lemma {:induction false} PeerStep(n: nat, w: nat, a: nat, p: nat, j: nat, c: nat)
    ensures (a * w + j) * n + c == (a * w + p) * n + c + (j - p) * n
  {
    Distribute(a * w + p, j - p, n);
    assert a * w + p + (j - p) == a * w + j;
  }

  lemma {:induction false} Distribute(x: int, y: int, n: int)
    ensures (x + y) * n == x * n + y * n
  {
  }

  lemma {:induction false} PeerForm(n: nat, w: nat, a: nat, j: nat, c: nat)
    requires j < w && c < n
    ensures var x := (a * w + j) * n + c;
            x >= 0 && (a > 0 ==> x - n * w >= 0 && x - n * w == ((a - 1) * w + j) * n + c) && (a == 0 ==> x < n * w)
  {
    GroupForm(n, w, a, j, c);
    InBranch(n, w, j, c);
    NextGroup(n, w, a - 1, j, c);
    Multiple(0, a, n * w);
    Multiple(1, a, n * w);
    Multiple(0, j, n);
  }

  /** Where `me` puts a record for `to`. */
  function Route(P: nat, n: nat, w: nat, me: nat, to: nat): int
    requires n > 0 && w > 0
  {
    if Part(to, n, w) == Part(me, n, w) then me else Peer(P, n, w, me, Part(to, n, w))
  }

  /**
   One level moves a record nearer: held by a rank congruent to its destination modulo n,
   it is next held by an existing rank congruent modulo n * w.  In particular no record
   belongs to a branch for which there is no peer.
   */
  lemma {:induction false} RouteAdvances(P: nat, n: nat, w: nat, me: nat, to: nat)
    requires n > 0 && w > 0 && me < P && to < P && me % n == to % n
    ensures var q := Route(P, n, w, me, to);
            && n * w > 0 && 0 <= q < P && q % (n * w) == to % (n * w)
            && (q == me || q in Dests(P, n, w, me))
            && (q == me <==> Part(to, n, w) == Part(me, n, w))
  {
    var a, p, c := Locate(me, n, w);
    var b, j, d := Locate(to, n, w);
    AtIs(me, n, w, a, p, c);
    AtIs(to, n, w, b, j, d);
    if j != p {
      PeerAt(P, n, w, me, j, a, p, c);
      var x := (a * w + j) * n + c;
      GroupForm(n, w, b, j, c);
      GroupForm(n, w, a, j, c);
      assert b * (n * w) >= 0;
      assert x < P || a > 0;
      var q := Peer(P, n, w, me, j);
      if x < P {
        AtIs(q, n, w, a, j, c);
      } else {
        AtIs(q, n, w, a - 1, j, c);
        assert (a - 1) * w + j < a * w + p;
        assert q < me by { assert ((a - 1) * w + j) * n < (a * w + p) * n; }
      }
      assert q in Dests(P, n, w, me);
    }
  }

  // ---------------------------------------------------------------- receiving

  /** The number of messages a rank waits for, computed from its position alone. */
  function Expected(P: nat, n: nat, w: nat, me: nat): int
    requires n > 0 && w > 0 && me < P
  {
    var mypart := Part(me, n, w);
    var hipart := mypart + (P - 1 - me) / n;
    if hipart < w then
      hipart
    else if hipart < w + mypart then
      var remaining := hipart - w + 1;
      w - 1 + remaining
    else
      w - 1
  }

  /** The receive buffer for a message from `source`; what `me` keeps goes to buffer Part(me). */
  function Slot(n: nat, w: nat, me: nat, source: nat): int
    requires n > 0 && w > 0 && n * w > 0
  {
    var start := me - me % (n * w);
    if source < me then
      Part(me, n, w) - (me - source) / n
    else if source < start + n * w then
      Part(me, n, w) + (source - me) / n
    else
      w + (source % (n * w)) / n
  }

  function Sources(P: nat, n: nat, w: nat, r: nat): set<nat>
    requires n > 0 && w > 0
  {
    set s: nat | s < P && r in Dests(P, n, w, s)
  }

  lemma {:induction false} SourceHasForm(P: nat, n: nat, w: nat, s: nat, b: nat, q: nat, d: nat, r: nat, a: nat, p: nat,
          c: nat)
    requires At(s, n, w, b, q, d) && At(r, n, w, a, p, c) && s < P && r in Dests(P, n, w, s)
    ensures d == c && q != p && (b == a || (b == a + 1 && r + n * w >= P))
  {
    AtIs(s, n, w, b, q, d);
    var j: nat :| j < w && j != q && Peer(P, n, w, s, j) >= 0 && r == Peer(P, n, w, s, j);
    PeerAt(P, n, w, s, j, b, q, d);
    var x := (b * w + j) * n + d;
    AtUnique(r, n, w, a, p, c, if x < P then b else b - 1, j, d);
  }

  lemma {:induction false} FormIsSource(P: nat, n: nat, w: nat, s: nat, b: nat, q: nat, r: nat, a: nat, p: nat, c: nat)
    requires At(s, n, w, b, q, c) && At(r, n, w, a, p, c) && s < P && r < P && s != r
    requires b == a || (b == a + 1 && r + n * w >= P)
    ensures r in Dests(P, n, w, s)
  {
    AtIs(s, n, w, b, q, c);
    PeerAt(P, n, w, s, p, b, q, c);
    NextGroup(n, w, a, p, c);
    assert p != q;
    assert Peer(P, n, w, s, p) == r;
  }

  /** Who sends to r: its group, and the next group where r stands in for a missing rank. */
  lemma {:induction false} SourceAt(P: nat, n: nat, w: nat, s: nat, b: nat, q: nat, d: nat, r: nat, a: nat, p: nat,
          c: nat)
    requires At(s, n, w, b, q, d) && At(r, n, w, a, p, c) && s < P && r < P
    ensures r in Dests(P, n, w, s) <==>
            d == c && s != r && (b == a || (b == a + 1 && r + n * w >= P))
  {
    if r in Dests(P, n, w, s) {
      SourceHasForm(P, n, w, s, b, q, d, r, a, p, c);
      if s == r { AtUnique(r, n, w, a, p, c, b, q, d); }
    } else if d == c && s != r && (b == a || (b == a + 1 && r + n * w >= P)) {
      FormIsSource(P, n, w, s, b, q, r, a, p, c);
    }
  }

  lemma {:induction false} Within(P: nat, n: nat, r: nat, k: int)
    requires n > 0 && r < P
    ensures r + k * n < P <==> k <= (P - 1 - r) / n
  {
    var m := (P - 1 - r) / n;
    assert P - 1 - r == m * n + (P - 1 - r) % n;
    assert k <= m ==> k * n <= m * n;
    assert k >= m + 1 ==> k * n >= (m + 1) * n;
    assert (m + 1) * n == m * n + n;
  }

  lemma {:induction false} Steps(w: nat, d: int, q: nat)
    requires q < w
    ensures d < 0 ==> d * w + q < 0
    ensures d == 0 ==> d * w + q == q
    ensures d == 1 ==> d * w + q == w + q
    ensures d > 1 ==> d * w + q >= 2 * w
  {
    if d < 0 { assert d * w + w <= 0; }
    if d > 1 { assert d * w >= 2 * w; }
  }

  lemma {:induction false} Between(n: nat, w: nat, a: int, p: nat, b: int, q: nat, c: nat)
    ensures (b * w + q) * n + c == (a * w + p) * n + c + ((b - a) * w + q - p) * n
  {
    assert (b * w + q) == (a * w + p) + ((b - a) * w + q - p);
  }

  /** The rank of a position in the own or the next group, and the distances that fit. */
  lemma {:induction false} DistanceFits(P: nat, n: nat, w: nat, s: nat, b: nat, q: nat, r: nat, a: nat, p: nat, c: nat)
    requires At(s, n, w, b, q, c) && At(r, n, w, a, p, c) && s < P && r < P
    ensures (b == a || (b == a + 1 && r + n * w >= P)) <==> 0 <= (b - a) * w + q <= Expected(P, n, w, r)
  {
    AtIs(r, n, w, a, p, c);
    InRange(P, n, w, s, b, q, r, a, p, c);
    ReachExpected(P, n, w, r, p, q, b - a);
  }

  lemma {:induction false} ReachExpected(P: nat, n: nat, w: nat, r: nat, p: nat, q: nat, d: int)
    requires n > 0 && p < w && q < w && r < P && Part(r, n, w) == p && d * w + q - p <= (P - 1 - r) / n
    ensures d == 0 || (d == 1 && r + n * w >= P) <==> 0 <= d * w + q <= Expected(P, n, w, r)
  {
    ExpectedIs(P, n, w, r, p, (P - 1 - r) / n);
    Reach(P, n, w, r, p, q, d, Expected(P, n, w, r));
  }

  lemma {:induction false} InRange(P: nat, n: nat, w: nat, s: nat, b: nat, q: nat, r: nat, a: nat, p: nat, c: nat)
    requires At(s, n, w, b, q, c) && At(r, n, w, a, p, c) && s < P && r < P
    ensures (b - a) * w + q - p <= (P - 1 - r) / n
  {
    Between(n, w, a, p, b, q, c);
    Within(P, n, r, (b - a) * w + q - p);
  }

  /** A distance of d groups and q parts, not above what the last rank allows. */
  lemma {:induction false} Reach(P: nat, n: nat, w: nat, r: nat, p: nat, q: nat, d: int, expected: int)
    requires n > 0 && p < w && q < w && r < P && d * w + q - p <= (P - 1 - r) / n
    requires expected == if (P - 1 - r) / n < w then p + (P - 1 - r) / n else w - 1
    ensures d == 0 || (d == 1 && r + n * w >= P) <==> 0 <= d * w + q <= expected
  {
    Within(P, n, r, w);
    Steps(w, d, q);
    Fits(w, p, q, d, d * w + q, (P - 1 - r) / n);
  }

  lemma {:induction false} Fits(w: nat, p: nat, q: nat, d: int, x: int, top: nat)
    requires p < w && q < w && x - p <= top
    requires d < 0 ==> x < 0
    requires d == 0 ==> x == q
    requires d == 1 ==> x == w + q
    requires d > 1 ==> x >= 2 * w
    ensures d == 0 || (d == 1 && top < w) <==> 0 <= x <= if top < w then p + top else w - 1
  {
  }

  lemma {:induction false} ExpectedIs(P: nat, n: nat, w: nat, r: nat, p: nat, top: nat)
    requires n > 0 && w > 0 && r < P && Part(r, n, w) == p < w && top == (P - 1 - r) / n
    ensures Expected(P, n, w, r) == if top < w then p + top else w - 1
  {
  }

  /** A rank of the same position is a source exactly if its distance fits in 0..Expected. */
  lemma {:induction false} SourceByDistance(P: nat, n: nat, w: nat, s: nat, b: nat, q: nat, r: nat, a: nat, p: nat,
          c: nat)
    requires At(s, n, w, b, q, c) && At(r, n, w, a, p, c) && s < P && r < P
    ensures (s == r || r in Dests(P, n, w, s)) <==> 0 <= (b - a) * w + q <= Expected(P, n, w, r)
    ensures (s == r || r in Dests(P, n, w, s)) ==> b == a || b == a + 1
    ensures s == r ==> b == a && q == p
  {
    SourceAt(P, n, w, s, b, q, c, r, a, p, c);
    DistanceFits(P, n, w, s, b, q, r, a, p, c);
    if s == r { AtUnique(r, n, w, a, p, c, b, q, c); }
  }

  lemma {:induction false} SlotInGroup(n: nat, w: nat, s: nat, q: nat, r: nat, a: nat, p: nat, c: nat)
    requires At(s, n, w, a, q, c) && At(r, n, w, a, p, c)
    ensures n * w > 0 && Slot(n, w, r, s) == q
  {
    AtIs(r, n, w, a, p, c);
    AtIs(s, n, w, a, q, c);
    InBranch(n, w, q, c);
    var k := q - p;
    assert s == r + k * n by { Between(n, w, a, p, a, q, c); }
    if k < 0 {
      assert k * n < 0;
      Quotient(r - s, n, -k, 0);
    } else {
      assert k * n >= 0;
      Quotient(s - r, n, k, 0);
    }
  }

  lemma {:induction false} SlotAt(n: nat, w: nat, s: nat, b: nat, q: nat, r: nat, a: nat, p: nat, c: nat)
    requires At(s, n, w, b, q, c) && At(r, n, w, a, p, c) && (b == a || b == a + 1)
    ensures n * w > 0 && Slot(n, w, r, s) == (b - a) * w + q
  {
    if b == a {
      SlotInGroup(n, w, s, q, r, a, p, c);
    } else {
      AtIs(r, n, w, a, p, c);
      AtIs(s, n, w, b, q, c);
      InBranch(n, w, p, c);
      assert b * (n * w) == a * (n * w) + n * w;
    }
  }

  /** The rank whose data is in buffer j. */
  function SlotSource(n: nat, w: nat, me: nat, j: int): int
    requires n > 0 && w > 0
  {
    me + (j - Part(me, n, w)) * n
  }

  /** Each source, and `r` itself, has its own buffer within range. */
  lemma {:induction false} SlotOfSource(P: nat, n: nat, w: nat, r: nat, s: nat)
    requires n > 0 && w > 0 && r < P && s in Sources(P, n, w, r) + {r}
    ensures n * w > 0 && 0 <= Slot(n, w, r, s) <= Expected(P, n, w, r)
    ensures SlotSource(n, w, r, Slot(n, w, r, s)) == s
    ensures Slot(n, w, r, r) == Part(r, n, w)
  {
    var a, p, c := Locate(r, n, w);
    var b, q, d := Locate(s, n, w);
    SourceAt(P, n, w, s, b, q, d, r, a, p, c);
    if s == r { AtUnique(r, n, w, a, p, c, b, q, d); }
    SourceByDistance(P, n, w, s, b, q, r, a, p, c);
    SlotAt(n, w, s, b, q, r, a, p, c);
    SlotAt(n, w, r, a, p, r, a, p, c);
    AtIs(r, n, w, a, p, c);
    Between(n, w, a, p, b, q, c);
  }

  /** Each buffer within range is filled by a source, or by `r` itself. */
  lemma {:induction false} SourceOfSlot(P: nat, n: nat, w: nat, r: nat, j: nat)
    requires n > 0 && w > 0 && r < P && j <= Expected(P, n, w, r)
    ensures 0 <= SlotSource(n, w, r, j) < P
    ensures SlotSource(n, w, r, j) in Sources(P, n, w, r) + {r}
    ensures n * w > 0 && Slot(n, w, r, SlotSource(n, w, r, j)) == j
  {
    var a, p, c := Locate(r, n, w);
    AtIs(r, n, w, a, p, c);
    var s := SlotSource(n, w, r, j);
    var b, q := if j < w then a else a + 1, if j < w then j else j - w;
    SlotForm(P, n, w, r, j, a, p, c, b, q, s);
    SourceByDistance(P, n, w, s, b, q, r, a, p, c);
    SlotAt(n, w, s, b, q, r, a, p, c);
  }

  lemma {:induction false} SlotForm(P: nat, n: nat, w: nat, r: nat, j: nat, a: nat, p: nat, c: nat, b: nat, q: nat,
          s: int)
    requires n > 0 && w > 0 && r < P && j <= Expected(P, n, w, r) && At(r, n, w, a, p, c) && Part(r, n, w) == p
    requires s == r + (j - p) * n && (if j < w then b == a && q == j else b == a + 1 && q == j - w)
    ensures 0 <= s < P && At(s, n, w, b, q, c) && (b - a) * w + q == j
  {
    Within(P, n, r, j - p);
    Within(P, n, r, w);
    Steps(w, b - a, q);
    Between(n, w, a, p, b, q, c);
    Multiple(0, b * w + q, n);
    Multiple(0, b, w);
  }
}
