/** The binary recursion, sc_notify_recursive and sc_notify. */
module Binary {
  import opened Records
  import opened NotifyArrays
  import opened Pattern
  import opened Holders
  import opened Recursion
  import Radix
  import opened Powers
  import Rounds

  const SC_TAG_NOTIFY_RECURSIVE := 228

  // ---------------------------------------------------------------- bits

  /** Bitwise exclusive or. */
  function Xor(a: nat, b: nat): nat {
    if a == 0 && b == 0 then 0 else (a + b) % 2 + 2 * Xor(a / 2, b / 2)
  }

  lemma {:induction false} XorZero(a: nat)
    ensures Xor(a, 0) == a
  {
    if a > 0 { XorZero(a / 2); }
  }

  lemma {:induction false} HalfQuotient(x: nat, p: nat)
    requires p > 0
    ensures x / (2 * p) == (x / 2) / p
  {
    var y, b := x / 2, x % 2;
    var q, c := y / p, y % p;
    assert y == q * p + c;
    assert x == q * (2 * p) + (2 * c + b) by { assert q * (2 * p) == 2 * (q * p); }
    Radix.Quotient(x, 2 * p, q, 2 * c + b);
  }

  lemma {:induction false} XorStep(x: nat, p: nat)
    requires p > 0
    ensures Xor(x, 2 * p) == x % 2 + 2 * Xor(x / 2, p)
  {
    assert (2 * p) / 2 == p;
    assert (x + 2 * p) % 2 == x % 2;
  }

  /** Flipping one bit adds or subtracts it. */
  lemma {:induction false} XorOne(x: nat)
    ensures Xor(x, 1) == if (x / 1) % 2 == 0 then x + 1 else x - 1
  {
    XorZero(x / 2);
  }

  lemma {:induction false} XorBit(x: nat, k: nat)
    ensures Pow2(k) > 0
    ensures Xor(x, Pow2(k)) == if (x / Pow2(k)) % 2 == 0 then x + Pow2(k) else x - Pow2(k)
  {
    Pow2Positive(k);
    if k == 0 {
      XorOne(x);
    } else {
      Pow2Positive(k - 1);
      XorBit(x / 2, k - 1);
      XorDouble(x, Pow2(k - 1));
    }
  }

  lemma {:induction false} XorDouble(x: nat, p: nat)
    requires p > 0 && Xor(x / 2, p) == if ((x / 2) / p) % 2 == 0 then x / 2 + p else x / 2 - p
    ensures Xor(x, 2 * p) == if (x / (2 * p)) % 2 == 0 then x + 2 * p else x - 2 * p
  {
    HalfQuotient(x, p);
    XorStep(x, p);
  }

  /** The integer logarithm of the lookup table, -1 for 0. */
  function Log2(x: nat): int {
    if x == 0 then -1 else 1 + Log2(x / 2)
  }

  lemma {:induction false} Log2Bounds(x: nat)
    requires x > 0
    ensures Log2(x) >= 0 && Pow2(Log2(x)) <= x < 2 * Pow2(Log2(x))
  {
    if x > 1 { Log2Bounds(x / 2); }
  }

  /** The number of levels: SC_ROUNDUP2_32 (P) is Pow2 of it. */
  function Levels(P: nat): (k: nat)
    requires P > 0
  {
    if P == 1 then 0 else Log2Bounds(P - 1); Log2(P - 1) + 1
  }

  lemma {:induction false} RoundUp(P: nat)
    requires P > 0
    ensures Pow2(Levels(P)) >= P && Pow2(Levels(P)) / 2 < P
  {
    if P > 1 { Log2Bounds(P - 1); }
  }

  // ---------------------------------------------------------------- one level of one rank

  /** The communication pattern of rank `me` at the level that joins halves of length2 ranks. */
  datatype Talk = Talk(half: int, peer: int, peer2: int, start: int)

  function Talks(P: nat, length2: nat, me: nat): Talk
    requires length2 > 0
  {
    var length := 2 * length2;
    var start := me - me % length;
    var half := if me < start + length2 then 0 else 1;
    var flipped := Xor(me, length2);
    var peer := if flipped < P then flipped else flipped - length;
    var next := me + length2;
    var peer2 := if half == 1 && next < P && Xor(next, length2) >= P then next else -1;
    Talk(half, peer, peer2, start)
  }

  /** Send if there is a peer; receive from it if it is not below the range, and then from peer2. */
  function SendTo(P: nat, length2: nat, me: nat): set<nat>
    requires length2 > 0
  {
    var t := Talks(P, length2, me);
    if t.peer >= 0 then {t.peer} else {}
  }

  function ReceiveFrom(P: nat, length2: nat, me: nat): set<int>
    requires length2 > 0
  {
    var t := Talks(P, length2, me);
    if t.peer >= t.start then {t.peer} + (if t.peer2 >= 0 then {t.peer2} else {}) else {}
  }

  function Receives(P: nat, length2: nat, me: nat): nat
    requires length2 > 0
  {
    var t := Talks(P, length2, me);
    if t.peer >= t.start then (if t.peer2 >= 0 then 2 else 1) else 0
  }

  /** The binary pattern in terms of the two-branch geometry. */
  lemma {:induction false} TalksAt(P: nat, k: nat, me: nat, a: nat, p: nat, c: nat)
    requires me < P && Pow2(k) > 0 && Radix.At(me, Pow2(k), 2, a, p, c)
    ensures var n := Pow2(k); var t := Talks(P, n, me); var x := (a * 2 + (1 - p)) * n + c;
            && t.half == p && t.start == a * (2 * n)
            && t.peer == (if x < P then x else x - 2 * n)
            && (t.peer2 >= 0 <==> p == 1 && me + n < P && me + 2 * n >= P)
            && (t.peer2 >= 0 ==> t.peer2 == me + n)
  {
    var n := Pow2(k);
    Radix.AtIs(me, n, 2, a, p, c);
    Radix.InBranch(n, 2, p, c);
    XorAt(me, k, a, p, c);
    if p == 1 {
      NextBranch(me, n, a, c);
      XorAt(me + n, k, a + 1, 0, c);
    }
    TalkIs(P, n, me, a * (2 * n), p, c, (a * 2 + (1 - p)) * n + c);
  }

  lemma {:induction false} NextBranch(me: nat, n: nat, a: nat, c: nat)
    requires n > 0 && Radix.At(me, n, 2, a, 1, c)
    ensures Radix.At(me + n, n, 2, a + 1, 0, c)
  {
    assert ((a + 1) * 2 + 0) * n == (a * 2 + 1) * n + n;
  }

  lemma {:induction false} TalkIs(P: nat, n: nat, me: nat, start: int, p: nat, c: nat, x: int)
    requires n > 0 && c < n && p < 2 && me - me % (2 * n) == start && me == start + (if p == 0 then c else n + c)
    requires Xor(me, n) == x && x == (if p == 0 then me + n else me - n) && (p == 1 ==> Xor(me + n, n) == me + n + n)
    ensures var t := Talks(P, n, me);
            && t.half == p && t.start == start && t.peer == (if x < P then x else x - 2 * n)
            && (t.peer2 >= 0 <==> p == 1 && me + n < P && me + 2 * n >= P)
            && (t.peer2 >= 0 ==> t.peer2 == me + n)
  {
  }

  /** Flipping bit k moves to the other branch. */
  lemma {:induction false} XorAt(me: nat, k: nat, a: nat, p: nat, c: nat)
    requires Pow2(k) > 0 && Radix.At(me, Pow2(k), 2, a, p, c)
    ensures Xor(me, Pow2(k)) == (a * 2 + (1 - p)) * Pow2(k) + c
    ensures Xor(me, Pow2(k)) == if p == 0 then me + Pow2(k) else me - Pow2(k)
  {
    var n := Pow2(k);
    XorBit(me, k);
    Radix.Quotient(me, n, a * 2 + p, c);
    Radix.Quotient(a * 2 + p, 2, a, p);
    assert (a * 2 + (1 - p)) * n == (a * 2 + p) * n + (1 - 2 * p) * n;
  }

  /** s is the peer in the other half, or the rank beyond the group that has none itself. */
  ghost predicate Calls(P: nat, n: nat, me: nat, s: int, a: nat, p: nat, c: nat) {
    || (s == (a * 2 + (1 - p)) * n + c && s < P)
    || (s == me + n && p == 1 && s < P && me + 2 * n >= P)
  }

  lemma {:induction false} ReceiveIs(P: nat, k: nat, me: nat, a: nat, p: nat, c: nat)
    requires me < P && Pow2(k) > 0 && Radix.At(me, Pow2(k), 2, a, p, c)
    ensures forall s :: s in ReceiveFrom(P, Pow2(k), me) <==> Calls(P, Pow2(k), me, s, a, p, c)
    ensures Receives(P, Pow2(k), me) == |ReceiveFrom(P, Pow2(k), me)|
  {
    var n := Pow2(k);
    TalksAt(P, k, me, a, p, c);
    var x := (a * 2 + (1 - p)) * n + c;
    Radix.GroupForm(n, 2, a, 1 - p, c);
    Radix.InBranch(n, 2, 1 - p, c);
    assert (1 - p) * n >= 0;
    assert p == 1 ==> (a * 2 + 1) * n == (a * 2) * n + n;
  }

  lemma {:induction false} CallerSends(P: nat, n: nat, me: nat, s: nat, a: nat, p: nat, c: nat)
    requires me < P && n > 0 && Radix.At(me, n, 2, a, p, c) && Calls(P, n, me, s, a, p, c)
    ensures me in Radix.Dests(P, n, 2, s)
  {
    if s == (a * 2 + (1 - p)) * n + c && s < P {
      assert Radix.At(s, n, 2, a, 1 - p, c);
      Radix.SourceAt(P, n, 2, s, a, 1 - p, c, me, a, p, c);
      assert s - me == (1 - 2 * p) * n;
    } else {
      Successor(n, a, c);
      Radix.SourceAt(P, n, 2, s, a + 1, 0, c, me, a, p, c);
    }
  }

  lemma {:induction false} Successor(n: nat, a: nat, c: nat)
    requires c < n
    ensures Radix.At((a * 2 + 1) * n + c + n, n, 2, a + 1, 0, c)
  {
    assert ((a + 1) * 2 + 0) * n == (a * 2 + 1) * n + n;
  }

  lemma {:induction false} SenderCalls(P: nat, n: nat, me: nat, s: nat, a: nat, p: nat, c: nat)
    requires me < P && s < P && n > 0 && Radix.At(me, n, 2, a, p, c) && me in Radix.Dests(P, n, 2, s)
    ensures Calls(P, n, me, s, a, p, c)
  {
    var b, q, d := Radix.Locate(s, n, 2);
    Radix.SourceHasForm(P, n, 2, s, b, q, d, me, a, p, c);
    if b == a + 1 {
      Radix.Between(n, 2, a, p, b, q, c);
      var k := 2 + q - p;
      Radix.Multiple(2, k, n);
    } else {
      assert q == 1 - p;
    }
  }

  lemma {:induction false} SourcesLikeNary(P: nat, n: nat, me: nat, from: set<int>, a: nat, p: nat, c: nat)
    requires me < P && n > 0 && Radix.At(me, n, 2, a, p, c)
    requires forall s :: s in from <==> Calls(P, n, me, s, a, p, c)
    ensures forall s: nat :: s in from <==> s in Radix.Sources(P, n, 2, me)
    ensures |from| == |Radix.Sources(P, n, 2, me)|
  {
    assert (a * 2 + (1 - p)) * n >= 0;
    var all: set<int> := Radix.Sources(P, n, 2, me);
    forall s: int ensures s in from <==> s in all {
      if s in from { CallerSends(P, n, me, s, a, p, c); }
      if s in all { SenderCalls(P, n, me, s, a, p, c); }
    }
    assert from == all;
  }

  lemma {:induction false} SendsLikeNary(P: nat, k: nat, me: nat)
    requires me < P && Pow2(k) > 0
    ensures SendTo(P, Pow2(k), me) == Radix.Dests(P, Pow2(k), 2, me)
  {
    var n := Pow2(k);
    var a, p, c := Radix.Locate(me, n, 2);
    TalksAt(P, k, me, a, p, c);
    Radix.AtIs(me, n, 2, a, p, c);
    var j := 1 - p;
    Radix.PeerAt(P, n, 2, me, j, a, p, c);
    Radix.PeerForm(n, 2, a, j, c);
    OneDest(P, n, me, j);
  }

  /** With two branches there is at most one destination. */
  lemma {:induction false} OneDest(P: nat, n: nat, me: nat, j: nat)
    requires n > 0 && j < 2 && Radix.Part(me, n, 2) == 1 - j
    ensures Radix.Dests(P, n, 2, me) == if Radix.Peer(P, n, 2, me, j) >= 0 then {Radix.Peer(P, n, 2, me, j)} else {}
  {
    forall d: nat
      ensures d in Radix.Dests(P, n, 2, me) <==> Radix.Peer(P, n, 2, me, j) >= 0 && d == Radix.Peer(P, n, 2, me, j)
    {
    }
  }

  /** At every level the binary recursion talks like the n-ary one of width 2. */
  lemma {:induction false} LikeNary(P: nat, k: nat, me: nat)
    requires me < P && Pow2(k) > 0
    ensures SendTo(P, Pow2(k), me) == Radix.Dests(P, Pow2(k), 2, me)
    ensures forall s: nat :: s in ReceiveFrom(P, Pow2(k), me) <==> s in Radix.Sources(P, Pow2(k), 2, me)
    ensures Receives(P, Pow2(k), me) == Radix.Expected(P, Pow2(k), 2, me)
  {
    SendsLikeNary(P, k, me);
    var a, p, c := Radix.Locate(me, Pow2(k), 2);
    ReceiveIs(P, k, me, a, p, c);
    SourcesLikeNary(P, Pow2(k), me, ReceiveFrom(P, Pow2(k), me), a, p, c);
    ExpectedCount(P, Pow2(k), 2, me);
  }

  // ---------------------------------------------------------------- the plan

  ghost function Twos(k: nat): (ws: seq<nat>)
    ensures |ws| == k && Widths(ws)
  {
    seq(k, _ => 2)
  }

  lemma {:induction false} LenTwos(k: nat, t: nat)
    requires t <= k
    ensures Len(Twos(k), t) == Pow2(t)
  {
    if t > 0 { LenTwos(k, t - 1); }
  }

  ghost function BinaryPlan(P: nat): NotifyPlan
    requires P > 0
  {
    Rounds.Plan(
      P, Levels(P),
      (t: nat, r: nat) => Pow2Positive(t); SendTo(P, Pow2(t), r),
      (t: nat, s: nat, d: nat) => SC_TAG_NOTIFY_RECURSIVE + Log2(Pow2(t + 1)),
      (t: nat, r: nat, s: nat, tag: int) => tag == SC_TAG_NOTIFY_RECURSIVE + Log2(Pow2(t + 1)),
      (t: nat, r: nat) => Pow2Positive(t); Receives(P, Pow2(t), r),
      (t: nat, s: nat, data: Data, d: nat) => Outgoing(t, s, data),
      (t: nat, r: nat, data: Data) => Remaining(P, t, r, data),
      (t: nat, r: nat, acc: Data, s: nat, m: Data) => MergeRecs(acc, m))
  }

  /** The send buffer of MarkForPeer. */
  ghost function Outgoing(t: nat, me: nat, data: Data): Data {
    Pow2Positive(t + 1);
    Filter(data, Moves(me, Pow2(t + 1)))
  }

  /** What the merge sees of the own array; without a peer nothing is marked. */
  ghost function Remaining(P: nat, t: nat, me: nat, data: Data): Data {
    Pow2Positive(t);
    Pow2Positive(t + 1);
    if Talks(P, Pow2(t), me).peer >= 0 then Filter(data, Stays(me, Pow2(t + 1))) else data
  }

  lemma {:induction false} Log2Pow2(k: nat)
    ensures Log2(Pow2(k)) == k
  {
    Pow2Positive(k);
    if k > 0 { Log2Pow2(k - 1); assert Pow2(k) / 2 == Pow2(k - 1); } else { assert Log2(1 / 2) == -1; }
  }

  lemma {:induction false} BinaryGeometry(pat: Pattern)
    requires pat.ranks > 0
    ensures Geometry(BinaryPlan(pat.ranks), pat, Twos(Levels(pat.ranks)))
  {
    var P, p, ws := pat.ranks, BinaryPlan(pat.ranks), Twos(Levels(pat.ranks));
    forall t: nat, r: nat | t < |ws| && r < P
      ensures p.dests(t, r) == DestsAt(P, ws, t, r) && p.need(t, r) == NeedAt(P, ws, t, r)
    {
      LevelGeometry(P, t, r);
      LevelLinks(P, t, r);
    }
    forall t: nat, m: nat, s: nat, d: nat | t < |ws| && m < |ws|
      ensures p.accepts(t, d, s, p.tag(m, s, d)) <==> t == m
    {
      LevelTags(P, t, m, s, d);
    }
  }

  lemma {:induction false} LevelTags(P: nat, t: nat, m: nat, s: nat, d: nat)
    requires P > 0
    ensures BinaryPlan(P).accepts(t, d, s, BinaryPlan(P).tag(m, s, d)) <==> t == m
  {
    Log2Pow2(t + 1);
    Log2Pow2(m + 1);
  }

  lemma {:induction false} LevelLinks(P: nat, t: nat, r: nat)
    requires P > 0 && Pow2(t) > 0
    ensures BinaryPlan(P).dests(t, r) == SendTo(P, Pow2(t), r) && BinaryPlan(P).need(t, r) == Receives(P, Pow2(t), r)
  {
  }

  lemma {:induction false} LevelGeometry(P: nat, t: nat, r: nat)
    requires r < P && t < Levels(P)
    ensures Pow2(t) > 0 && SendTo(P, Pow2(t), r) == DestsAt(P, Twos(Levels(P)), t, r)
    ensures Receives(P, Pow2(t), r) == NeedAt(P, Twos(Levels(P)), t, r)
  {
    Pow2Positive(t);
    LenTwos(Levels(P), t);
    LikeNary(P, t, r);
  }

  /** A record stays exactly if its destination is congruent to the rank modulo the joint length. */
  lemma {:induction false} StayByClass(P: nat, n: nat, me: nat, to: nat)
    requires n > 0 && me < P && to < P && me % n == to % n
    ensures Radix.Route(P, n, 2, me, to) == me <==> Stays(me, 2 * n)(to)
    ensures Stays(me, 2 * n)(to) <==> !Moves(me, 2 * n)(to)
  {
    Radix.RouteAdvances(P, n, 2, me, to);
    var a, p, c := Radix.Locate(me, n, 2);
    var b, q, d := Radix.Locate(to, n, 2);
    Radix.AtIs(me, n, 2, a, p, c);
    Radix.AtIs(to, n, 2, b, q, d);
    assert n * 2 == 2 * n;
    assert p != q ==> p * n != q * n;
  }

  /** Where a pair held by s goes at level t, said with the binary tests. */
  lemma {:induction false} BinaryHop(P: nat, t: nat, s: nat, from: nat, to: nat)
    requires P > 0 && t < Levels(P) && from < P && to < P && Holder(P, Twos(Levels(P)), t, from, to) == s
    ensures Pow2(t) > 0 && Pow2(t + 1) > 0
    ensures var g := Holder(P, Twos(Levels(P)), t + 1, from, to);
      && (g == s <==> Stays(s, Pow2(t + 1))(to))
      && (Stays(s, Pow2(t + 1))(to) <==> !Moves(s, Pow2(t + 1))(to))
      && (g == s || g in SendTo(P, Pow2(t), s))
  {
    var ws := Twos(Levels(P));
    Pow2Positive(t);
    LenTwos(|ws|, t);
    HopIs(P, ws, t, from, to);
    StayByClass(P, Pow2(t), s, to);
    LikeNary(P, t, s);
  }

  lemma {:induction false} OutgoingIsMoved(pat: Pattern, t: nat, s: nat, d: nat)
    requires Valid(pat) && pat.ranks > 0 && t < Levels(pat.ranks) && s < pat.ranks && d != s
    requires Pow2(t) > 0 && d in SendTo(pat.ranks, Pow2(t), s)
    ensures var ws := Twos(Levels(pat.ranks));
            Outgoing(t, s, At(pat, ws)(t, s)) == Table(pat, Moved(pat.ranks, ws, t, s, d))
  {
    var P, ws := pat.ranks, Twos(Levels(pat.ranks));
    Pow2Positive(t + 1);
    var sel, keep, both := HeldBy(P, ws, t, s), Moves(s, Pow2(t + 1)), Moved(P, ws, t, s, d);
    forall to, from | Wants(pat, to, from) ensures both(to, from) <==> sel(to, from) && keep(to) {
      WantsBounds(pat, to, from);
      if sel(to, from) { BinaryHop(P, t, s, from, to); }
    }
    FilterTable(pat, sel, keep, both);
  }

  lemma {:induction false} RemainingIsMoved(pat: Pattern, t: nat, r: nat)
    requires Valid(pat) && pat.ranks > 0 && t < Levels(pat.ranks) && r < pat.ranks
    ensures var ws := Twos(Levels(pat.ranks));
            Remaining(pat.ranks, t, r, At(pat, ws)(t, r)) == Table(pat, Moved(pat.ranks, ws, t, r, r))
  {
    var P, ws := pat.ranks, Twos(Levels(pat.ranks));
    Pow2Positive(t);
    Pow2Positive(t + 1);
    var sel, keep, both := HeldBy(P, ws, t, r), Stays(r, Pow2(t + 1)), Moved(P, ws, t, r, r);
    forall to, from | Wants(pat, to, from)
      ensures both(to, from) <==> sel(to, from) && keep(to)
      ensures SendTo(P, Pow2(t), r) == {} ==> (both(to, from) <==> sel(to, from))
    {
      WantsBounds(pat, to, from);
      if sel(to, from) { BinaryHop(P, t, r, from, to); }
    }
    if Talks(P, Pow2(t), r).peer >= 0 {
      FilterTable(pat, sel, keep, both);
    } else {
      SameTable(pat, sel, both);
    }
  }

  lemma {:induction false} BinarySplits(pat: Pattern)
    requires Valid(pat) && pat.ranks > 0
    ensures Splits(BinaryPlan(pat.ranks), pat, Twos(Levels(pat.ranks)))
  {
    var P, p, ws := pat.ranks, BinaryPlan(pat.ranks), Twos(Levels(pat.ranks));
    forall t: nat, r: nat | t < |ws| && r < P
      ensures p.keep(t, r, At(pat, ws)(t, r)) == Table(pat, Moved(P, ws, t, r, r))
    {
      RemainingIsMoved(pat, t, r);
    }
    forall t: nat, s: nat, d: nat | t < |ws| && s < P && d in DestsAt(P, ws, t, s)
      ensures p.message(t, s, At(pat, ws)(t, s), d) == Table(pat, Moved(P, ws, t, s, d))
    {
      Pow2Positive(t);
      LenTwos(|ws|, t);
      LikeNary(P, t, s);
      DestsExist(P, Pow2(t), 2, s, d);
      OutgoingIsMoved(pat, t, s, d);
    }
  }

  /** sc_notify, for every number of ranks, every pattern and every interleaving. */
  lemma {:induction false} BinaryNotify(pat: Pattern, run: seq<Rounds.State<Data, Data>>, i: nat)
    requires Valid(pat) && pat.ranks > 0
    requires Rounds.IsRun(BinaryPlan(pat.ranks), Inputs(pat), run) && i < |run|
    ensures var p := BinaryPlan(pat.ranks);
      && |run| <= 1 + pat.ranks * (Levels(pat.ranks) * (2 * pat.ranks + 1))
      && (!Rounds.Done(p, run[i]) ==> exists r: nat :: r < |run[i].local| && Rounds.Ready(p, run[i], r))
      && (Rounds.Done(p, run[i]) ==> Delivered(pat, run[i]))
      && (!Rounds.CanMove(p, run[i]) ==> Delivered(pat, run[i]))
  {
    var ws := Twos(Levels(pat.ranks));
    RoundUp(pat.ranks);
    LenTwos(|ws|, |ws|);
    BinaryGeometry(pat);
    BinarySplits(pat);
    PlanComputes(BinaryPlan(pat.ranks), pat, ws);
    EveryRun(BinaryPlan(pat.ranks), pat, ws, run, i);
  }
}
