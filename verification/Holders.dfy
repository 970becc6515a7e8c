/**
 Where a record is after each level of the recursion.  `ws` lists the widths of the
 levels in the order in which they are completed, the deepest level first.
 */
module Holders {
  import opened Radix

  ghost predicate Widths(ws: seq<nat>) {
    forall i :: 0 <= i < |ws| ==> ws[i] > 0
  }

  /** The number of ranks in one branch before level t is done: the product of the first t widths. */
  function Len(ws: seq<nat>, t: nat): nat
    requires t <= |ws|
  {
    if t == 0 then 1 else Len(ws, t - 1) * ws[t - 1]
  }

  lemma {:induction false} LenPositive(ws: seq<nat>, t: nat)
    requires Widths(ws) && t <= |ws|
    ensures Len(ws, t) > 0
  {
    if t > 0 {
      LenPositive(ws, t - 1);
      assert Len(ws, t - 1) * ws[t - 1] > 0;
    }
  }

  /** Rank, at level t, routes a record for `to`. */
  ghost function Hop(P: nat, ws: seq<nat>, t: nat, r: nat, to: nat): int
    requires Widths(ws) && t < |ws|
  {
    LenPositive(ws, t);
    Route(P, Len(ws, t), ws[t], r, to)
  }

  /**
   The one rank that holds the pair (from, to) once t levels are done.  It exists, and
   it is congruent to `to` modulo the length of the level.
   */
  ghost function Holder(P: nat, ws: seq<nat>, t: nat, from: nat, to: nat): (h: nat)
    requires Widths(ws) && t <= |ws| && from < P && to < P
    ensures h < P && Len(ws, t) > 0 && h % Len(ws, t) == to % Len(ws, t)
  {
    LenPositive(ws, t);
    if t == 0 then from
    else
      LenPositive(ws, t - 1);
      RouteAdvances(P, Len(ws, t - 1), ws[t - 1], Holder(P, ws, t - 1, from, to), to);
      Hop(P, ws, t - 1, Holder(P, ws, t - 1, from, to), to)
  }

  /** When the levels cover all ranks, the pair has arrived. */
  lemma {:induction false} Arrived(P: nat, ws: seq<nat>, from: nat, to: nat)
    requires Widths(ws) && from < P && to < P && Len(ws, |ws|) >= P
    ensures Holder(P, ws, |ws|, from, to) == to
  {
    var h, n := Holder(P, ws, |ws|, from, to), Len(ws, |ws|);
    Quotient(h, n, 0, h);
    Quotient(to, n, 0, to);
  }

  // ---------------------------------------------------------------- one level, rank by rank

  ghost function DestsAt(P: nat, ws: seq<nat>, t: nat, r: nat): set<nat>
    requires Widths(ws) && t < |ws|
  {
    LenPositive(ws, t);
    Dests(P, Len(ws, t), ws[t], r)
  }

  ghost function NeedAt(P: nat, ws: seq<nat>, t: nat, r: nat): nat
    requires Widths(ws) && t < |ws| && r < P
  {
    LenPositive(ws, t);
    ExpectedCount(P, Len(ws, t), ws[t], r);
    Expected(P, Len(ws, t), ws[t], r)
  }

  lemma {:induction false} LowerGroup(n: nat, w: nat, a: nat, p: nat, q: nat, c: nat)
    requires p < w && n > 0
    ensures (a * w + p) * n + c < ((a + 1) * w + q) * n + c
  {
    assert a * w + p < (a + 1) * w + q by { assert (a + 1) * w == a * w + w; }
    assert (a * w + p) * n < ((a + 1) * w + q) * n;
  }

  lemma {:induction false} DestsExist(P: nat, n: nat, w: nat, me: nat, d: nat)
    requires n > 0 && w > 0 && me < P && d in Dests(P, n, w, me)
    ensures d < P && d != me
  {
    var b, q, e := Locate(me, n, w);
    var a, p, c := Locate(d, n, w);
    SourceHasForm(P, n, w, me, b, q, e, d, a, p, c);
    if d == me { AtUnique(me, n, w, b, q, e, a, p, c); }
    if b == a + 1 {
      LowerGroup(n, w, a, p, q, c);
    } else {
      AtIs(me, n, w, b, q, e);
      var j: nat :| j < w && j != q && Peer(P, n, w, me, j) >= 0 && d == Peer(P, n, w, me, j);
      PeerAt(P, n, w, me, j, b, q, e);
      var x := (b * w + j) * n + e;
      if x >= P { AtUnique(d, n, w, a, p, c, b - 1, j, e); }
    }
  }

  lemma {:induction false} SlotSourceGrows(n: nat, w: nat, me: nat, i: int, j: int)
    requires n > 0 && w > 0 && i < j
    ensures SlotSource(n, w, me, i) < SlotSource(n, w, me, j)
  {
    var p := Part(me, n, w);
    assert (i - p) * n < (j - p) * n;
  }

  ghost function Image(n: nat, w: nat, me: nat, k: nat): set<int>
    requires n > 0 && w > 0
  {
    if k == 0 then {} else Image(n, w, me, k - 1) + {SlotSource(n, w, me, k - 1)}
  }

  lemma {:induction false} ImageIs(n: nat, w: nat, me: nat, k: nat)
    requires n > 0 && w > 0
    ensures forall x :: x in Image(n, w, me, k) <==> exists j :: 0 <= j < k && x == SlotSource(n, w, me, j)
    ensures |Image(n, w, me, k)| == k
  {
    if k > 0 {
      ImageIs(n, w, me, k - 1);
      forall j | 0 <= j < k - 1 ensures SlotSource(n, w, me, j) != SlotSource(n, w, me, k - 1) {
        SlotSourceGrows(n, w, me, j, k - 1);
      }
    }
  }

  lemma {:induction false} BuffersAreSources(P: nat, n: nat, w: nat, me: nat, x: int)
    requires n > 0 && w > 0 && me < P && Expected(P, n, w, me) >= 0
    ensures x in Image(n, w, me, Expected(P, n, w, me) + 1) <==> 0 <= x && x in Sources(P, n, w, me) + {me}
  {
    var e := Expected(P, n, w, me);
    ImageIs(n, w, me, e + 1);
    if x in Image(n, w, me, e + 1) {
      var j: nat :| j < e + 1 && x == SlotSource(n, w, me, j);
      SourceOfSlot(P, n, w, me, j);
    }
    if 0 <= x && x in Sources(P, n, w, me) + {me} {
      SlotOfSource(P, n, w, me, x);
    }
  }

  /** The computed receive count is the number of messages addressed to the rank. */
  lemma {:induction false} ExpectedCount(P: nat, n: nat, w: nat, me: nat)
    requires n > 0 && w > 0 && me < P
    ensures Expected(P, n, w, me) == |Sources(P, n, w, me)|
  {
    var e := Expected(P, n, w, me);
    assert e >= 0 by { SlotOfSource(P, n, w, me, me); }
    var all: set<int> := Sources(P, n, w, me) + {me};
    assert me !in Sources(P, n, w, me) by {
      if me in Dests(P, n, w, me) { DestsExist(P, n, w, me, me); }
    }
    forall x: int ensures x in Image(n, w, me, e + 1) <==> x in all { BuffersAreSources(P, n, w, me, x); }
    assert all == Image(n, w, me, e + 1);
    ImageIs(n, w, me, e + 1);
  }
}
