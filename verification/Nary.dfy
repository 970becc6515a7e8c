/** The n-ary recursion, sc_notify_recursive_nary and sc_notify_payload_nary. */
module Nary {
  import opened Records
  import opened NotifyArrays
  import opened Pattern
  import opened Holders
  import opened Recursion
  import Radix
  import Rounds

  const SC_TAG_NOTIFY_NARY := 260

  // ---------------------------------------------------------------- the shape of the tree

  /** The widths of the levels, deepest first: nbot, then nint, and ntop at the top. */
  function TreeWidths(depth: nat, ntop: nat, nint: nat, nbot: nat): (ws: seq<nat>)
    requires depth > 0
    ensures |ws| == depth
    ensures ntop > 0 && nint > 0 && nbot > 0 ==> Widths(ws)
  {
    seq(depth, t requires 0 <= t < depth => Divn(depth, depth - 1 - t, ntop, nint, nbot))
  }

  /** The width used at `level`, where level 0 is the top of the tree. */
  function Divn(depth: nat, level: nat, ntop: nat, nint: nat, nbot: nat): nat {
    if level == depth - 1 then nbot else if level == 0 then ntop else nint
  }

  lemma {:induction false} LenPrefix(a: seq<nat>, b: seq<nat>, t: nat)
    requires t <= |a| && t <= |b| && a[..t] == b[..t]
    ensures Len(a, t) == Len(b, t)
  {
    if t > 0 {
      assert a[..t - 1] == a[..t][..t - 1] == b[..t][..t - 1] == b[..t - 1];
      assert a[t - 1] == a[..t][t - 1] == b[..t][t - 1] == b[t - 1];
      LenPrefix(a, b, t - 1);
    }
  }

  /** The number of ranks of the full tree. */
  ghost function Padded(depth: nat, ntop: nat, nint: nat, nbot: nat): nat
    requires depth > 0
  {
    Len(TreeWidths(depth, ntop, nint, nbot), depth)
  }

  /** Depth and padded number of ranks; `prod` is the product of all widths and covers P. */
  method TreeDepth(P: nat, ntop: nat, nint: nat, nbot: nat) returns (depth: nat, prod: nat)
    requires P >= 2 && ntop >= 2 && nint >= 2 && nbot >= 2
    ensures depth > 0 && prod == Padded(depth, ntop, nint, nbot) && prod >= P
    ensures depth == 1 <==> P <= nbot
    ensures depth >= 3 ==> Padded(depth - 1, ntop, nint, nbot) < P
  {
    Shallow(ntop, nint, nbot);
    if P <= nbot {
      depth, prod := 1, nbot;
    } else {
      depth, prod := 2, nbot * ntop;
      while prod < P
        invariant depth >= 2 && prod == Padded(depth, ntop, nint, nbot) && prod > 0
        invariant depth >= 3 ==> Padded(depth - 1, ntop, nint, nbot) < P
        decreases P - prod
      {
        Deeper(depth, ntop, nint, nbot);
        Grows(prod, nint);
        prod := prod * nint;
        depth := depth + 1;
      }
    }
  }

  lemma {:induction false} Grows(x: nat, k: nat)
    requires x > 0 && k >= 2
    ensures x * k > x
  {
  }

  lemma {:induction false} Shallow(ntop: nat, nint: nat, nbot: nat)
    ensures Padded(1, ntop, nint, nbot) == nbot
    ensures Padded(2, ntop, nint, nbot) == nbot * ntop
    ensures ntop > 0 && nbot > 0 ==> nbot * ntop > 0
  {
    var a, b := TreeWidths(1, ntop, nint, nbot), TreeWidths(2, ntop, nint, nbot);
    assert a[0] == nbot && b[0] == nbot && b[1] == ntop;
    assert Len(a, 0) == 1 && Len(b, 0) == 1 && Len(b, 1) == nbot;
  }

  /** One more level: the top stays on top, an inner level comes below it. */
  lemma {:induction false} Deeper(depth: nat, ntop: nat, nint: nat, nbot: nat)
    requires depth >= 2
    ensures Padded(depth + 1, ntop, nint, nbot) == Padded(depth, ntop, nint, nbot) * nint
  {
    var a, b := TreeWidths(depth, ntop, nint, nbot), TreeWidths(depth + 1, ntop, nint, nbot);
    forall t | 0 <= t < depth - 1 ensures a[t] == b[t] {
      assert a[t] == Divn(depth, depth - 1 - t, ntop, nint, nbot);
      assert b[t] == Divn(depth + 1, depth - t, ntop, nint, nbot);
    }
    assert a[..depth - 1] == b[..depth - 1];
    LenPrefix(a, b, depth - 1);
    var x := Len(a, depth - 1);
    assert a[depth - 1] == Divn(depth, 0, ntop, nint, nbot) == ntop;
    assert b[depth - 1] == Divn(depth + 1, 1, ntop, nint, nbot) == nint;
    assert b[depth] == Divn(depth + 1, 0, ntop, nint, nbot) == ntop;
    assert Len(b, depth) == x * nint;
    assert x * nint * ntop == x * ntop * nint;
  }

  function Power(x: nat, k: nat): nat { if k == 0 then 1 else x * Power(x, k - 1) }

  /** Which widths are at the bottom, in between and at the top. */
  lemma {:induction false} WidthsAre(depth: nat, ntop: nat, nint: nat, nbot: nat, t: nat)
    requires t < depth
    ensures var ws := TreeWidths(depth, ntop, nint, nbot);
      && (t == 0 ==> ws[t] == nbot)
      && (0 < t < depth - 1 ==> ws[t] == nint)
      && (0 < t == depth - 1 ==> ws[t] == ntop)
  {
    assert TreeWidths(depth, ntop, nint, nbot)[t] == Divn(depth, depth - 1 - t, ntop, nint, nbot);
  }

  /** The product of the widths. */
  lemma {:induction false} PaddedIs(depth: nat, ntop: nat, nint: nat, nbot: nat)
    requires depth >= 2
    ensures Padded(depth, ntop, nint, nbot) == ntop * Power(nint, depth - 2) * nbot
  {
    if depth == 2 {
      Shallow(ntop, nint, nbot);
      assert Power(nint, 0) == 1;
    } else {
      PaddedIs(depth - 1, ntop, nint, nbot);
      Deeper(depth - 1, ntop, nint, nbot);
      TimesInner(ntop, nint, Power(nint, depth - 3), nbot, Padded(depth - 1, ntop, nint, nbot));
    }
  }

  lemma {:induction false} TimesInner(a: nat, b: nat, c: nat, d: nat, p: nat)
    requires p == a * c * d
    ensures p * b == a * (b * c) * d
  {
    assert p * b == a * c * b * d;
    assert a * c * b == a * (b * c);
  }

  // ---------------------------------------------------------------- the plan

  ghost function NaryPlan(P: nat, ws: seq<nat>): NotifyPlan
    requires Widths(ws)
  {
    Rounds.Plan(
      P, |ws|,
      (t: nat, r: nat) => if t < |ws| then DestsAt(P, ws, t, r) else {},
      (t: nat, s: nat, d: nat) => LevelTag(|ws|, t),
      (t: nat, r: nat, s: nat, tag: int) => tag == LevelTag(|ws|, t),
      (t: nat, r: nat) => if t < |ws| && r < P then NeedAt(P, ws, t, r) else 0,
      (t: nat, s: nat, data: Data, d: nat) => ForRank(ws, t, data, d),
      (t: nat, r: nat, data: Data) => ForRank(ws, t, data, r),
      (t: nat, r: nat, acc: Data, s: nat, m: Data) => MergeRecs(acc, m))
  }

  /** The recursion unwinds from the deepest level: round t is level depth - 1 - t. */
  function LevelTag(depth: nat, t: nat): int {
    SC_TAG_NOTIFY_NARY + (depth - 1 - t)
  }

  /** The buffer of the branch that rank d is in. */
  ghost function ForRank(ws: seq<nat>, t: nat, data: Data, d: nat): Data
    requires Widths(ws)
  {
    if t < |ws| then
      LenPositive(ws, t);
      LenPositive(ws, t + 1);
      Filter(data, ForPart(Len(ws, t), ws[t], Radix.Part(d, Len(ws, t), ws[t])))
    else data
  }

  /** A peer for branch j is in branch j. */
  lemma {:induction false} PeerPart(P: nat, n: nat, w: nat, me: nat, j: nat)
    requires n > 0 && w > 0 && me < P && j < w && Radix.Peer(P, n, w, me, j) >= 0
    ensures Radix.Part(Radix.Peer(P, n, w, me, j), n, w) == j
  {
    var a, p, c := Radix.Locate(me, n, w);
    Radix.PeerAt(P, n, w, me, j, a, p, c);
    var x := (a * w + j) * n + c;
    Radix.AtIs(Radix.Peer(P, n, w, me, j), n, w, if x < P then a else a - 1, j, c);
  }

  /** A record goes to d exactly if its branch is that of d. */
  lemma {:induction false} RouteByBranch(P: nat, n: nat, w: nat, me: nat, to: nat, d: nat)
    requires n > 0 && w > 0 && n * w > 0 && me < P && to < P && me % n == to % n
    requires d == me || d in Radix.Dests(P, n, w, me)
    ensures Radix.Route(P, n, w, me, to) == d <==> ForPart(n, w, Radix.Part(d, n, w))(to)
  {
    Radix.RouteAdvances(P, n, w, me, to);
    if d != me {
      var j: nat :| j < w && j != Radix.Part(me, n, w) && Radix.Peer(P, n, w, me, j) >= 0
        && d == Radix.Peer(P, n, w, me, j);
      PeerPart(P, n, w, me, j);
    }
  }

  lemma {:induction false} BranchIsMoved(pat: Pattern, ws: seq<nat>, t: nat, s: nat, d: nat)
    requires Valid(pat) && Widths(ws) && t < |ws| && s < pat.ranks
    requires d == s || d in DestsAt(pat.ranks, ws, t, s)
    ensures ForRank(ws, t, At(pat, ws)(t, s), d) == Table(pat, Moved(pat.ranks, ws, t, s, d))
  {
    var P, n, w := pat.ranks, Len(ws, t), ws[t];
    LenPositive(ws, t);
    LenPositive(ws, t + 1);
    var sel, keep, both := HeldBy(P, ws, t, s), ForPart(n, w, Radix.Part(d, n, w)), Moved(P, ws, t, s, d);
    forall to, from | Wants(pat, to, from) ensures both(to, from) <==> sel(to, from) && keep(to) {
      WantsBounds(pat, to, from);
      HopIs(P, ws, t, from, to);
      if sel(to, from) { RouteByBranch(P, n, w, s, to, d); }
    }
    FilterTable(pat, sel, keep, both);
  }

  lemma {:induction false} NarySplits(pat: Pattern, ws: seq<nat>)
    requires Valid(pat) && Widths(ws)
    ensures Geometry(NaryPlan(pat.ranks, ws), pat, ws) && Splits(NaryPlan(pat.ranks, ws), pat, ws)
  {
    var p := NaryPlan(pat.ranks, ws);
    forall t: nat, r: nat | t < |ws| && r < pat.ranks
      ensures p.keep(t, r, At(pat, ws)(t, r)) == Table(pat, Moved(pat.ranks, ws, t, r, r))
    {
      BranchIsMoved(pat, ws, t, r, r);
    }
    forall t: nat, s: nat, d: nat | t < |ws| && s < pat.ranks && d in DestsAt(pat.ranks, ws, t, s)
      ensures p.message(t, s, At(pat, ws)(t, s), d) == Table(pat, Moved(pat.ranks, ws, t, s, d))
    {
      BranchIsMoved(pat, ws, t, s, d);
    }
  }

  lemma {:induction false} NaryComputes(pat: Pattern, ws: seq<nat>)
    requires Valid(pat) && Widths(ws) && Len(ws, |ws|) >= pat.ranks
    ensures Computes(NaryPlan(pat.ranks, ws), pat, ws)
  {
    NarySplits(pat, ws);
    PlanComputes(NaryPlan(pat.ranks, ws), pat, ws);
  }

  /** sc_notify_payload_nary, for every number of ranks, all widths and every interleaving. */
  lemma {:induction false} NaryNotify(pat: Pattern, depth: nat, ntop: nat, nint: nat, nbot: nat,
          run: seq<Rounds.State<Data, Data>>, i: nat)
    requires Valid(pat) && depth > 0 && ntop > 0 && nint > 0 && nbot > 0
    requires Padded(depth, ntop, nint, nbot) >= pat.ranks
    requires Rounds.IsRun(NaryPlan(pat.ranks, TreeWidths(depth, ntop, nint, nbot)), Inputs(pat), run) && i < |run|
    ensures var p := NaryPlan(pat.ranks, TreeWidths(depth, ntop, nint, nbot));
      && |run| <= 1 + pat.ranks * (depth * (2 * pat.ranks + 1))
      && (!Rounds.Done(p, run[i]) ==> exists r: nat :: r < |run[i].local| && Rounds.Ready(p, run[i], r))
      && (Rounds.Done(p, run[i]) ==> Delivered(pat, run[i]))
      && (!Rounds.CanMove(p, run[i]) ==> Delivered(pat, run[i]))
  {
    var ws := TreeWidths(depth, ntop, nint, nbot);
    NaryComputes(pat, ws);
    EveryRun(NaryPlan(pat.ranks, ws), pat, ws, run, i);
  }

  // ---------------------------------------------------------------- merging by buffer

  ghost function Arrivals(pat: Pattern, ws: seq<nat>, t: nat, r: nat, srcs: seq<nat>): seq<Data>
    requires Valid(pat) && Widths(ws) && t < |ws|
  {
    seq(|srcs|, i requires 0 <= i < |srcs| => Table(pat, Moved(pat.ranks, ws, t, srcs[i], r)))
  }

  ghost function FromAny(P: nat, ws: seq<nat>, t: nat, r: nat, srcs: seq<nat>): Choice
    requires Widths(ws) && t < |ws|
  {
    (to: int, from: int) => 0 <= to < P && 0 <= from < P && Holder(P, ws, t, from, to) in srcs
      && Holder(P, ws, t + 1, from, to) == r
  }

  lemma {:induction false} MergeArrivals(pat: Pattern, ws: seq<nat>, t: nat, r: nat, srcs: seq<nat>)
    requires Valid(pat) && Widths(ws) && t < |ws|
    requires forall i, j :: 0 <= i < j < |srcs| ==> srcs[i] != srcs[j]
    ensures MergeAll(Arrivals(pat, ws, t, r, srcs)) == Table(pat, FromAny(pat.ranks, ws, t, r, srcs))
  {
    var P := pat.ranks;
    if srcs == [] {
      TableUnique(pat, [], FromAny(P, ws, t, r, srcs));
    } else {
      var rest := srcs[1..];
      MergeArrivals(pat, ws, t, r, rest);
      assert Arrivals(pat, ws, t, r, srcs)[1..] == Arrivals(pat, ws, t, r, rest);
      assert srcs[0] !in rest;
      MergeTables(pat, Moved(P, ws, t, srcs[0], r), FromAny(P, ws, t, r, rest), FromAny(P, ws, t, r, srcs));
    }
  }

  /**
   Merging what a rank kept and what it received, in any order of the sources, gives the
   array that the next level starts from.  The order of the receive buffers is one of them.
   */
  lemma {:induction false} AnyMergeOrder(pat: Pattern, ws: seq<nat>, t: nat, r: nat, srcs: seq<nat>)
    requires Valid(pat) && Widths(ws) && t < |ws| && r < pat.ranks
    requires forall i, j :: 0 <= i < j < |srcs| ==> srcs[i] != srcs[j]
    requires Len(ws, t) > 0 && forall s :: s in srcs <==> s in Radix.Sources(pat.ranks, Len(ws, t), ws[t], r) + {r}
    ensures MergeAll(Arrivals(pat, ws, t, r, srcs)) == At(pat, ws)(t + 1, r)
  {
    var P := pat.ranks;
    MergeArrivals(pat, ws, t, r, srcs);
    var a, b := FromAny(P, ws, t, r, srcs), HeldBy(P, ws, t + 1, r);
    forall to, from | Wants(pat, to, from) ensures a(to, from) <==> b(to, from) {
      WantsBounds(pat, to, from);
      HopIs(P, ws, t, from, to);
      assert Holder(P, ws, t, from, to) in srcs <==>
        Holder(P, ws, t, from, to) in Radix.Sources(P, Len(ws, t), ws[t], r) + {r};
    }
    SameTable(pat, a, b);
  }
}
