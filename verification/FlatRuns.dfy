/**
 Runs of the notify recursions of src/sc_notify.c on the flat integer arrays that the code
 keeps and sends.  They are the images of the runs on record arrays: a flat array and its
 records determine each other.
 */
module FlatRuns {
  import opened Records
  import opened Pattern
  import opened Holders
  import opened NotifyArrays
  import opened Recursion
  import opened Nary
  import opened Binary
  import L = Levels
  import Rounds

  // ---------------------------------------------------------------- reading flat arrays

  function ParseItems(s: seq<int>, n: nat, npay: nat): (items: seq<Item>)
    ensures |FlatItems(items)| <= |s|
    decreases n
  {
    if n == 0 || |s| < 1 + npay then []
    else
      var rest := ParseItems(s[1 + npay..], n - 1, npay);
      FlatItemsCons(Item(s[0], s[1..1 + npay]), rest);
      [Item(s[0], s[1..1 + npay])] + rest
  }

  lemma {:induction false} FlatItemsCons(x: Item, rest: seq<Item>)
    ensures FlatItems([x] + rest) == [x.from] + x.pay + FlatItems(rest)
  {
    assert ([x] + rest)[1..] == rest;
  }

  /** The records of a flat array: destination, number of items, items. */
  function Parse(s: seq<int>, npay: nat): seq<Record>
    decreases |s|
  {
    if |s| < 2 || s[1] < 0 then []
    else
      var items := ParseItems(s[2..], s[1], npay);
      [Record(s[0], items)] + Parse(s[2 + |FlatItems(items)|..], npay)
  }

  lemma {:induction false} ParseItemsFlat(items: seq<Item>, tail: seq<int>, npay: nat)
    requires ItemsSized(items, npay)
    ensures ParseItems(FlatItems(items) + tail, |items|, npay) == items
  {
    if items != [] {
      var x, s := items[0], FlatItems(items) + tail;
      ItemFirst(items, tail, s, npay);
      ParseItemsFlat(items[1..], tail, npay);
      assert items == [x] + items[1..];
    }
  }

  lemma {:induction false} ItemFirst(items: seq<Item>, tail: seq<int>, s: seq<int>, npay: nat)
    requires items != [] && ItemsSized(items, npay) && s == FlatItems(items) + tail
    ensures |s| >= 1 + npay && s[0] == items[0].from && s[1..1 + npay] == items[0].pay
    ensures s[1 + npay..] == FlatItems(items[1..]) + tail && ItemsSized(items[1..], npay)
  {
    CutItem(items[0].from, items[0].pay, FlatItems(items[1..]), tail, s);
  }

  lemma {:induction false} CutItem(from: int, pay: seq<int>, more: seq<int>, tail: seq<int>, s: seq<int>)
    requires s == [from] + pay + more + tail
    ensures |s| >= 1 + |pay| && s[0] == from && s[1..1 + |pay|] == pay && s[1 + |pay|..] == more + tail
  {
  }

  /** A flat array determines its records. */
  lemma {:induction false} ParseFlat(rs: seq<Record>, npay: nat)
    requires Sized(rs, npay)
    ensures Parse(Flat(rs), npay) == rs
  {
    if rs != [] {
      var s, x := Flat(rs), rs[0];
      RecordFirst(rs, npay);
      ParseItemsFlat(x.items, Flat(rs[1..]), npay);
      ParseFlat(rs[1..], npay);
      assert rs == [x] + rs[1..];
    }
  }

  lemma {:induction false} RecordFirst(rs: seq<Record>, npay: nat)
    requires rs != [] && Sized(rs, npay)
    ensures var s, x := Flat(rs), rs[0];
            && |s| >= 2 && s[0] == x.to && s[1] == |x.items| && s[2..] == FlatItems(x.items) + Flat(rs[1..])
            && s[2 + |FlatItems(x.items)|..] == Flat(rs[1..])
            && ItemsSized(x.items, npay) && Sized(rs[1..], npay)
  {
    var s, x := Flat(rs), rs[0];
    FlatFirst(rs);
    assert s == [x.to, |x.items|] + (FlatItems(x.items) + Flat(rs[1..]));
    assert s == ([x.to, |x.items|] + FlatItems(x.items)) + Flat(rs[1..]);
  }

  // ---------------------------------------------------------------- the plan on flat arrays

  type FlatNotifyPlan = Rounds.Plan<seq<int>, seq<int>>

  /** The same program on flat arrays. */
  ghost function FlatPlan(p: NotifyPlan, npay: nat): FlatNotifyPlan {
    Rounds.Plan(
      p.ranks, p.rounds, p.dests, p.tag, p.accepts, p.need,
      (t: nat, s: nat, data: seq<int>, d: nat) => Flat(p.message(t, s, Parse(data, npay), d)),
      (t: nat, r: nat, data: seq<int>) => Flat(p.keep(t, r, Parse(data, npay))),
      (t: nat, r: nat, acc: seq<int>, s: nat, m: seq<int>) =>
        Flat(p.merge(t, r, Parse(acc, npay), s, Parse(m, npay))))
  }

  /** The account of its runs: the flat arrays of the account on records. */
  ghost function FlatAt(pat: Pattern, ws: seq<nat>): (nat, nat) -> seq<int>
    requires Valid(pat) && Widths(ws)
  {
    (t: nat, r: nat) => Flat(At(pat, ws)(t, r))
  }

  ghost function FlatPart(pat: Pattern, ws: seq<nat>): (nat, nat, set<nat>) -> seq<int>
    requires Valid(pat) && Widths(ws)
  {
    (t: nat, r: nat, got: set<nat>) => Flat(Part(pat, ws)(t, r, got))
  }

  ghost function FlatInputs(pat: Pattern): seq<seq<int>>
    requires Valid(pat)
  {
    seq(pat.ranks, r requires 0 <= r < pat.ranks => Flat(InputRecords(pat.receivers[r], pat.payload[r], r)))
  }

  lemma {:induction false} ParseTable(pat: Pattern, sel: Choice)
    requires Valid(pat)
    ensures Parse(Flat(Table(pat, sel)), pat.npay) == Table(pat, sel)
  {
    TableOk(pat, sel);
    OkSized(Table(pat, sel), pat.npay);
    ParseFlat(Table(pat, sel), pat.npay);
  }

  lemma {:induction false} FlatMatched(p: NotifyPlan, npay: nat)
    requires Rounds.Matched(p)
    ensures Rounds.Matched(FlatPlan(p, npay))
  {
    var q := FlatPlan(p, npay);
    forall l: nat, s: nat, d: nat ensures Rounds.Link(q, l, s, d) <==> Rounds.Link(p, l, s, d) { }
    forall l: nat, r: nat ensures Rounds.Sources(q, l, r) == Rounds.Sources(p, l, r) { }
  }

  /** What a rank keeps and what it sends, as flat arrays. */
  lemma {:induction false} FlatKept(p: NotifyPlan, pat: Pattern, ws: seq<nat>, t: nat, r: nat)
    requires Valid(pat) && Widths(ws) && t <= |ws|
    ensures FlatPlan(p, pat.npay).keep(t, r, FlatAt(pat, ws)(t, r)) == Flat(p.keep(t, r, At(pat, ws)(t, r)))
    ensures forall d :: FlatPlan(p, pat.npay).message(t, r, FlatAt(pat, ws)(t, r), d)
                        == Flat(p.message(t, r, At(pat, ws)(t, r), d))
  {
    ParseTable(pat, HeldBy(pat.ranks, ws, t, r));
  }

  /** What a rank has after one more message. */
  lemma {:induction false} FlatMerged(p: NotifyPlan, pat: Pattern, ws: seq<nat>, t: nat, r: nat, got: set<nat>, s: nat)
    requires Valid(pat) && Widths(ws) && Geometry(p, pat, ws) && Splits(p, pat, ws) && t < |ws|
    requires s < pat.ranks && r in DestsAt(pat.ranks, ws, t, s)
    ensures var q, m := FlatPlan(p, pat.npay), p.message(t, s, At(pat, ws)(t, s), r);
            && q.message(t, s, FlatAt(pat, ws)(t, s), r) == Flat(m)
            && q.merge(t, r, FlatPart(pat, ws)(t, r, got), s, Flat(m))
               == Flat(p.merge(t, r, Part(pat, ws)(t, r, got), s, m))
  {
    FlatKept(p, pat, ws, t, s);
    ParseTable(pat, Collected(pat.ranks, ws, t, r, got));
    ParseTable(pat, Moved(pat.ranks, ws, t, s, r));
    assert p.message(t, s, At(pat, ws)(t, s), r) == Table(pat, Moved(pat.ranks, ws, t, s, r));
  }

  lemma {:induction false} FlatExplained(p: NotifyPlan, pat: Pattern, ws: seq<nat>)
    requires Valid(pat) && Widths(ws) && Geometry(p, pat, ws) && Splits(p, pat, ws)
    ensures Rounds.Explains(FlatPlan(p, pat.npay), FlatAt(pat, ws), FlatPart(pat, ws))
  {
    var q, at, part := FlatPlan(p, pat.npay), FlatAt(pat, ws), FlatPart(pat, ws);
    PlanExplained(p, pat, ws);
    forall l: nat, r: nat ensures Rounds.Sources(q, l, r) == Rounds.Sources(p, l, r) { }
    forall t: nat, r: nat | t < q.rounds && r < q.ranks
      ensures part(t, r, {}) == q.keep(t, r, at(t, r))
      ensures part(t, r, Rounds.Sources(q, t, r)) == at(t + 1, r)
    {
      FlatKept(p, pat, ws, t, r);
    }
    forall t: nat, r: nat, got: set<nat>, s: nat |
      t < q.rounds && r < q.ranks && s in Rounds.Sources(q, t, r) - got && got <= Rounds.Sources(q, t, r)
      ensures q.merge(t, r, part(t, r, got), s, q.message(t, s, at(t, s), r)) == part(t, r, got + {s})
    {
      assert s in Rounds.Sources(p, t, r) && p.dests(t, s) == DestsAt(pat.ranks, ws, t, s);
      FlatMerged(p, pat, ws, t, r, got, s);
    }
  }

  /** When all ranks are through, each has the flat array of its senders and no message is left. */
  ghost predicate FlatDelivered(pat: Pattern, st: Rounds.State<seq<int>, seq<int>>)
    requires Valid(pat)
  {
    && |st.local| == pat.ranks
    && (forall k: Rounds.Key :: Rounds.Queue(st.net, k) == [])
    && (forall r: nat :: r < pat.ranks ==> st.local[r].start == Flat(Result(pat, r)))
  }

  lemma {:induction false} FlatStarts(p: NotifyPlan, pat: Pattern, ws: seq<nat>)
    requires Valid(pat) && Widths(ws) && p.ranks == pat.ranks
    ensures Rounds.StartsWith(FlatPlan(p, pat.npay), FlatAt(pat, ws), FlatInputs(pat))
  {
    forall r: nat | r < p.ranks ensures FlatInputs(pat)[r] == FlatAt(pat, ws)(0, r) { Start(pat, ws, r); }
  }

  /** Every run on flat arrays is finite, goes on until all are through, and has then delivered. */
  lemma {:induction false} EveryFlatRun(p: NotifyPlan, pat: Pattern, ws: seq<nat>,
          run: seq<Rounds.State<seq<int>, seq<int>>>, i: nat)
    requires Valid(pat) && Widths(ws) && Geometry(p, pat, ws) && Splits(p, pat, ws) && Len(ws, |ws|) >= pat.ranks
    requires Rounds.IsRun(FlatPlan(p, pat.npay), FlatInputs(pat), run) && i < |run|
    ensures |run| <= 1 + pat.ranks * (|ws| * (2 * pat.ranks + 1))
    ensures Rounds.Done(FlatPlan(p, pat.npay), run[i]) || Rounds.CanMove(FlatPlan(p, pat.npay), run[i])
    ensures !Rounds.CanMove(FlatPlan(p, pat.npay), run[i]) || Rounds.Done(FlatPlan(p, pat.npay), run[i]) ==>
              FlatDelivered(pat, run[i])
  {
    PlanMatched(p, pat, ws);
    FlatMatched(p, pat.npay);
    FlatExplained(p, pat, ws);
    FlatStarts(p, pat, ws);
    FlatBounded(FlatPlan(p, pat.npay), pat, ws, run);
    FlatRun(FlatPlan(p, pat.npay), pat, ws, run, i);
  }

  ghost predicate FlatComputes(q: FlatNotifyPlan, pat: Pattern, ws: seq<nat>)
    requires Valid(pat) && Widths(ws)
  {
    && Rounds.Matched(q)
    && Rounds.Explains(q, FlatAt(pat, ws), FlatPart(pat, ws))
    && Rounds.StartsWith(q, FlatAt(pat, ws), FlatInputs(pat))
    && q.ranks == pat.ranks && q.rounds == |ws| && Len(ws, |ws|) >= pat.ranks
  }

  lemma {:induction false} FlatBounded(q: FlatNotifyPlan, pat: Pattern, ws: seq<nat>,
          run: seq<Rounds.State<seq<int>, seq<int>>>)
    requires Valid(pat) && Widths(ws) && FlatComputes(q, pat, ws) && Rounds.IsRun(q, FlatInputs(pat), run)
    ensures |run| <= 1 + pat.ranks * (|ws| * (2 * pat.ranks + 1))
  {
    Rounds.RunBounded(q, FlatAt(pat, ws), FlatPart(pat, ws), FlatInputs(pat), run);
  }

  lemma {:induction false} FlatRun(q: FlatNotifyPlan, pat: Pattern, ws: seq<nat>,
          run: seq<Rounds.State<seq<int>, seq<int>>>, i: nat)
    requires Valid(pat) && Widths(ws) && FlatComputes(q, pat, ws) && Rounds.IsRun(q, FlatInputs(pat), run) && i < |run|
    ensures Rounds.Done(q, run[i]) || Rounds.CanMove(q, run[i])
    ensures !Rounds.CanMove(q, run[i]) || Rounds.Done(q, run[i]) ==> FlatDelivered(pat, run[i])
  {
    Rounds.RunInv(q, FlatAt(pat, ws), FlatPart(pat, ws), FlatInputs(pat), run, i);
    if Rounds.Done(q, run[i]) {
      FlatDone(q, pat, ws, run[i]);
    } else {
      Rounds.Progress(q, FlatAt(pat, ws), FlatPart(pat, ws), run[i]);
    }
  }

  lemma {:induction false} FlatDone(q: FlatNotifyPlan, pat: Pattern, ws: seq<nat>, st: Rounds.State<seq<int>, seq<int>>)
    requires Valid(pat) && Widths(ws) && q.ranks == pat.ranks && q.rounds == |ws| && Len(ws, |ws|) >= pat.ranks
    requires Rounds.Matched(q) && Rounds.Inv(q, FlatAt(pat, ws), FlatPart(pat, ws), st) && Rounds.Done(q, st)
    ensures FlatDelivered(pat, st)
  {
    Rounds.DoneMeans(q, FlatAt(pat, ws), FlatPart(pat, ws), st);
    forall r: nat | r < pat.ranks ensures st.local[r].start == Flat(Result(pat, r)) { Finish(pat, ws, r); }
  }

  // ---------------------------------------------------------------- both recursions

  /** sc_notify_payload_nary on its flat arrays. */
  lemma {:induction false} NaryFlatRuns(pat: Pattern, depth: nat, ntop: nat, nint: nat, nbot: nat,
          run: seq<Rounds.State<seq<int>, seq<int>>>, i: nat)
    requires Valid(pat) && depth > 0 && ntop > 0 && nint > 0 && nbot > 0
    requires Padded(depth, ntop, nint, nbot) >= pat.ranks && i < |run|
    requires var ws := TreeWidths(depth, ntop, nint, nbot);
             Rounds.IsRun(FlatPlan(NaryPlan(pat.ranks, ws), pat.npay), FlatInputs(pat), run)
    ensures var q := FlatPlan(NaryPlan(pat.ranks, TreeWidths(depth, ntop, nint, nbot)), pat.npay);
            && |run| <= 1 + pat.ranks * (depth * (2 * pat.ranks + 1))
            && (!Rounds.CanMove(q, run[i]) || Rounds.Done(q, run[i]) ==> FlatDelivered(pat, run[i]))
  {
    var ws := TreeWidths(depth, ntop, nint, nbot);
    NarySplits(pat, ws);
    EveryFlatRun(NaryPlan(pat.ranks, ws), pat, ws, run, i);
  }

  /** sc_notify on its flat arrays. */
  lemma {:induction false} BinaryFlatRuns(pat: Pattern, run: seq<Rounds.State<seq<int>, seq<int>>>, i: nat)
    requires Valid(pat) && pat.ranks > 0 && i < |run|
    requires Rounds.IsRun(FlatPlan(BinaryPlan(pat.ranks), pat.npay), FlatInputs(pat), run)
    ensures var q := FlatPlan(BinaryPlan(pat.ranks), pat.npay);
            && |run| <= 1 + pat.ranks * (Levels(pat.ranks) * (2 * pat.ranks + 1))
            && (!Rounds.CanMove(q, run[i]) || Rounds.Done(q, run[i]) ==> FlatDelivered(pat, run[i]))
  {
    var ws := Twos(Levels(pat.ranks));
    RoundUp(pat.ranks);
    LenTwos(|ws|, |ws|);
    BinaryGeometry(pat);
    BinarySplits(pat);
    EveryFlatRun(BinaryPlan(pat.ranks), pat, ws, run, i);
  }

  /** The messages of the flat plans are what the send buffers of a level hold. */
  lemma {:induction false} NarySends(pat: Pattern, ws: seq<nat>, t: nat, s: nat, d: nat)
    requires Valid(pat) && Widths(ws) && t < |ws|
    ensures FlatPlan(NaryPlan(pat.ranks, ws), pat.npay).message(t, s, FlatAt(pat, ws)(t, s), d)
            == Flat(L.NaryMessage(pat, ws, t, s, d))
  {
    FlatKept(NaryPlan(pat.ranks, ws), pat, ws, t, s);
  }

  lemma {:induction false} BinarySends(pat: Pattern, t: nat, s: nat, d: nat)
    requires Valid(pat) && pat.ranks > 0 && t < Levels(pat.ranks)
    ensures FlatPlan(BinaryPlan(pat.ranks), pat.npay).message(t, s, FlatAt(pat, L.Halves(pat))(t, s), d)
            == Flat(Outgoing(t, s, L.BinaryAt(pat, t, s)))
  {
    FlatKept(BinaryPlan(pat.ranks), pat, L.Halves(pat), t, s);
  }
}
