/**
 The tree recursions of src/sc_notify.c as rounds of message passing.  Both the binary
 and the n-ary recursion are instances of what is proved here about any such plan.
 */
module Recursion {
  import opened Records
  import opened Pattern
  import opened Holders
  import opened NotifyArrays
  import Radix
  import Rounds

  type Data = seq<Record>
  type NotifyPlan = Rounds.Plan<Data, Data>

  // ---------------------------------------------------------------- choices of pairs

  /** The pairs that rank r holds when t levels are done. */
  ghost function HeldBy(P: nat, ws: seq<nat>, t: nat, r: int): Choice
    requires Widths(ws) && t <= |ws|
  {
    (to: int, from: int) => 0 <= to < P && 0 <= from < P && Holder(P, ws, t, from, to) == r
  }

  /** The pairs that level t moves from s to d. */
  ghost function Moved(P: nat, ws: seq<nat>, t: nat, s: int, d: int): Choice
    requires Widths(ws) && t < |ws|
  {
    (to: int, from: int) => 0 <= to < P && 0 <= from < P && Holder(P, ws, t, from, to) == s
      && Holder(P, ws, t + 1, from, to) == d
  }

  /** The pairs that r has at level t once it has heard from `got`. */
  ghost function Collected(P: nat, ws: seq<nat>, t: nat, r: int, got: set<nat>): Choice
    requires Widths(ws) && t < |ws|
  {
    (to: int, from: int) => 0 <= to < P && 0 <= from < P
      && (Holder(P, ws, t, from, to) == r || Holder(P, ws, t, from, to) in got) && Holder(P, ws, t + 1, from, to) == r
  }

  ghost function At(pat: Pattern, ws: seq<nat>): (nat, nat) -> Data
    requires Valid(pat) && Widths(ws)
  {
    (t: nat, r: nat) => if t <= |ws| then Table(pat, HeldBy(pat.ranks, ws, t, r)) else []
  }

  ghost function Part(pat: Pattern, ws: seq<nat>): (nat, nat, set<nat>) -> Data
    requires Valid(pat) && Widths(ws)
  {
    (t: nat, r: nat, got: set<nat>) => if t < |ws| then Table(pat, Collected(pat.ranks, ws, t, r, got)) else []
  }

  // ---------------------------------------------------------------- plans of this kind

  ghost predicate Geometry(p: NotifyPlan, pat: Pattern, ws: seq<nat>)
    requires Widths(ws)
  {
    && p.ranks == pat.ranks && p.rounds == |ws|
    && (forall t: nat, r: nat :: t < |ws| && r < pat.ranks ==> p.dests(t, r) == DestsAt(pat.ranks, ws, t, r))
    && (forall t: nat, r: nat :: t < |ws| && r < pat.ranks ==> p.need(t, r) == NeedAt(pat.ranks, ws, t, r))
    && (forall t: nat, m: nat, s: nat, d: nat :: t < |ws| && m < |ws| ==>
          (p.accepts(t, d, s, p.tag(m, s, d)) <==> t == m))
  }

  ghost predicate Splits(p: NotifyPlan, pat: Pattern, ws: seq<nat>)
    requires Valid(pat) && Widths(ws)
  {
    && (forall t: nat, r: nat :: t < |ws| && r < pat.ranks ==>
          p.keep(t, r, At(pat, ws)(t, r)) == Table(pat, Moved(pat.ranks, ws, t, r, r)))
    && (forall t: nat, s: nat, d: nat :: t < |ws| && s < pat.ranks && d in DestsAt(pat.ranks, ws, t, s) ==>
          p.message(t, s, At(pat, ws)(t, s), d) == Table(pat, Moved(pat.ranks, ws, t, s, d)))
    && (forall t: nat, r: nat, acc: Data, s: nat, m: Data :: p.merge(t, r, acc, s, m) == MergeRecs(acc, m))
  }

  lemma {:induction false} SourcesAre(p: NotifyPlan, pat: Pattern, ws: seq<nat>, t: nat, r: nat)
    requires Widths(ws) && Geometry(p, pat, ws) && t < |ws|
    ensures Len(ws, t) > 0 && Rounds.Sources(p, t, r) == Radix.Sources(pat.ranks, Len(ws, t), ws[t], r)
  {
    LenPositive(ws, t);
    forall s: nat | s < pat.ranks ensures r in p.dests(t, s) <==> r in Radix.Dests(pat.ranks, Len(ws, t), ws[t], s) {
      assert p.dests(t, s) == DestsAt(pat.ranks, ws, t, s);
    }
  }

  /** Sends and receives of every level match one to one, and levels do not mix. */
  lemma {:induction false} PlanMatched(p: NotifyPlan, pat: Pattern, ws: seq<nat>)
    requires Widths(ws) && Geometry(p, pat, ws)
    ensures Rounds.Matched(p)
  {
    forall l: nat, s: nat, d: nat | Rounds.Link(p, l, s, d) ensures d < p.ranks {
      LenPositive(ws, l);
      assert p.dests(l, s) == DestsAt(pat.ranks, ws, l, s);
      DestsExist(pat.ranks, Len(ws, l), ws[l], s, d);
    }
    forall l: nat, r: nat | l < p.rounds && r < p.ranks ensures p.need(l, r) == |Rounds.Sources(p, l, r)| {
      SourcesAre(p, pat, ws, l, r);
      ExpectedCount(pat.ranks, Len(ws, l), ws[l], r);
      assert p.need(l, r) == NeedAt(pat.ranks, ws, l, r);
    }
  }

  lemma {:induction false} HopIs(P: nat, ws: seq<nat>, t: nat, from: nat, to: nat)
    requires Widths(ws) && t < |ws| && from < P && to < P
    ensures var h, g := Holder(P, ws, t, from, to), Holder(P, ws, t + 1, from, to);
            && g == Hop(P, ws, t, h, to)
            && (g == h || (h < P && g in DestsAt(P, ws, t, h)))
  {
    LenPositive(ws, t);
    Radix.RouteAdvances(P, Len(ws, t), ws[t], Holder(P, ws, t, from, to), to);
  }

  lemma {:induction false} LastPart(p: NotifyPlan, pat: Pattern, ws: seq<nat>, t: nat, r: nat)
    requires Valid(pat) && Widths(ws) && Geometry(p, pat, ws) && t < |ws| && r < pat.ranks
    ensures Part(pat, ws)(t, r, Rounds.Sources(p, t, r)) == At(pat, ws)(t + 1, r)
  {
    var P, got := pat.ranks, Rounds.Sources(p, t, r);
    forall to, from | Wants(pat, to, from)
      ensures Collected(P, ws, t, r, got)(to, from) <==> HeldBy(P, ws, t + 1, r)(to, from)
    {
      WantsBounds(pat, to, from);
      HopIs(P, ws, t, from, to);
      var h := Holder(P, ws, t, from, to);
      assert p.dests(t, h) == DestsAt(P, ws, t, h);
    }
    SameTable(pat, Collected(P, ws, t, r, got), HeldBy(P, ws, t + 1, r));
  }

  lemma {:induction false} NextPart(pat: Pattern, ws: seq<nat>, t: nat, r: nat, got: set<nat>, s: nat)
    requires Valid(pat) && Widths(ws) && t < |ws| && s !in got && s != r
    ensures MergeRecs(Part(pat, ws)(t, r, got), Table(pat, Moved(pat.ranks, ws, t, s, r)))
            == Part(pat, ws)(t, r, got + {s})
  {
    var P := pat.ranks;
    MergeTables(pat, Collected(P, ws, t, r, got), Moved(P, ws, t, s, r), Collected(P, ws, t, r, got + {s}));
  }

  lemma {:induction false} PlanExplained(p: NotifyPlan, pat: Pattern, ws: seq<nat>)
    requires Valid(pat) && Widths(ws) && Geometry(p, pat, ws) && Splits(p, pat, ws)
    ensures Rounds.Explains(p, At(pat, ws), Part(pat, ws))
  {
    var P, at, part := pat.ranks, At(pat, ws), Part(pat, ws);
    forall t: nat, r: nat | t < p.rounds && r < p.ranks
      ensures part(t, r, {}) == p.keep(t, r, at(t, r))
      ensures part(t, r, Rounds.Sources(p, t, r)) == at(t + 1, r)
    {
      SameTable(pat, Collected(P, ws, t, r, {}), Moved(P, ws, t, r, r));
      LastPart(p, pat, ws, t, r);
    }
    forall t: nat, r: nat, got: set<nat>, s: nat |
      t < p.rounds && r < p.ranks && s in Rounds.Sources(p, t, r) - got && got <= Rounds.Sources(p, t, r)
      ensures p.merge(t, r, part(t, r, got), s, p.message(t, s, at(t, s), r)) == part(t, r, got + {s})
    {
      LenPositive(ws, t);
      assert p.dests(t, s) == DestsAt(P, ws, t, s);
      DestsExist(P, Len(ws, t), ws[t], s, r);
      NextPart(pat, ws, t, r, got, s);
      assert p.message(t, s, at(t, s), r) == Table(pat, Moved(P, ws, t, s, r));
    }
  }

  // ---------------------------------------------------------------- the beginning

  ghost function InputFrom(pat: Pattern, r: nat, lo: nat): Data
    requires Valid(pat) && r < pat.ranks && lo <= |pat.receivers[r]|
  {
    InputRecords(pat.receivers[r], pat.payload[r], r)[lo..]
  }

  /** The pairs from sender r to `targets`, with their payload. */
  ghost predicate SendsAll(pat: Pattern, r: nat, targets: seq<int>, m: Content)
    requires Valid(pat)
  {
    && (forall k :: k in m <==> k.0 >= 0 && k.1 == r && k.0 in targets)
    && (forall k :: k in m && Wants(pat, k.0, k.1) ==> m[k] == Pay(pat, k.0, k.1))
  }

  lemma {:induction false} SendsMore(pat: Pattern, r: nat, to: nat, targets: seq<int>, all: seq<int>, m: Content,
          now: Content)
    requires Valid(pat) && SendsAll(pat, r, targets, m) && Wants(pat, to, r) && all == [to] + targets
    requires now == m + map[(to as int, r as int) := Pay(pat, to, r)]
    ensures SendsAll(pat, r, all, now)
  {
    forall k ensures k in now <==> k.0 >= 0 && k.1 == r && k.0 in all {
      assert k == (k.0, k.1);
    }
  }

  lemma {:induction false} InputStep(pat: Pattern, r: nat, lo: nat, receivers: seq<int>, rest: Data, all: Data)
    requires Valid(pat) && r < pat.ranks && receivers == pat.receivers[r] && lo < |receivers|
    requires all == [Record(receivers[lo], [Item(r, pat.payload[r][lo])])] + rest
    requires Ok(rest, pat.npay) && SendsAll(pat, r, receivers[lo + 1..], Pairs(rest))
    ensures Ok(all, pat.npay) && SendsAll(pat, r, receivers[lo..], Pairs(all))
  {
    PayIs(pat, r, lo);
    var x := Record(receivers[lo], [Item(r, pat.payload[r][lo])]);
    assert receivers[lo..] == [receivers[lo]] + receivers[lo + 1..];
    OneItem(x.to, x.items[0]);
    PrependRecord(x, rest, pat.npay);
    SendsMore(pat, r, x.to, receivers[lo + 1..], receivers[lo..], Pairs(rest), Pairs(all));
  }

  lemma {:induction false} NoInput(pat: Pattern, r: nat, targets: seq<int>, all: Data)
    requires Valid(pat) && targets == [] && all == []
    ensures Ok(all, pat.npay) && SendsAll(pat, r, targets, Pairs(all))
  {
  }

  lemma {:induction false} InputCons(pat: Pattern, r: nat, lo: nat)
    requires Valid(pat) && r < pat.ranks && lo < |pat.receivers[r]|
    ensures InputFrom(pat, r, lo)
            == [Record(pat.receivers[r][lo], [Item(r, pat.payload[r][lo])])] + InputFrom(pat, r, lo + 1)
  {
    var all := InputRecords(pat.receivers[r], pat.payload[r], r);
    assert all[lo..] == [all[lo]] + all[lo + 1..];
  }

  lemma {:induction false} InputHolds(pat: Pattern, r: nat, lo: nat)
    requires Valid(pat) && r < pat.ranks && lo <= |pat.receivers[r]|
    ensures Ok(InputFrom(pat, r, lo), pat.npay)
    ensures SendsAll(pat, r, pat.receivers[r][lo..], Pairs(InputFrom(pat, r, lo)))
    decreases |pat.receivers[r]| - lo
  {
    var receivers := pat.receivers[r];
    if lo < |receivers| {
      InputHolds(pat, r, lo + 1);
      var rest := InputFrom(pat, r, lo + 1);
      InputCons(pat, r, lo);
      InputStep(pat, r, lo, receivers, rest, InputFrom(pat, r, lo));
    } else {
      NoInput(pat, r, receivers[lo..], InputFrom(pat, r, lo));
    }
  }

  lemma {:induction false} OneItem(to: int, item: Item)
    ensures ItemContent(to, [item]) == map[(to, item.from) := item.pay]
  {
    assert [item][1..] == [];
  }

  /** Every rank starts with its own pairs. */
  lemma {:induction false} Start(pat: Pattern, ws: seq<nat>, r: nat)
    requires Valid(pat) && Widths(ws) && r < pat.ranks
    ensures InputRecords(pat.receivers[r], pat.payload[r], r) == At(pat, ws)(0, r)
  {
    var rs := InputFrom(pat, r, 0);
    var sel := HeldBy(pat.ranks, ws, 0, r);
    InputHolds(pat, r, 0);
    assert pat.receivers[r][0..] == pat.receivers[r];
    forall k ensures k in Pairs(rs) <==> 0 <= k.0 < pat.ranks && Wants(pat, k.0, k.1) && sel(k.0, k.1) {
      if Wants(pat, k.0, k.1) { WantsBounds(pat, k.0, k.1); }
    }
    TableUnique(pat, rs, sel);
  }

  // ---------------------------------------------------------------- what it computes

  ghost function Everything(): Choice {
    (to: int, from: int) => true
  }

  /** The record array of rank r at the end: one record that lists its senders, or nothing. */
  ghost function Result(pat: Pattern, r: nat): Data
    requires Valid(pat)
  {
    var row := Row(pat, r, 0, Everything());
    if row == [] then [] else [Record(r, row)]
  }

  lemma {:induction false} RowIsSenders(pat: Pattern, r: nat, lo: nat)
    requires Valid(pat) && r < pat.ranks
    ensures var row, senders := Row(pat, r, lo, Everything()), Senders(pat, r, lo);
            && |row| == |senders|
            && forall i :: 0 <= i < |row| ==>
                  Wants(pat, r, senders[i]) && row[i] == Item(senders[i], Pay(pat, r, senders[i]))
    decreases pat.ranks - lo
  {
    if lo < pat.ranks { RowIsSenders(pat, r, lo + 1); }
  }

  lemma {:induction false} ResultHolds(pat: Pattern, r: nat)
    requires Valid(pat) && r < pat.ranks
    ensures Ok(Result(pat, r), pat.npay)
    ensures forall k :: k in Pairs(Result(pat, r)) <==> k.0 == r && Wants(pat, r, k.1)
    ensures forall k :: k in Pairs(Result(pat, r)) && Wants(pat, k.0, k.1) ==>
              Pairs(Result(pat, r))[k] == Pay(pat, k.0, k.1)
  {
    var row := Row(pat, r, 0, Everything());
    RowOk(pat, r, 0, Everything());
    OneRecord(r, row, Result(pat, r), pat.npay);
    RowOfAll(pat, r, Pairs(Result(pat, r)));
  }

  lemma {:induction false} OneRecord(r: nat, row: seq<Item>, rs: Data, npay: nat)
    requires ItemsOk(row, npay) && rs == if row == [] then [] else [Record(r, row)]
    ensures Ok(rs, npay) && Pairs(rs) == ItemContent(r, row)
  {
    if row != [] {
      PrependRecord(Record(r, row), [], npay);
      assert [Record(r, row)] + [] == rs;
    }
  }

  lemma {:induction false} RowOfAll(pat: Pattern, r: nat, m: Content)
    requires Valid(pat) && RowHas(pat, r, 0, Everything(), m)
    ensures forall k :: k in m <==> k.0 == r && Wants(pat, r, k.1)
    ensures forall k :: k in m && Wants(pat, k.0, k.1) ==> m[k] == Pay(pat, k.0, k.1)
  {
  }

  lemma {:induction false} Finish(pat: Pattern, ws: seq<nat>, r: nat)
    requires Valid(pat) && Widths(ws) && r < pat.ranks && Len(ws, |ws|) >= pat.ranks
    ensures At(pat, ws)(|ws|, r) == Result(pat, r)
  {
    var sel := HeldBy(pat.ranks, ws, |ws|, r);
    ResultHolds(pat, r);
    forall k ensures k in Pairs(Result(pat, r)) <==> 0 <= k.0 < pat.ranks && Wants(pat, k.0, k.1) && sel(k.0, k.1) {
      if Wants(pat, k.0, k.1) {
        WantsBounds(pat, k.0, k.1);
        Arrived(pat.ranks, ws, k.1, k.0);
      }
    }
    TableUnique(pat, Result(pat, r), sel);
  }

  ghost function Inputs(pat: Pattern): seq<Data>
    requires Valid(pat)
  {
    seq(pat.ranks, r requires 0 <= r < pat.ranks => InputRecords(pat.receivers[r], pat.payload[r], r))
  }

  lemma {:induction false} Starts(p: NotifyPlan, pat: Pattern, ws: seq<nat>)
    requires Valid(pat) && Widths(ws) && p.ranks == pat.ranks
    ensures Rounds.StartsWith(p, At(pat, ws), Inputs(pat))
  {
    forall r: nat | r < p.ranks ensures Inputs(pat)[r] == At(pat, ws)(0, r) { Start(pat, ws, r); }
  }

  /** Such a plan computes the pattern: see EveryRun. */
  ghost predicate Computes(p: NotifyPlan, pat: Pattern, ws: seq<nat>)
    requires Valid(pat) && Widths(ws)
  {
    && Rounds.Matched(p)
    && Rounds.Explains(p, At(pat, ws), Part(pat, ws))
    && Rounds.StartsWith(p, At(pat, ws), Inputs(pat))
    && p.ranks == pat.ranks && p.rounds == |ws| && Len(ws, |ws|) >= pat.ranks
  }

  lemma {:induction false} PlanComputes(p: NotifyPlan, pat: Pattern, ws: seq<nat>)
    requires Valid(pat) && Widths(ws) && Geometry(p, pat, ws) && Splits(p, pat, ws) && Len(ws, |ws|) >= pat.ranks
    ensures Computes(p, pat, ws)
  {
    PlanMatched(p, pat, ws);
    PlanExplained(p, pat, ws);
    Starts(p, pat, ws);
  }

  /** When all ranks are through, each has the list of its senders and no message is left. */
  ghost predicate Delivered(pat: Pattern, st: Rounds.State<Data, Data>)
    requires Valid(pat)
  {
    && |st.local| == pat.ranks
    && (forall k: Rounds.Key :: Rounds.Queue(st.net, k) == [])
    && (forall r: nat :: r < pat.ranks ==> st.local[r].start == Result(pat, r))
  }

  lemma {:induction false} DoneDelivers(p: NotifyPlan, pat: Pattern, ws: seq<nat>, st: Rounds.State<Data, Data>)
    requires Valid(pat) && Widths(ws) && Rounds.Matched(p) && p.ranks == pat.ranks && p.rounds == |ws|
    requires Rounds.Inv(p, At(pat, ws), Part(pat, ws), st) && Rounds.Done(p, st) && Len(ws, |ws|) >= pat.ranks
    ensures Delivered(pat, st)
  {
    Rounds.DoneMeans(p, At(pat, ws), Part(pat, ws), st);
    forall r: nat | r < pat.ranks ensures st.local[r].start == Result(pat, r) { Finish(pat, ws, r); }
  }

  lemma {:induction false} Bounded(p: NotifyPlan, pat: Pattern, ws: seq<nat>, run: seq<Rounds.State<Data, Data>>)
    requires Valid(pat) && Widths(ws) && Computes(p, pat, ws) && Rounds.IsRun(p, Inputs(pat), run)
    ensures |run| <= 1 + pat.ranks * (|ws| * (2 * pat.ranks + 1))
  {
    Rounds.RunBounded(p, At(pat, ws), Part(pat, ws), Inputs(pat), run);
  }

  /**
   Every run, whatever the order in which messages are sent, arrive and are received:
   it is finite, some rank is ready until all are through, and then the lists are delivered;
   a run that cannot go on has delivered them.
   */
  lemma {:induction false} EveryRun(p: NotifyPlan, pat: Pattern, ws: seq<nat>, run: seq<Rounds.State<Data, Data>>,
          i: nat)
    requires Valid(pat) && Widths(ws) && Computes(p, pat, ws)
    requires Rounds.IsRun(p, Inputs(pat), run) && i < |run|
    ensures |run| <= 1 + pat.ranks * (|ws| * (2 * pat.ranks + 1))
    ensures !Rounds.Done(p, run[i]) ==> exists r: nat :: r < |run[i].local| && Rounds.Ready(p, run[i], r)
    ensures Rounds.Done(p, run[i]) ==> Delivered(pat, run[i])
    ensures !Rounds.CanMove(p, run[i]) ==> Delivered(pat, run[i])
  {
    Bounded(p, pat, ws, run);
    Rounds.RunInv(p, At(pat, ws), Part(pat, ws), Inputs(pat), run, i);
    if Rounds.Done(p, run[i]) {
      DoneDelivers(p, pat, ws, run[i]);
    } else {
      Rounds.Progress(p, At(pat, ws), Part(pat, ws), run[i]);
    }
  }
}
