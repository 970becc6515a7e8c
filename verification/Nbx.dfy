/**
 The non-blocking consensus variant, sc_notify_payload_nbx, as a state machine over its
 MPI calls.  A synchronous send completes only once its message is being received
 (section 3.4 of MPI 3.1); a barrier completes only once all ranks have entered it
 (section 5.12.1).  Tests and probes may fail for as long as the system likes.
 */
module Nbx {
  import opened Pattern

  datatype Heard = Heard(from: nat, pay: seq<int>)

  /** posted: sends issued so far; heard: what was received, in order; barr and done as in the loop. */
  datatype Rank = Rank(posted: nat, heard: seq<Heard>, barr: bool, done: bool)

  type Net = map<(nat, nat), seq<seq<int>>>      // (source, destination) to messages in order

  datatype State = State(rank: seq<Rank>, net: Net)

  function Queue(net: Net, from: nat, to: nat): seq<seq<int>> {
    if (from, to) in net then net[(from, to)] else []
  }

  ghost function Initial(pat: Pattern): State {
    State(seq(pat.ranks, _ => Rank(0, [], false, false)), map[])
  }

  // ---------------------------------------------------------------- transitions

  /** MPI_Issend to the next receiver. */
  ghost predicate Post(pat: Pattern, a: State, b: State, r: nat)
    requires Valid(pat) && |a.rank| == pat.ranks
  {
    && r < pat.ranks
    && var me := a.rank[r];
    && me.posted < |pat.receivers[r]|
    && var d := pat.receivers[r][me.posted];
    && b.rank == a.rank[r := me.(posted := me.posted + 1)]
    && b.net == a.net[(r, d) := Queue(a.net, r, d) + [pat.payload[r][me.posted]]]
  }

  /** MPI_Iprobe finds a message from q, and MPI_Recv takes it. */
  ghost predicate Receive(pat: Pattern, a: State, b: State, r: nat, q: nat)
    requires Valid(pat) && |a.rank| == pat.ranks
  {
    && r < pat.ranks
    && var me := a.rank[r];
    && me.posted == |pat.receivers[r]| && !me.done
    && Queue(a.net, q, r) != []
    && b.rank == a.rank[r := me.(heard := me.heard + [Heard(q, Queue(a.net, q, r)[0])])]
    && b.net == a.net[(q, r) := Queue(a.net, q, r)[1..]]
  }

  /** MPI_Testall sees all own sends matched, and MPI_Ibarrier is entered. */
  ghost predicate EnterBarrier(pat: Pattern, a: State, b: State, r: nat)
    requires Valid(pat) && |a.rank| == pat.ranks
  {
    && r < pat.ranks
    && var me := a.rank[r];
    && me.posted == |pat.receivers[r]| && !me.barr
    && (forall i :: 0 <= i < |pat.receivers[r]| ==> Queue(a.net, r, pat.receivers[r][i]) == [])
    && b.rank == a.rank[r := me.(barr := true)]
    && b.net == a.net
  }

  /** MPI_Test sees the barrier complete, and the loop ends. */
  ghost predicate Leave(pat: Pattern, a: State, b: State, r: nat)
    requires Valid(pat) && |a.rank| == pat.ranks
  {
    && r < pat.ranks
    && var me := a.rank[r];
    && me.barr && !me.done
    && (forall q :: 0 <= q < pat.ranks ==> a.rank[q].barr)
    && b.rank == a.rank[r := me.(done := true)]
    && b.net == a.net
  }

  ghost predicate Next(pat: Pattern, a: State, b: State)
    requires Valid(pat) && |a.rank| == pat.ranks
  {
    || (exists r: nat :: Post(pat, a, b, r))
    || (exists r: nat, q: nat :: Receive(pat, a, b, r, q))
    || (exists r: nat :: EnterBarrier(pat, a, b, r))
    || (exists r: nat :: Leave(pat, a, b, r))
  }

  ghost predicate IsRun(pat: Pattern, run: seq<State>)
    requires Valid(pat)
  {
    && run != [] && run[0] == Initial(pat)
    && (forall i :: 0 <= i < |run| ==> |run[i].rank| == pat.ranks)
    && forall i :: 0 <= i < |run| - 1 ==> Next(pat, run[i], run[i + 1])
  }

  // ---------------------------------------------------------------- the invariant

  ghost predicate HeardFrom(me: Rank, q: nat) {
    exists i :: 0 <= i < |me.heard| && me.heard[i].from == q
  }

  ghost predicate RankOk(pat: Pattern, st: State, r: nat)
    requires Valid(pat) && |st.rank| == pat.ranks && r < pat.ranks
  {
    var me := st.rank[r];
    && me.posted <= |pat.receivers[r]|
    && (forall i, j :: 0 <= i < j < |me.heard| ==> me.heard[i].from != me.heard[j].from)
    && (forall i :: 0 <= i < |me.heard| ==>
          Wants(pat, r, me.heard[i].from) && me.heard[i].pay == Pay(pat, r, me.heard[i].from))
    && (me.barr ==> me.posted == |pat.receivers[r]|)
    && (me.done ==> me.barr && forall q :: 0 <= q < pat.ranks ==> st.rank[q].barr)
  }

  /** Message i of rank q: not sent yet, on its way, or received. */
  ghost predicate MessageOk(pat: Pattern, st: State, q: nat, i: nat)
    requires Valid(pat) && |st.rank| == pat.ranks && q < pat.ranks && i < |pat.receivers[q]|
  {
    var d := pat.receivers[q][i];
    && (i >= st.rank[q].posted ==> Queue(st.net, q, d) == [] && !HeardFrom(st.rank[d], q))
    && (i < st.rank[q].posted ==>
          Queue(st.net, q, d) == if HeardFrom(st.rank[d], q) then [] else [pat.payload[q][i]])
    && (st.rank[q].barr ==> HeardFrom(st.rank[d], q))
  }

  ghost predicate Inv(pat: Pattern, st: State)
    requires Valid(pat)
  {
    && |st.rank| == pat.ranks
    && (forall r: nat :: r < pat.ranks ==> RankOk(pat, st, r))
    && (forall q: nat, i: nat :: q < pat.ranks && i < |pat.receivers[q]| ==> MessageOk(pat, st, q, i))
    && (forall q: nat, d: nat :: Queue(st.net, q, d) != [] ==> Wants(pat, d, q))
  }

  lemma {:induction false} PostInv(pat: Pattern, a: State, b: State, r: nat)
    requires Valid(pat) && Inv(pat, a) && Post(pat, a, b, r)
    ensures Inv(pat, b)
  {
    var k := a.rank[r].posted;
    var d := pat.receivers[r][k];
    assert MessageOk(pat, a, r, k);
    forall x: nat | x < pat.ranks ensures RankOk(pat, b, x) { assert RankOk(pat, a, x); }
    forall q: nat, i: nat | q < pat.ranks && i < |pat.receivers[q]| ensures MessageOk(pat, b, q, i) {
      assert MessageOk(pat, a, q, i);
      assert b.rank[pat.receivers[q][i]].heard == a.rank[pat.receivers[q][i]].heard;
      assert HeardFrom(b.rank[pat.receivers[q][i]], q) <==> HeardFrom(a.rank[pat.receivers[q][i]], q);
      assert q == r && i != k ==> pat.receivers[q][i] != d;
    }
    assert Wants(pat, d, r);
  }

  /** A message found by the probe is wanted, carries its payload, and was not received before. */
  lemma {:induction false} Found(pat: Pattern, a: State, b: State, r: nat, q: nat) returns (i: nat)
    requires Valid(pat) && Inv(pat, a) && Receive(pat, a, b, r, q)
    ensures q < pat.ranks && i < |pat.receivers[q]| && pat.receivers[q][i] == r && i < a.rank[q].posted
    ensures Queue(a.net, q, r) == [Pay(pat, r, q)] && Wants(pat, r, q) && !HeardFrom(a.rank[r], q)
  {
    assert Wants(pat, r, q);
    i :| 0 <= i < |pat.receivers[q]| && pat.receivers[q][i] == r;
    PayIs(pat, q, i);
    assert MessageOk(pat, a, q, i);
  }

  lemma {:induction false} HeardGrows(a: Rank, b: Rank, q: nat, pay: seq<int>, x: nat)
    requires b.heard == a.heard + [Heard(q, pay)]
    ensures HeardFrom(b, x) <==> HeardFrom(a, x) || x == q
  {
    if x == q { assert b.heard[|a.heard|].from == q; }
    if HeardFrom(a, x) {
      var i :| 0 <= i < |a.heard| && a.heard[i].from == x;
      assert b.heard[i].from == x;
    }
  }

  lemma {:induction false} ReceiveInv(pat: Pattern, a: State, b: State, r: nat, q: nat)
    requires Valid(pat) && Inv(pat, a) && Receive(pat, a, b, r, q)
    ensures Inv(pat, b)
  {
    var k := Found(pat, a, b, r, q);
    assert RankOk(pat, a, r);
    forall x: nat | x < pat.ranks ensures RankOk(pat, b, x) { assert RankOk(pat, a, x); }
    forall p: nat, i: nat | p < pat.ranks && i < |pat.receivers[p]| ensures MessageOk(pat, b, p, i) {
      assert MessageOk(pat, a, p, i);
      var d := pat.receivers[p][i];
      if d == r { HeardGrows(a.rank[r], b.rank[r], q, Pay(pat, r, q), p); }
      assert p == q && i != k ==> d != r;
    }
    forall p: nat, d: nat | Queue(b.net, p, d) != [] ensures Wants(pat, d, p) { assert Queue(a.net, p, d) != []; }
  }

  lemma {:induction false} EnterInv(pat: Pattern, a: State, b: State, r: nat)
    requires Valid(pat) && Inv(pat, a) && EnterBarrier(pat, a, b, r)
    ensures Inv(pat, b)
  {
    forall x: nat | x < pat.ranks ensures RankOk(pat, b, x) { assert RankOk(pat, a, x); }
    forall q: nat, i: nat | q < pat.ranks && i < |pat.receivers[q]| ensures MessageOk(pat, b, q, i) {
      assert MessageOk(pat, a, q, i);
      assert HeardFrom(b.rank[pat.receivers[q][i]], q) <==> HeardFrom(a.rank[pat.receivers[q][i]], q);
    }
  }

  lemma {:induction false} LeaveInv(pat: Pattern, a: State, b: State, r: nat)
    requires Valid(pat) && Inv(pat, a) && Leave(pat, a, b, r)
    ensures Inv(pat, b)
  {
    forall x: nat | x < pat.ranks ensures RankOk(pat, b, x) { assert RankOk(pat, a, x); }
    forall q: nat, i: nat | q < pat.ranks && i < |pat.receivers[q]| ensures MessageOk(pat, b, q, i) {
      assert MessageOk(pat, a, q, i);
      assert HeardFrom(b.rank[pat.receivers[q][i]], q) <==> HeardFrom(a.rank[pat.receivers[q][i]], q);
    }
  }

  lemma {:induction false} RunInv(pat: Pattern, run: seq<State>, i: nat)
    requires Valid(pat) && IsRun(pat, run) && i < |run|
    ensures Inv(pat, run[i])
  {
    if i > 0 {
      RunInv(pat, run, i - 1);
      var a, b := run[i - 1], run[i - 1 + 1];
      assert Next(pat, a, b);
      if r: nat :| Post(pat, a, b, r) {
        PostInv(pat, a, b, r);
      } else if r: nat, q: nat :| Receive(pat, a, b, r, q) {
        ReceiveInv(pat, a, b, r, q);
      } else if r: nat :| EnterBarrier(pat, a, b, r) {
        EnterInv(pat, a, b, r);
      } else {
        var r: nat :| Leave(pat, a, b, r);
        LeaveInv(pat, a, b, r);
      }
    }
  }

  // ---------------------------------------------------------------- the result

  lemma {:induction false} SortedUnique(a: seq<int>, b: seq<int>)
    requires forall i, j :: 0 <= i < j < |a| ==> a[i] < a[j]
    requires forall i, j :: 0 <= i < j < |b| ==> b[i] < b[j]
    requires forall x :: x in a <==> x in b
    ensures a == b
  {
    assert a != [] ==> a[0] in a;
    assert b != [] ==> b[0] in b;
    if a != [] {
      assert b != [];
      assert a[0] == b[0];
      forall x ensures x in a[1..] <==> x in b[1..] {
        if x in a[1..] { assert x in b && x != a[0]; }
        if x in b[1..] { assert x in a && x != b[0]; }
      }
      SortedUnique(a[1..], b[1..]);
    }
  }

  /**
   A rank that has left its loop has received every message addressed to it, each once:
   what it heard, sorted by origin, is the list of its senders with their payloads.
   */
  lemma {:induction false} LoopLeftComplete(pat: Pattern, run: seq<State>, i: nat, r: nat, sorted: seq<Heard>)
    requires Valid(pat) && IsRun(pat, run) && i < |run| && r < pat.ranks && run[i].rank[r].done
    requires multiset(sorted) == multiset(run[i].rank[r].heard)
    requires forall x, y :: 0 <= x < y < |sorted| ==> sorted[x].from <= sorted[y].from
    ensures forall q: nat :: Queue(run[i].net, q, r) == []
    ensures |sorted| == |Senders(pat, r, 0)|
    ensures forall x :: 0 <= x < |sorted| ==>
      Wants(pat, r, Senders(pat, r, 0)[x]) && sorted[x].from == Senders(pat, r, 0)[x]
        && sorted[x].pay == Pay(pat, r, Senders(pat, r, 0)[x])
  {
    var st := run[i];
    var me := st.rank[r];
    RunInv(pat, run, i);
    assert RankOk(pat, st, r);
    forall q: nat | Wants(pat, r, q) ensures HeardFrom(me, q) && Queue(st.net, q, r) == [] {
      var k :| 0 <= k < |pat.receivers[q]| && pat.receivers[q][k] == r;
      assert MessageOk(pat, st, q, k);
      assert RankOk(pat, st, q);
    }
    SortedHeard(me.heard, sorted);
    var from := seq(|sorted|, x requires 0 <= x < |sorted| => sorted[x].from as int);
    SendersSpec(pat, r, 0);
    SameSenders(pat, me, r, sorted, from);
    SortedUnique(from, Senders(pat, r, 0));
    forall x | 0 <= x < |sorted| ensures sorted[x] in me.heard {}
  }

  /** Who was heard is who wants to send. */
  lemma {:induction false} SameSenders(pat: Pattern, me: Rank, r: nat, sorted: seq<Heard>, from: seq<int>)
    requires Valid(pat) && forall i :: 0 <= i < |me.heard| ==> Wants(pat, r, me.heard[i].from)
    requires forall q: nat :: Wants(pat, r, q) ==> HeardFrom(me, q)
    requires |from| == |sorted| && forall x :: 0 <= x < |sorted| ==> from[x] == sorted[x].from && sorted[x] in me.heard
    requires forall x :: 0 <= x < |me.heard| ==> me.heard[x] in sorted
    ensures forall q :: q in from <==> q in Senders(pat, r, 0)
  {
    SendersSpec(pat, r, 0);
    forall q ensures q in from <==> q in Senders(pat, r, 0) {
      if q in from {
        var x :| 0 <= x < |from| && from[x] == q;
        assert sorted[x] in me.heard;
      }
      if q in Senders(pat, r, 0) {
        WantsBounds(pat, r, q);
        assert HeardFrom(me, q);
        var k :| 0 <= k < |me.heard| && me.heard[k].from == q;
        assert me.heard[k] in sorted;
        var x :| 0 <= x < |sorted| && sorted[x] == me.heard[k];
        assert from[x] == q;
      }
    }
  }

  lemma {:induction false} SortedHeard(heard: seq<Heard>, sorted: seq<Heard>)
    requires multiset(sorted) == multiset(heard)
    requires forall i, j :: 0 <= i < j < |heard| ==> heard[i].from != heard[j].from
    requires forall x, y :: 0 <= x < y < |sorted| ==> sorted[x].from <= sorted[y].from
    ensures |sorted| == |heard|
    ensures forall x :: 0 <= x < |sorted| ==> sorted[x] in heard
    ensures forall x :: 0 <= x < |heard| ==> heard[x] in sorted
    ensures forall x, y :: 0 <= x < y < |sorted| ==> sorted[x].from < sorted[y].from
  {
    forall x | 0 <= x < |sorted| ensures sorted[x] in heard { assert sorted[x] in multiset(sorted); }
    forall x | 0 <= x < |heard| ensures heard[x] in sorted { assert heard[x] in multiset(heard); }
    assert |multiset(sorted)| == |multiset(heard)|;
    forall x, y | 0 <= x < y < |sorted| ensures sorted[x].from < sorted[y].from {
      if sorted[x].from == sorted[y].from {
        assert sorted[x] in heard && sorted[y] in heard;
        assert sorted[x] == sorted[y];
        Twice(sorted, x, y);
        Once(heard, sorted[x]);
      }
    }
  }

  lemma {:induction false} Twice(s: seq<Heard>, x: nat, y: nat)
    requires x < y < |s| && s[x] == s[y]
    ensures multiset(s)[s[x]] >= 2
  {
    assert s == s[..x] + [s[x]] + s[x + 1..y] + [s[y]] + s[y + 1..];
  }

  lemma {:induction false} Once(s: seq<Heard>, h: Heard)
    requires forall i, j :: 0 <= i < j < |s| ==> s[i].from != s[j].from
    ensures multiset(s)[h] <= 1
  {
    if s != [] {
      assert s == [s[0]] + s[1..];
      Once(s[1..], h);
      assert forall i :: 0 <= i < |s[1..]| ==> s[1..][i].from != s[0].from;
    }
  }

  // ---------------------------------------------------------------- progress and termination

  ghost predicate CanStep(pat: Pattern, st: State)
    requires Valid(pat) && |st.rank| == pat.ranks
  {
    || (exists r: nat :: r < pat.ranks && st.rank[r].posted < |pat.receivers[r]|)
    || (exists r: nat, q: nat :: r < pat.ranks && st.rank[r].posted == |pat.receivers[r]| && !st.rank[r].done
          && Queue(st.net, q, r) != [])
    || (exists r: nat :: r < pat.ranks && st.rank[r].posted == |pat.receivers[r]| && !st.rank[r].barr
          && forall i :: 0 <= i < |pat.receivers[r]| ==> Queue(st.net, r, pat.receivers[r][i]) == [])
    || (exists r: nat :: r < pat.ranks && st.rank[r].barr && !st.rank[r].done
          && forall q :: 0 <= q < pat.ranks ==> st.rank[q].barr)
  }

  /** No deadlock: until all ranks have left, some call that MPI must let succeed is pending. */
  lemma {:induction false} Progress(pat: Pattern, run: seq<State>, i: nat)
    requires Valid(pat) && IsRun(pat, run) && i < |run|
    requires exists r :: 0 <= r < pat.ranks && !run[i].rank[r].done
    ensures CanStep(pat, run[i])
    ensures exists b: State :: |b.rank| == pat.ranks && Next(pat, run[i], b)
  {
    StepPending(pat, run, i);
    StepExists(pat, run[i]);
  }

  /** A pending call that can succeed is a transition. */
  lemma {:induction false} StepExists(pat: Pattern, st: State)
    requires Valid(pat) && |st.rank| == pat.ranks && CanStep(pat, st)
    ensures exists b: State :: |b.rank| == pat.ranks && Next(pat, st, b)
  {
    if r: nat :| r < pat.ranks && st.rank[r].posted < |pat.receivers[r]| {
      PostExists(pat, st, r);
    } else if r: nat, q: nat :|
      r < pat.ranks && st.rank[r].posted == |pat.receivers[r]| && !st.rank[r].done && Queue(st.net, q, r) != [] {
      ReceiveExists(pat, st, r, q);
    } else if r: nat :| r < pat.ranks && st.rank[r].posted == |pat.receivers[r]| && !st.rank[r].barr
                        && forall i :: 0 <= i < |pat.receivers[r]| ==> Queue(st.net, r, pat.receivers[r][i]) == [] {
      var b := State(st.rank[r := st.rank[r].(barr := true)], st.net);
      assert EnterBarrier(pat, st, b, r);
      assert Next(pat, st, b);
    } else {
      LeaveExists(pat, st);
    }
  }

  lemma {:induction false} PostExists(pat: Pattern, st: State, r: nat)
    requires Valid(pat) && |st.rank| == pat.ranks && r < pat.ranks && st.rank[r].posted < |pat.receivers[r]|
    ensures exists b: State :: |b.rank| == pat.ranks && Next(pat, st, b)
  {
    var me := st.rank[r];
    var d := pat.receivers[r][me.posted];
    var b := State(st.rank[r := me.(posted := me.posted + 1)],
                   st.net[(r, d) := Queue(st.net, r, d) + [pat.payload[r][me.posted]]]);
    assert Post(pat, st, b, r);
    assert Next(pat, st, b);
  }

  lemma {:induction false} ReceiveExists(pat: Pattern, st: State, r: nat, q: nat)
    requires Valid(pat) && |st.rank| == pat.ranks && r < pat.ranks
    requires st.rank[r].posted == |pat.receivers[r]| && !st.rank[r].done && Queue(st.net, q, r) != []
    ensures exists b: State :: |b.rank| == pat.ranks && Next(pat, st, b)
  {
    var me, queue := st.rank[r], Queue(st.net, q, r);
    var b := State(st.rank[r := me.(heard := me.heard + [Heard(q, queue[0])])], st.net[(q, r) := queue[1..]]);
    assert Receive(pat, st, b, r, q);
    assert Next(pat, st, b);
  }

  lemma {:induction false} LeaveExists(pat: Pattern, st: State)
    requires Valid(pat) && |st.rank| == pat.ranks && forall q :: 0 <= q < pat.ranks ==> st.rank[q].barr
    requires exists r: nat :: r < pat.ranks && !st.rank[r].done
    ensures exists b: State :: |b.rank| == pat.ranks && Next(pat, st, b)
  {
    var r: nat :| r < pat.ranks && !st.rank[r].done;
    var b := State(st.rank[r := st.rank[r].(done := true)], st.net);
    assert Leave(pat, st, b, r);
    assert Next(pat, st, b);
  }

  lemma {:induction false} StepPending(pat: Pattern, run: seq<State>, i: nat)
    requires Valid(pat) && IsRun(pat, run) && i < |run|
    requires exists r :: 0 <= r < pat.ranks && !run[i].rank[r].done
    ensures CanStep(pat, run[i])
  {
    var st := run[i];
    RunInv(pat, run, i);
    forall r: nat | r < pat.ranks ensures st.rank[r].posted <= |pat.receivers[r]| { assert RankOk(pat, st, r); }
    if q: nat, d: nat :| Queue(st.net, q, d) != [] {
      assert Wants(pat, d, q);
      WantsBounds(pat, d, q);
      var k :| 0 <= k < |pat.receivers[q]| && pat.receivers[q][k] == d;
      assert MessageOk(pat, st, q, k);
      assert RankOk(pat, st, d);
    }
  }

  ghost function Work(pat: Pattern, rank: seq<Rank>, r: nat): int
    requires Valid(pat) && |rank| == pat.ranks && r <= pat.ranks
    decreases pat.ranks - r
  {
    if r == pat.ranks then 0
    else RankWork(pat, r, rank[r]) + Work(pat, rank, r + 1)
  }

  ghost function RankWork(pat: Pattern, r: nat, me: Rank): int
    requires Valid(pat) && r < pat.ranks
  {
    |pat.receivers[r]| - me.posted + pat.ranks - |me.heard| + (if me.barr then 0 else 1) + (if me.done then 0 else 1)
  }

  lemma {:induction false} WorkStep(pat: Pattern, rank: seq<Rank>, x: nat, me: Rank, r: nat)
    requires Valid(pat) && |rank| == pat.ranks && x < pat.ranks && r <= pat.ranks
    ensures Work(pat, rank[x := me], r) ==
            Work(pat, rank, r) + (if r <= x then RankWork(pat, x, me) - RankWork(pat, x, rank[x]) else 0)
    decreases pat.ranks - r
  {
    if r < pat.ranks { WorkStep(pat, rank, x, me, r + 1); }
  }

  lemma {:induction false} DistinctBelow(s: seq<nat>, n: nat)
    requires forall i :: 0 <= i < |s| ==> s[i] < n
    requires forall i, j :: 0 <= i < j < |s| ==> s[i] != s[j]
    ensures |s| <= n
  {
    if s != [] {
      assert s[0] < n;
      if k :| 0 <= k < |s| && s[k] == n - 1 {
        DistinctBelow(s[..k] + s[k + 1..], n - 1);
      } else {
        DistinctBelow(s, n - 1);
      }
    }
  }

  lemma {:induction false} WorkBounds(pat: Pattern, st: State, r: nat)
    requires Valid(pat) && Inv(pat, st) && r <= pat.ranks
    ensures Work(pat, st.rank, r) >= 0
    decreases pat.ranks - r
  {
    if r < pat.ranks {
      WorkBounds(pat, st, r + 1);
      assert RankOk(pat, st, r);
      var me := st.rank[r];
      var from := seq(|me.heard|, i requires 0 <= i < |me.heard| => me.heard[i].from);
      forall i | 0 <= i < |from| ensures from[i] < pat.ranks { WantsBounds(pat, r, me.heard[i].from); }
      DistinctBelow(from, pat.ranks);
    }
  }

  lemma {:induction false} NextWork(pat: Pattern, a: State, b: State)
    requires Valid(pat) && |a.rank| == pat.ranks && Next(pat, a, b)
    ensures |b.rank| == pat.ranks && Work(pat, b.rank, 0) == Work(pat, a.rank, 0) - 1
  {
    if r: nat :| Post(pat, a, b, r) {
      WorkStep(pat, a.rank, r, b.rank[r], 0);
    } else if r: nat, q: nat :| Receive(pat, a, b, r, q) {
      WorkStep(pat, a.rank, r, b.rank[r], 0);
    } else if r: nat :| EnterBarrier(pat, a, b, r) {
      WorkStep(pat, a.rank, r, b.rank[r], 0);
    } else {
      var r: nat :| Leave(pat, a, b, r);
      WorkStep(pat, a.rank, r, b.rank[r], 0);
    }
  }

  /** Successful calls run out: no run makes more of them than the initial work. */
  lemma {:induction false} RunBounded(pat: Pattern, run: seq<State>)
    requires Valid(pat) && IsRun(pat, run)
    ensures |run| <= 1 + Work(pat, Initial(pat).rank, 0)
  {
    for i := 1 to |run|
      invariant Work(pat, run[i - 1].rank, 0) == Work(pat, run[0].rank, 0) - (i - 1)
    {
      assert Next(pat, run[i - 1], run[i - 1 + 1]);
      NextWork(pat, run[i - 1], run[i]);
    }
    RunInv(pat, run, |run| - 1);
    WorkBounds(pat, run[|run| - 1], 0);
  }
}
