/**
 One level of either recursion of src/sc_notify.c on the flat arrays that the code works on:
 what a rank sends, and what it makes of the messages in whatever order they arrive.
 */
module Levels {
  import opened Records
  import opened Pattern
  import opened Holders
  import opened NotifyArrays
  import opened Recursion
  import opened Nary
  import opened Binary
  import opened Powers
  import Radix

  /** A message as it is received: source and content. */
  datatype Arrival = Arrival(source: nat, content: seq<int>)

  // ---------------------------------------------------------------- the n-ary recursion

  /** What d receives from s at round t. */
  ghost function NaryMessage(pat: Pattern, ws: seq<nat>, t: nat, s: nat, d: nat): Data
    requires Valid(pat) && Widths(ws)
  {
    NaryPlan(pat.ranks, ws).message(t, s, Recursion.At(pat, ws)(t, s), d)
  }

  lemma {:induction false} NaryMessageIs(pat: Pattern, ws: seq<nat>, t: nat, s: nat, d: nat)
    requires Valid(pat) && Widths(ws) && t < |ws| && s < pat.ranks && d in DestsAt(pat.ranks, ws, t, s)
    ensures NaryMessage(pat, ws, t, s, d) == Table(pat, Moved(pat.ranks, ws, t, s, d))
  {
    BranchIsMoved(pat, ws, t, s, d);
  }

  /** Each message of a level is there once, from a rank that sends to r. */
  ghost predicate NaryArrived(pat: Pattern, ws: seq<nat>, t: nat, r: nat, arrivals: seq<Arrival>)
    requires Valid(pat) && Widths(ws) && t < |ws| && r < pat.ranks && Len(ws, t) > 0
  {
    && |arrivals| == Radix.Expected(pat.ranks, Len(ws, t), ws[t], r)
    && (forall i, j :: 0 <= i < j < |arrivals| ==> arrivals[i].source != arrivals[j].source)
    && (forall i :: 0 <= i < |arrivals| ==>
          && arrivals[i].source in Radix.Sources(pat.ranks, Len(ws, t), ws[t], r)
          && arrivals[i].content == Flat(NaryMessage(pat, ws, t, arrivals[i].source, r)))
  }

  /** Distinct sources, as many as there are, are all of them. */
  lemma {:induction false} AllArrived(sources: set<nat>, arrivals: seq<Arrival>, s: nat)
    requires |arrivals| == |sources| && s in sources
    requires forall i, j :: 0 <= i < j < |arrivals| ==> arrivals[i].source != arrivals[j].source
    requires forall i :: 0 <= i < |arrivals| ==> arrivals[i].source in sources
    ensures exists i :: 0 <= i < |arrivals| && arrivals[i].source == s
  {
    assert sources != {};
    if arrivals[0].source != s {
      var rest, less := arrivals[1..], sources - {arrivals[0].source};
      assert forall i :: 0 <= i < |rest| ==> rest[i] == arrivals[i + 1];
      AllArrived(less, rest, s);
      var i :| 0 <= i < |rest| && rest[i].source == s;
      assert arrivals[i + 1].source == s;
    }
  }

  /** The buffers of a level hold different pairs. */
  lemma {:induction false} ArrivalsSeparate(pat: Pattern, ws: seq<nat>, t: nat, r: nat, srcs: seq<nat>)
    requires Valid(pat) && Widths(ws) && t < |ws|
    requires forall i, j :: 0 <= i < j < |srcs| ==> srcs[i] != srcs[j]
    ensures Separate(Arrivals(pat, ws, t, r, srcs), pat.npay)
  {
    var xs := Arrivals(pat, ws, t, r, srcs);
    forall i | 0 <= i < |xs| ensures Ok(xs[i], pat.npay) {
      TableOk(pat, Moved(pat.ranks, ws, t, srcs[i], r));
    }
    forall i, j | 0 <= i < j < |xs| ensures Pairs(xs[i]).Keys !! Pairs(xs[j]).Keys {
      MovedApart(pat, ws, t, r, srcs[i], srcs[j]);
    }
  }

  lemma {:induction false} MovedApart(pat: Pattern, ws: seq<nat>, t: nat, r: nat, p: nat, q: nat)
    requires Valid(pat) && Widths(ws) && t < |ws| && p != q
    ensures var a, b := Table(pat, Moved(pat.ranks, ws, t, p, r)), Table(pat, Moved(pat.ranks, ws, t, q, r));
            Pairs(a).Keys !! Pairs(b).Keys
  {
    var x, y := Moved(pat.ranks, ws, t, p, r), Moved(pat.ranks, ws, t, q, r);
    TableOk(pat, x);
    TableOk(pat, y);
    forall k | k in Pairs(Table(pat, x)) ensures k !in Pairs(Table(pat, y)) {
      WantedKeys(pat, x, k.0, k.1);
      WantedKeys(pat, y, k.0, k.1);
    }
  }

  /** The sources in the order of their receive buffers. */
  lemma {:induction false} SlotOrder(P: nat, n: nat, w: nat, r: nat) returns (srcs: seq<nat>)
    requires n > 0 && w > 0 && r < P
    ensures |srcs| == Radix.Expected(P, n, w, r) + 1
    ensures forall j :: 0 <= j < |srcs| ==> srcs[j] == Radix.SlotSource(n, w, r, j)
    ensures forall i, j :: 0 <= i < j < |srcs| ==> srcs[i] != srcs[j]
    ensures forall s :: s in srcs <==> s in Radix.Sources(P, n, w, r) + {r}
  {
    ExpectedCount(P, n, w, r);
    var k := Radix.Expected(P, n, w, r) + 1;
    srcs := [];
    for j := 0 to k
      invariant |srcs| == j && forall i :: 0 <= i < j ==> srcs[i] == Radix.SlotSource(n, w, r, i)
    {
      Radix.SourceOfSlot(P, n, w, r, j);
      srcs := srcs + [Radix.SlotSource(n, w, r, j)];
    }
    forall i, j | 0 <= i < j < |srcs| ensures srcs[i] != srcs[j] {
      Radix.SourceOfSlot(P, n, w, r, i);
      Radix.SourceOfSlot(P, n, w, r, j);
    }
    forall s ensures s in srcs <==> s in Radix.Sources(P, n, w, r) + {r} {
      if s in srcs {
        var j :| 0 <= j < |srcs| && srcs[j] == s;
        Radix.SourceOfSlot(P, n, w, r, j);
      }
      if s in Radix.Sources(P, n, w, r) + {r} {
        Radix.SlotOfSource(P, n, w, r, s);
        assert srcs[Radix.Slot(n, w, r, s)] == s;
      }
    }
  }

  /** The send buffers of a level: to each peer goes the message of the plan, and the rest is kept. */
  method NarySend(ghost pat: Pattern, ghost ws: seq<nat>, ghost t: nat, n: nat, w: nat, npay: nat, me: nat,
          data: seq<int>)
    returns (sendbufs: seq<seq<int>>)
    requires Valid(pat) && Widths(ws) && t < |ws| && me < pat.ranks && npay == pat.npay
    requires n == Len(ws, t) && w == ws[t] && data == Flat(Recursion.At(pat, ws)(t, me))
    ensures n > 0 && w > 0 && |sendbufs| == w && Radix.Part(me, n, w) < w
    ensures forall j :: 0 <= j < w && j != Radix.Part(me, n, w) && Radix.Peer(pat.ranks, n, w, me, j) >= 0 ==>
              sendbufs[j] == Flat(NaryMessage(pat, ws, t, me, Radix.Peer(pat.ranks, n, w, me, j)))
    ensures sendbufs[Radix.Part(me, n, w)] == Flat(Table(pat, Moved(pat.ranks, ws, t, me, me)))
  {
    LenPositive(ws, t);
    LenPositive(ws, t + 1);
    ghost var rs := Recursion.At(pat, ws)(t, me);
    TableOk(pat, HeldBy(pat.ranks, ws, t, me));
    OkSized(rs, npay);
    sendbufs := Distribute(data, n, w, npay, rs);
    PartInRange(me, n, w);
    KeptBuffer(pat, ws, t, n, w, me);
    forall j | 0 <= j < w && j != Radix.Part(me, n, w) && Radix.Peer(pat.ranks, n, w, me, j) >= 0
      ensures sendbufs[j] == Flat(NaryMessage(pat, ws, t, me, Radix.Peer(pat.ranks, n, w, me, j)))
    {
      BufferIsMessage(pat, ws, t, n, w, me, j);
    }
  }

  lemma {:induction false} KeptBuffer(pat: Pattern, ws: seq<nat>, t: nat, n: nat, w: nat, me: nat)
    requires Valid(pat) && Widths(ws) && t < |ws| && me < pat.ranks && n == Len(ws, t) && w == ws[t] && n > 0
    requires n * w > 0
    ensures Filter(Recursion.At(pat, ws)(t, me), ForPart(n, w, Radix.Part(me, n, w)))
            == Table(pat, Moved(pat.ranks, ws, t, me, me))
  {
    BranchIsMoved(pat, ws, t, me, me);
  }

  lemma {:induction false} BufferIsMessage(pat: Pattern, ws: seq<nat>, t: nat, n: nat, w: nat, me: nat, j: nat)
    requires Valid(pat) && Widths(ws) && t < |ws| && me < pat.ranks && n == Len(ws, t) && w == ws[t] && n > 0
    requires n * w > 0
    requires j < w && Radix.Peer(pat.ranks, n, w, me, j) >= 0
    ensures NaryMessage(pat, ws, t, me, Radix.Peer(pat.ranks, n, w, me, j))
            == Filter(Recursion.At(pat, ws)(t, me), ForPart(n, w, j))
  {
    PeerPart(pat.ranks, n, w, me, j);
  }

  /** After i messages: each is in the slot of its source, and the own buffer in that of the own part. */
  ghost predicate Filed(n: nat, w: nat, me: nat, own: seq<int>, arrivals: seq<Arrival>, i: nat, bufs: seq<seq<int>>)
    requires n > 0 && w > 0 && n * w > 0 && i <= |arrivals|
  {
    && Radix.Part(me, n, w) < |bufs| && bufs[Radix.Part(me, n, w)] == own
    && forall k :: 0 <= k < i ==>
         && 0 <= Radix.Slot(n, w, me, arrivals[k].source) < |bufs|
         && bufs[Radix.Slot(n, w, me, arrivals[k].source)] == arrivals[k].content
  }

  lemma {:induction false} FileOne(P: nat, n: nat, w: nat, me: nat, own: seq<int>, arrivals: seq<Arrival>, i: nat,
          bufs: seq<seq<int>>)
    requires n > 0 && w > 0 && n * w > 0 && me < P && i < |arrivals| && Filed(n, w, me, own, arrivals, i, bufs)
    requires |bufs| == Radix.Expected(P, n, w, me) + 1
    requires forall k :: 0 <= k <= i ==> arrivals[k].source in Radix.Sources(P, n, w, me) && arrivals[k].source != me
    requires forall k :: 0 <= k < i ==> arrivals[k].source != arrivals[i].source
    ensures var j := Radix.Slot(n, w, me, arrivals[i].source);
            0 <= j < |bufs| && Filed(n, w, me, own, arrivals, i + 1, bufs[j := arrivals[i].content])
  {
    var j := Radix.Slot(n, w, me, arrivals[i].source);
    Radix.SlotOfSource(P, n, w, me, arrivals[i].source);
    Radix.SlotOfSource(P, n, w, me, me);
    forall k | 0 <= k < i ensures Radix.Slot(n, w, me, arrivals[k].source) != j {
      Radix.SlotOfSource(P, n, w, me, arrivals[k].source);
    }
  }

  lemma {:induction false} SourcesOthers(P: nat, n: nat, w: nat, me: nat, s: nat)
    requires n > 0 && w > 0 && me < P && s in Radix.Sources(P, n, w, me)
    ensures s < P && s != me
  {
    DestsExist(P, n, w, s, me);
  }

  /** In the end slot j holds what its source moves here. */
  lemma {:induction false} AllFiled(pat: Pattern, ws: seq<nat>, t: nat, me: nat, own: seq<int>, arrivals: seq<Arrival>,
          bufs: seq<seq<int>>, srcs: seq<nat>, j: nat)
    requires Valid(pat) && Widths(ws) && t < |ws| && me < pat.ranks && Len(ws, t) > 0 && Len(ws, t) * ws[t] > 0
    requires own == Flat(Table(pat, Moved(pat.ranks, ws, t, me, me))) && NaryArrived(pat, ws, t, me, arrivals)
    requires Filed(Len(ws, t), ws[t], me, own, arrivals, |arrivals|, bufs)
    requires |bufs| == |srcs| == Radix.Expected(pat.ranks, Len(ws, t), ws[t], me) + 1 && j < |srcs|
    requires srcs[j] == Radix.SlotSource(Len(ws, t), ws[t], me, j)
    ensures bufs[j] == Flat(Table(pat, Moved(pat.ranks, ws, t, srcs[j], me)))
  {
    var P, n, w, s := pat.ranks, Len(ws, t), ws[t], srcs[j];
    Radix.SourceOfSlot(P, n, w, me, j);
    ExpectedCount(P, n, w, me);
    if s == me {
      Radix.SlotOfSource(P, n, w, me, me);
    } else {
      AllArrived(Radix.Sources(P, n, w, me), arrivals, s);
      var i :| 0 <= i < |arrivals| && arrivals[i].source == s;
      SourcesOthers(P, n, w, me, s);
      NaryMessageIs(pat, ws, t, s, me);
    }
  }

  /**
   The receives of a level, in any order of arrival, and the tree of merges: the array that
   the next level starts from, after exactly nrecv merges.
   */
  method NaryReceive(ghost pat: Pattern, ghost ws: seq<nat>, ghost t: nat, P: nat, n: nat, w: nat, npay: nat, me: nat,
          own: seq<int>, arrivals: seq<Arrival>)
    returns (data: seq<int>, freed: nat)
    requires Valid(pat) && Widths(ws) && t < |ws| && P == pat.ranks && me < P && npay == pat.npay
    requires n == Len(ws, t) && w == ws[t] && n > 0
    requires own == Flat(Table(pat, Moved(P, ws, t, me, me))) && NaryArrived(pat, ws, t, me, arrivals)
    ensures w > 0 && data == Flat(Recursion.At(pat, ws)(t + 1, me)) && freed == Radix.Expected(P, n, w, me)
  {
    LenPositive(ws, t);
    LenPositive(ws, t + 1);
    ghost var srcs := SlotOrder(P, n, w, me);
    var nrecv := Radix.Expected(P, n, w, me);
    Radix.SlotOfSource(P, n, w, me, me);
    var recvbufs := seq(nrecv + 1, _ => []);
    recvbufs := recvbufs[Radix.Part(me, n, w) := own];
    for i := 0 to nrecv
      invariant |recvbufs| == nrecv + 1 && Filed(n, w, me, own, arrivals, i, recvbufs)
    {
      forall k | 0 <= k <= i ensures arrivals[k].source != me { SourcesOthers(P, n, w, me, arrivals[k].source); }
      FileOne(P, n, w, me, own, arrivals, i, recvbufs);
      recvbufs := recvbufs[Radix.Slot(n, w, me, arrivals[i].source) := arrivals[i].content];
    }
    ghost var xs := Arrivals(pat, ws, t, me, srcs);
    forall j | 0 <= j < |srcs| ensures recvbufs[j] == Flat(xs[j]) {
      AllFiled(pat, ws, t, me, own, arrivals, recvbufs, srcs, j);
    }
    ArrivalsSeparate(pat, ws, t, me, srcs);
    data, freed := MergeTree(recvbufs, npay, xs);
    AnyMergeOrder(pat, ws, t, me, srcs);
  }

  // ---------------------------------------------------------------- the binary recursion

  ghost function Halves(pat: Pattern): seq<nat>
    requires pat.ranks > 0
  {
    Twos(Levels(pat.ranks))
  }

  /** What a rank holds when t levels are done. */
  ghost function BinaryAt(pat: Pattern, t: nat, r: nat): Data
    requires Valid(pat) && pat.ranks > 0
  {
    Recursion.At(pat, Halves(pat))(t, r)
  }

  /** Each message of a level is there once. */
  ghost predicate BinaryArrived(pat: Pattern, t: nat, r: nat, arrivals: seq<Arrival>)
    requires Valid(pat) && pat.ranks > 0 && Pow2(t) > 0
  {
    && |arrivals| == Receives(pat.ranks, Pow2(t), r)
    && (forall i, j :: 0 <= i < j < |arrivals| ==> arrivals[i].source != arrivals[j].source)
    && (forall i :: 0 <= i < |arrivals| ==>
          && arrivals[i].source in ReceiveFrom(pat.ranks, Pow2(t), r)
          && arrivals[i].content == Flat(Outgoing(t, arrivals[i].source, BinaryAt(pat, t, arrivals[i].source))))
  }

  /** What r has at level t once it has heard from `got`. */
  ghost function Gathered(pat: Pattern, t: nat, r: nat, got: set<nat>): Data
    requires Valid(pat) && pat.ranks > 0 && t < Levels(pat.ranks)
  {
    Table(pat, Collected(pat.ranks, Halves(pat), t, r, got))
  }

  lemma {:induction false} GatheredOk(pat: Pattern, t: nat, r: nat, got: set<nat>)
    requires Valid(pat) && pat.ranks > 0 && t < Levels(pat.ranks)
    ensures Sized(Gathered(pat, t, r, got), pat.npay) && Live(Gathered(pat, t, r, got)) == Gathered(pat, t, r, got)
  {
    TableOk(pat, Collected(pat.ranks, Halves(pat), t, r, got));
    OkSized(Gathered(pat, t, r, got), pat.npay);
  }

  lemma {:induction false} NothingGathered(pat: Pattern, t: nat, r: nat)
    requires Valid(pat) && pat.ranks > 0 && t < Levels(pat.ranks) && r < pat.ranks
    ensures Remaining(pat.ranks, t, r, BinaryAt(pat, t, r)) == Gathered(pat, t, r, {})
  {
    var ws := Halves(pat);
    RemainingIsMoved(pat, t, r);
    SameTable(pat, Collected(pat.ranks, ws, t, r, {}), Moved(pat.ranks, ws, t, r, r));
  }

  lemma {:induction false} OneGathered(pat: Pattern, t: nat, r: nat, got: set<nat>, s: nat)
    requires Valid(pat) && pat.ranks > 0 && t < Levels(pat.ranks) && r < pat.ranks && s !in got
    requires Pow2(t) > 0 && s in ReceiveFrom(pat.ranks, Pow2(t), r)
    ensures Sized(Outgoing(t, s, BinaryAt(pat, t, s)), pat.npay)
    ensures MergeRecs(Gathered(pat, t, r, got), Outgoing(t, s, BinaryAt(pat, t, s))) == Gathered(pat, t, r, got + {s})
  {
    CallIsMoved(pat, t, r, s);
    MovedSized(pat, Halves(pat), t, s, r);
    CallerIsOther(pat.ranks, t, r, s);
    NextPart(pat, Halves(pat), t, r, got, s);
  }

  lemma {:induction false} CallIsMoved(pat: Pattern, t: nat, r: nat, s: nat)
    requires Valid(pat) && pat.ranks > 0 && t < Levels(pat.ranks) && r < pat.ranks
    requires Pow2(t) > 0 && s in ReceiveFrom(pat.ranks, Pow2(t), r)
    ensures Outgoing(t, s, BinaryAt(pat, t, s)) == Table(pat, Moved(pat.ranks, Halves(pat), t, s, r))
  {
    CallerIsOther(pat.ranks, t, r, s);
    OutgoingIsMoved(pat, t, s, r);
  }

  lemma {:induction false} CallerIsOther(P: nat, t: nat, r: nat, s: nat)
    requires r < P && Pow2(t) > 0 && s in ReceiveFrom(P, Pow2(t), r)
    ensures s < P && s != r && r in SendTo(P, Pow2(t), s)
  {
    LikeNary(P, t, r);
    SourcesOthers(P, Pow2(t), 2, r, s);
    LikeNary(P, t, s);
  }

  lemma {:induction false} MovedSized(pat: Pattern, ws: seq<nat>, t: nat, s: nat, d: nat)
    requires Valid(pat) && Widths(ws) && t < |ws|
    ensures Sized(Table(pat, Moved(pat.ranks, ws, t, s, d)), pat.npay)
  {
    TableOk(pat, Moved(pat.ranks, ws, t, s, d));
    OkSized(Table(pat, Moved(pat.ranks, ws, t, s, d)), pat.npay);
  }

  lemma {:induction false} AllGathered(pat: Pattern, t: nat, r: nat, got: set<nat>)
    requires Valid(pat) && pat.ranks > 0 && t < Levels(pat.ranks) && r < pat.ranks && Pow2(t) > 0
    requires forall s: nat :: s in got <==> s in ReceiveFrom(pat.ranks, Pow2(t), r)
    ensures Gathered(pat, t, r, got) == BinaryAt(pat, t + 1, r)
  {
    var P, ws, p := pat.ranks, Halves(pat), BinaryPlan(pat.ranks);
    LikeNary(P, t, r);
    BinaryGeometry(pat);
    LenTwos(|ws|, t);
    SourcesAre(p, pat, ws, t, r);
    assert got == Radix.Sources(P, Pow2(t), 2, r);
    LastPart(p, pat, ws, t, r);
  }

  /** Only a rank that has a peer in its range can have a second one. */
  lemma {:induction false} NoSecond(P: nat, t: nat, me: nat)
    requires me < P && Pow2(t) > 0
    ensures var talk := Talks(P, Pow2(t), me); talk.peer2 >= -1 && (talk.peer2 >= 0 ==> talk.peer >= talk.start)
  {
    var n := Pow2(t);
    var a, p, c := Radix.Locate(me, n, 2);
    TalksAt(P, t, me, a, p, c);
    if p == 1 {
      Radix.GroupForm(n, 2, a, 0, c);
    }
  }

  lemma {:induction false} BothArrived(P: nat, t: nat, me: nat, arrivals: seq<Arrival>, got: set<nat>)
    requires Pow2(t) > 0 && |arrivals| == Receives(P, Pow2(t), me)
    requires forall i, j :: 0 <= i < j < |arrivals| ==> arrivals[i].source != arrivals[j].source
    requires forall i :: 0 <= i < |arrivals| ==> arrivals[i].source in ReceiveFrom(P, Pow2(t), me)
    requires got == if |arrivals| == 0 then {}
                    else if |arrivals| == 1 then {arrivals[0].source}
                    else {arrivals[0].source} + {arrivals[1].source}
    ensures forall s: nat :: s in got <==> s in ReceiveFrom(P, Pow2(t), me)
  {
  }

  /** The records of the own array that the merges will see. */
  ghost predicate Kept(pat: Pattern, t: nat, r: nat, marked: seq<int>, rs: Data)
    requires Valid(pat) && pat.ranks > 0 && t < Levels(pat.ranks)
  {
    marked == Flat(rs) && Sized(rs, 0) && Live(rs) == Gathered(pat, t, r, {})
  }

  /** The send of a level: the peer's records are copied to the buffer and marked. */
  method BinarySend(ghost pat: Pattern, ghost t: nat, P: nat, length2: nat, me: nat, data: seq<int>)
    returns (marked: seq<int>, sendbuf: seq<int>, ghost rs: Data)
    requires Valid(pat) && pat.npay == 0 && P == pat.ranks && me < P && t < Levels(P) && length2 == Pow2(t)
    requires data == Flat(BinaryAt(pat, t, me))
    ensures length2 > 0 && Kept(pat, t, me, marked, rs)
    ensures forall d :: d in SendTo(P, length2, me) ==> sendbuf == Flat(Outgoing(t, me, BinaryAt(pat, t, me)))
  {
    Pow2Positive(t);
    Pow2Positive(t + 1);
    ghost var was := BinaryAt(pat, t, me);
    TableOk(pat, HeldBy(P, Halves(pat), t, me));
    OkSized(was, 0);
    NothingGathered(pat, t, me);
    marked, sendbuf, rs := data, [], was;
    if Talks(P, length2, me).peer >= 0 {
      marked, sendbuf := MarkForPeer(data, me, 2 * length2, was);
      rs := Mark(was, Stays(me, 2 * length2));
      MarkOk(was, Stays(me, 2 * length2), 0);
    }
  }

  /** One merge: what was gathered so far and one more message. */
  method MergeOne(ghost pat: Pattern, ghost t: nat, ghost me: nat, data: seq<int>, ghost held: Data,
          ghost got: set<nat>, arrival: Arrival)
    returns (out: seq<int>)
    requires Valid(pat) && pat.npay == 0 && pat.ranks > 0 && t < Levels(pat.ranks) && me < pat.ranks && Pow2(t) > 0
    requires data == Flat(held) && Sized(held, 0) && Live(held) == Gathered(pat, t, me, got)
    requires arrival.source in ReceiveFrom(pat.ranks, Pow2(t), me) && arrival.source !in got
    requires arrival.content == Flat(Outgoing(t, arrival.source, BinaryAt(pat, t, arrival.source)))
    ensures out == Flat(Gathered(pat, t, me, got + {arrival.source}))
  {
    OneGathered(pat, t, me, got, arrival.source);
    out := Merge(data, arrival.content, 0, held, Outgoing(t, arrival.source, BinaryAt(pat, t, arrival.source)));
  }

  /** The receives of a level in either order of arrival, and the merges. */
  method BinaryReceive(ghost pat: Pattern, ghost t: nat, P: nat, length2: nat, me: nat, marked: seq<int>,
          ghost rs: Data, arrivals: seq<Arrival>)
    returns (data: seq<int>)
    requires Valid(pat) && pat.npay == 0 && P == pat.ranks && me < P && t < Levels(P) && length2 == Pow2(t)
    requires length2 > 0
    requires Kept(pat, t, me, marked, rs) && BinaryArrived(pat, t, me, arrivals)
    ensures data == Flat(BinaryAt(pat, t + 1, me))
  {
    var talk := Talks(P, length2, me);
    NoSecond(P, t, me);
    ghost var got: set<nat> := {};
    if talk.peer >= talk.start {
      got := {arrivals[0].source};
      data := MergeOne(pat, t, me, marked, rs, {}, arrivals[0]);
      assert {} + got == got;
      if talk.peer2 >= 0 {
        GatheredOk(pat, t, me, got);
        data := MergeOne(pat, t, me, data, Gathered(pat, t, me, got), got, arrivals[1]);
        got := got + {arrivals[1].source};
      }
    } else {
      data := Merge(marked, [], 0, rs, []);
    }
    BothArrived(P, t, me, arrivals, got);
    AllGathered(pat, t, me, got);
  }
}
