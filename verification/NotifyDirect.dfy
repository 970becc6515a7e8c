/**
 The output side of the recursions, and the two variants that rest on a collective
 call alone: sc_notify_allgather and sc_notify_payload_pex.  All give the same list.
 */
module NotifyDirect {
  import opened Records
  import opened NotifyArrays
  import opened Pattern
  import opened Recursion

  /** The payloads that go with a list of senders. */
  ghost predicate Carries(pat: Pattern, me: nat, senders: seq<int>, payload: seq<seq<int>>)
    requires Valid(pat)
  {
    && |payload| == |senders|
    && forall i :: 0 <= i < |senders| ==> Wants(pat, me, senders[i]) && payload[i] == Pay(pat, me, senders[i])
  }

  /** The payload array that comes back: without senders it is left as it was. */
  ghost function Returned(pat: Pattern, me: nat, payload: seq<seq<int>>): seq<seq<int>>
    requires Valid(pat)
  {
    var senders := Senders(pat, me, 0);
    if senders == [] then payload
    else seq(|senders|, i requires 0 <= i < |senders| => SendersSpec(pat, me, 0); Pay(pat, me, senders[i]))
  }

  /** It is right exactly if somebody names this rank or the array came in empty. */
  lemma {:induction false} ReturnedIffCarries(pat: Pattern, me: nat, payload: seq<seq<int>>)
    requires Valid(pat)
    ensures Carries(pat, me, Senders(pat, me, 0), Returned(pat, me, payload)) <==>
              Senders(pat, me, 0) != [] || payload == []
    ensures Senders(pat, me, 0) != [] <==> exists q :: Wants(pat, me, q)
  {
    SendersSpec(pat, me, 0);
    if q :| Wants(pat, me, q) { assert q in Senders(pat, me, 0); }
    if Senders(pat, me, 0) != [] { assert Wants(pat, me, Senders(pat, me, 0)[0]); }
  }

  /** Two ranks that both name rank 0: rank 1 gets its old payload array back, which should be empty. */
  lemma {:induction false} StalePayload()
    ensures exists pat: Pattern, payload: seq<seq<int>> ::
              && Valid(pat) && pat.ranks == 2 && Senders(pat, 1, 0) == [] && |payload| == 1
              && !Carries(pat, 1, Senders(pat, 1, 0), Returned(pat, 1, payload))
  {
    var pat := Pattern(2, [[0], [0]], [[[7]], [[8]]], 1);
    assert Senders(pat, 1, 2) == [];
    assert Senders(pat, 1, 1) == [] + Senders(pat, 1, 2);
    assert Senders(pat, 1, 0) == [] + Senders(pat, 1, 1);
    ReturnedIffCarries(pat, 1, [[5]]);
  }

  /** The caller's view of a recursion that ended with the array `output`. */
  method Output(pat: Pattern, me: nat, output: seq<int>, payload: seq<seq<int>>)
    returns (senders: seq<int>, newPayload: seq<seq<int>>)
    requires Valid(pat) && me < pat.ranks && output == Flat(Result(pat, me))
    ensures senders == Senders(pat, me, 0) && newPayload == Returned(pat, me, payload)
    ensures Carries(pat, me, senders, newPayload) <==> Senders(pat, me, 0) != [] || payload == []
  {
    ghost var rs := Result(pat, me);
    ResultHolds(pat, me);
    OkSized(rs, pat.npay);
    RowIsSenders(pat, me, 0);
    senders, newPayload := ResetOutput(output, pat.npay, payload, rs);
    ghost var want := Senders(pat, me, 0);
    if rs != [] {
      assert forall i :: 0 <= i < |senders| ==> senders[i] == rs[0].items[i].from == want[i];
      assert senders == want;
      SendersSpec(pat, me, 0);
      assert newPayload == Returned(pat, me, payload);
    }
    ReturnedIffCarries(pat, me, payload);
  }

  // ---------------------------------------------------------------- allgather

  function Concat(lists: seq<seq<nat>>): seq<nat> {
    if lists == [] then [] else lists[0] + Concat(lists[1..])
  }

  lemma {:induction false} ConcatSlice(lists: seq<seq<nat>>, i: nat)
    requires i < |lists|
    ensures var o := |Concat(lists[..i])|;
            && o + |lists[i]| <= |Concat(lists)|
            && Concat(lists)[o..o + |lists[i]|] == lists[i]
            && |Concat(lists[..i + 1])| == o + |lists[i]|
  {
    if i == 0 {
      assert lists[..1][0] == lists[0] && lists[..0] == [];
      assert lists[..1][1..] == [];
    } else {
      ConcatSlice(lists[1..], i - 1);
      assert lists[..i][1..] == lists[1..][..i - 1];
      assert lists[..i + 1][1..] == lists[1..][..i];
      var o := |Concat(lists[1..][..i - 1])|;
      assert Concat(lists)[|lists[0]| + o..|lists[0]| + o + |lists[i]|] == Concat(lists[1..])[o..o + |lists[i]|];
    }
  }

  lemma {:induction false} SendersUpTo(pat: Pattern, me: int, k: nat)
    requires k <= pat.ranks
    ensures SendersBelow(pat, me, k) + Senders(pat, me, k) == Senders(pat, me, 0)
    ensures k == pat.ranks ==> SendersBelow(pat, me, k) == Senders(pat, me, 0)
  {
    if k > 0 { SendersUpTo(pat, me, k - 1); }
  }

  /** The ranks below k that named `me`. */
  function SendersBelow(pat: Pattern, me: int, k: nat): seq<int> {
    if k == 0 then [] else SendersBelow(pat, me, k - 1) + (if Wants(pat, me, k - 1) then [k - 1] else [])
  }

  /** Is `me` among the `count` entries from `offset` on? */
  method Scan(all: seq<nat>, offset: nat, count: nat, me: nat) returns (found: bool)
    requires offset + count <= |all|
    ensures found <==> me in all[offset..offset + count]
  {
    found := false;
    for j := 0 to count
      invariant me !in all[offset..offset + j]
    {
      assert all[offset..offset + j + 1] == all[offset..offset + j] + [all[offset + j]];
      if all[offset + j] == me {
        assert all[offset..offset + count][j] == me;
        return true;
      }
    }
  }

  method Offsets(counts: seq<nat>, ghost lists: seq<seq<nat>>) returns (offsets: seq<nat>)
    requires |counts| == |lists| && forall i :: 0 <= i < |lists| ==> counts[i] == |lists[i]|
    ensures |offsets| == |lists| && forall k :: 0 <= k < |lists| ==> offsets[k] == |Concat(lists[..k])|
  {
    offsets := [];
    var total: nat := 0;
    for i := 0 to |counts|
      invariant |offsets| == i && total == |Concat(lists[..i])|
      invariant forall k :: 0 <= k < i ==> offsets[k] == |Concat(lists[..k])|
    {
      offsets := offsets + [total];
      ConcatSlice(lists, i);
      total := total + counts[i];
    }
  }

  /**
   sc_notify_allgather: `counts` and `all` are what the two collectives leave on every rank,
   the number of receivers of each rank and their lists one after the other.
   */
  method NotifyAllgather(pat: Pattern, me: nat, counts: seq<nat>, all: seq<nat>) returns (senders: seq<int>)
    requires Valid(pat) && me < pat.ranks
    requires |counts| == pat.ranks && forall i :: 0 <= i < pat.ranks ==> counts[i] == |pat.receivers[i]|
    requires all == Concat(pat.receivers)
    ensures senders == Senders(pat, me, 0)
  {
    var offsets := Offsets(counts, pat.receivers);
    senders := [];
    for i := 0 to |counts|
      invariant senders == SendersBelow(pat, me, i)
    {
      ConcatSlice(pat.receivers, i);
      var found := Scan(all, offsets[i], counts[i], me);
      if found { senders := senders + [i]; }
    }
    SendersUpTo(pat, me, pat.ranks);
  }

  // ---------------------------------------------------------------- personalized exchange

  /** One block per rank: a flag, then the payload, or zeros. */
  ghost predicate Block(pat: Pattern, from: nat, to: nat, block: seq<int>)
    requires Valid(pat)
  {
    && |block| == 1 + pat.npay
    && (block[0] != 0 <==> Wants(pat, to, from))
    && (Wants(pat, to, from) ==> block[1..] == Pay(pat, to, from))
  }

  /** What rank q passes to MPI_Alltoall, block by block. */
  method PexFill(pat: Pattern, q: nat) returns (blocks: seq<seq<int>>)
    requires Valid(pat) && q < pat.ranks
    ensures |blocks| == pat.ranks && forall to :: 0 <= to < pat.ranks ==> Block(pat, q, to, blocks[to])
  {
    var receivers, payload := pat.receivers[q], pat.payload[q];
    blocks := seq(pat.ranks, _ => seq(1 + pat.npay, _ => 0));
    for i := 0 to |receivers|
      invariant |blocks| == pat.ranks
      invariant forall to :: 0 <= to < pat.ranks ==> |blocks[to]| == 1 + pat.npay
      invariant forall to :: 0 <= to < pat.ranks && to !in receivers[..i] ==> blocks[to][0] == 0
      invariant forall k :: 0 <= k < i ==> blocks[receivers[k]] == [1] + payload[k]
    {
      assert receivers[..i + 1] == receivers[..i] + [receivers[i]];
      blocks := blocks[receivers[i] := [1] + payload[i]];
    }
    assert receivers[..|receivers|] == receivers;
    forall to | 0 <= to < pat.ranks ensures Block(pat, q, to, blocks[to]) {
      if Wants(pat, to, q) {
        var k :| 0 <= k < |receivers| && receivers[k] == to;
        PayIs(pat, q, k);
        assert blocks[receivers[k]] == [1] + payload[k];
      }
    }
  }

  /** sc_notify_payload_pex after MPI_Alltoall: blocks[q] is the block of rank q for `me`. */
  method NotifyPex(pat: Pattern, me: nat, blocks: seq<seq<int>>) returns (senders: seq<int>, payload: seq<seq<int>>)
    requires Valid(pat) && me < pat.ranks
    requires |blocks| == pat.ranks && forall q :: 0 <= q < pat.ranks ==> Block(pat, q, me, blocks[q])
    ensures senders == Senders(pat, me, 0)
    ensures Carries(pat, me, senders, payload)
  {
    senders, payload := [], [];
    for i := 0 to pat.ranks
      invariant senders == SendersBelow(pat, me, i) && Carries(pat, me, senders, payload)
    {
      assert Block(pat, i, me, blocks[i]);
      if blocks[i][0] != 0 {
        payload := payload + [blocks[i][1..]];
        senders := senders + [i];
      }
    }
    SendersUpTo(pat, me, pat.ranks);
  }
}
