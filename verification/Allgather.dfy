/**
 sc_allgather: recursive bisection of the ranks down to small groups, which exchange their
 blocks directly.  All positions are counted in blocks from the start of the receive buffer.
 */
module Allgather {
  import Rounds

  const SC_ALLGATHER_ALLTOALL_MAX := 5
  const SC_TAG_AG_ALLTOALL := 214
  const SC_TAG_AG_RECURSIVE_A := 215
  const SC_TAG_AG_RECURSIVE_B := 216
  const SC_TAG_AG_RECURSIVE_C := 217

  // ---------------------------------------------------------------- the recursion

  /** The ranks base .. base + size - 1 of one call; Beyond is below the end of the recursion. */
  datatype Group = Group(base: nat, size: nat) | Beyond

  predicate Small(g: Group) { g.Group? && g.size <= SC_ALLGATHER_ALLTOALL_MAX }
  predicate Large(g: Group) { g.Group? && g.size > SC_ALLGATHER_ALLTOALL_MAX }

  /** The call at depth d below `g` that rank r takes part in. */
  function Node(g: Group, r: nat, d: nat): Group
    decreases d
  {
    if d == 0 then g
    else if !Large(g) then Beyond
    else Node(Child(g, r), r, d - 1)
  }

  function Child(g: Group, r: nat): Group
    requires Large(g)
  {
    var g2 := g.size / 2;
    if r < g.base + g2 then Group(g.base, g2) else Group(g.base + g2, g.size - g2)
  }

  predicate In(r: nat, g: Group) { g.Group? && g.base <= r < g.base + g.size }

  lemma {:induction false} NodeContains(g: Group, r: nat, d: nat)
    requires In(r, g)
    decreases d
    ensures var n := Node(g, r, d); n.Group? ==> In(r, n) && g.base <= n.base && n.base + n.size <= g.base + g.size
  {
    if d > 0 && Large(g) { NodeContains(Child(g, r), r, d - 1); }
  }

  lemma {:induction false} NodeNext(g: Group, r: nat, d: nat)
    decreases d
    ensures Node(g, r, d + 1) == if Large(Node(g, r, d)) then Child(Node(g, r, d), r) else Beyond
  {
    if d > 0 && Large(g) { NodeNext(Child(g, r), r, d - 1); }
  }

  /** Ranks of one call reached it by the same calls. */
  lemma {:induction false} SameNode(g: Group, r: nat, s: nat, d: nat)
    requires In(r, g) && In(s, Node(g, r, d))
    ensures Node(g, s, d) == Node(g, r, d) && In(s, g)
    decreases d
  {
    if d > 0 && Large(g) {
      NodeContains(Child(g, r), r, d - 1);
      assert In(r, Child(g, r));
      SameNode(Child(g, r), r, s, d - 1);
      assert Child(g, s) == Child(g, r);
    }
  }

  lemma {:induction false} Shrinks(g: Group, r: nat, d: nat, e: nat)
    requires d < e && Node(g, r, e).Group?
    ensures Large(Node(g, r, d)) && 2 * Node(g, r, e).size <= Node(g, r, d).size + 1
  {
    NodeNext(g, r, e - 1);
    if d < e - 1 { Shrinks(g, r, d, e - 1); }
  }

  lemma {:induction false} DepthBound(g: Group, r: nat, d: nat)
    requires g.Group? && Node(g, r, d).Group?
    ensures d < g.size || d == 0
    decreases d
  {
    if d > 0 { DepthBound(Child(g, r), r, d - 1); }
  }

  // ---------------------------------------------------------------- one call of one rank

  function World(P: nat): Group { Group(0, P) }

  /** To whom r sends in the call on g, once the recursion below has returned. */
  function SendsTo(g: Group, r: nat): set<nat> {
    if !In(r, g) then {}
    else if Small(g) then set s: nat | g.base <= s < g.base + g.size && In(s, g) && s != r
    else
      var g2 := g.size / 2;
      var g2B := g.size - g2;
      if r - g.base < g2 then
        {r + g2} + (if r - g.base == g2 - 1 && g2 != g2B then {r + g2B} else {})
      else if r - g.base == g.size - 1 && g2 != g2B then {}
      else {r - g2}
  }

  function SendTag(g: Group, s: nat, d: nat): int {
    if !Large(g) then SC_TAG_AG_ALLTOALL
    else
      var g2 := g.size / 2;
      if s < g.base + g2 then (if d == s + g2 then SC_TAG_AG_RECURSIVE_A else SC_TAG_AG_RECURSIVE_C)
      else SC_TAG_AG_RECURSIVE_B
  }

  /** The part of its buffer that s sends. */
  function SendRange(g: Group, s: nat): (nat, nat) {
    if !Large(g) then (s, s + 1)
    else
      var g2 := g.size / 2;
      if s < g.base + g2 then (g.base, g.base + g2) else (g.base + g2, g.base + g.size)
  }

  /** Does r post a receive from s with tag t? */
  predicate Posts(g: Group, r: nat, s: nat, t: int) {
    if !In(r, g) then false
    else if Small(g) then In(s, g) && s != r && t == SC_TAG_AG_ALLTOALL
    else
      var g2 := g.size / 2;
      var g2B := g.size - g2;
      if r - g.base < g2 then s == r + g2 && t == SC_TAG_AG_RECURSIVE_B
      else if r - g.base == g.size - 1 && g2 != g2B then s == r - g2B && t == SC_TAG_AG_RECURSIVE_C
      else s == r - g2 && t == SC_TAG_AG_RECURSIVE_A
  }

  function PostCount(g: Group, r: nat): nat {
    if !In(r, g) then 0 else if Small(g) then g.size - 1 else 1
  }

  /** The part of its buffer into which r receives from s. */
  function ReceiveRange(g: Group, r: nat, s: nat): (nat, nat) {
    if !Large(g) then (s, s + 1)
    else
      var g2 := g.size / 2;
      if r < g.base + g2 then (g.base + g2, g.base + g.size) else (g.base, g.base + g2)
  }

  /** A send of s to d in the call on g is received there by exactly the posted receive, with equal length. */
  lemma {:induction false} CallMatches(g: Group, s: nat, d: nat)
    requires In(s, g) && d in SendsTo(g, s)
    ensures In(d, g) && d != s && Posts(g, d, s, SendTag(g, s, d))
    ensures ReceiveRange(g, d, s) == SendRange(g, s)
  {
  }

  /** Every posted receive has a send. */
  lemma {:induction false} CallComplete(g: Group, d: nat, s: nat, t: int)
    requires Posts(g, d, s, t)
    ensures In(s, g) && d in SendsTo(g, s) && t == SendTag(g, s, d)
  {
  }

  /** A receive never touches what the rank is sending at the same time. */
  lemma {:induction false} BuffersApart(g: Group, r: nat, s: nat, t: int)
    requires Posts(g, r, s, t)
    ensures ReceiveRange(g, r, s).1 <= SendRange(g, r).0 || SendRange(g, r).1 <= ReceiveRange(g, r, s).0
  {
  }

  // ---------------------------------------------------------------- the plan

  /** Round l works at depth P - l, so that all calls of one depth fall into one round. */
  function CallAt(P: nat, l: nat, r: nat): Group {
    if l <= P then Node(World(P), r, P - l) else Beyond
  }

  function AllgatherPlan<B>(P: nat): Rounds.Plan<seq<B>, seq<B>> {
    Rounds.Plan(
      P, P + 1,
      (l: nat, r: nat) => SendsTo(CallAt(P, l, r), r),
      (l: nat, s: nat, d: nat) => SendTag(CallAt(P, l, s), s, d),
      (l: nat, r: nat, s: nat, t: int) => Posts(CallAt(P, l, r), r, s, t),
      (l: nat, r: nat) => PostCount(CallAt(P, l, r), r),
      (l: nat, s: nat, data: seq<B>, d: nat) => Slice(data, SendRange(CallAt(P, l, s), s)),
      (l: nat, r: nat, data: seq<B>) => data,
      (l: nat, r: nat, acc: seq<B>, s: nat, m: seq<B>) => Store(acc, ReceiveRange(CallAt(P, l, r), r, s), m))
  }

  function Slice<B>(data: seq<B>, range: (nat, nat)): seq<B> {
    if range.0 <= range.1 <= |data| then data[range.0..range.1] else []
  }

  function Store<B>(data: seq<B>, range: (nat, nat), m: seq<B>): seq<B> {
    if range.0 <= range.1 <= |data| && |m| == range.1 - range.0 then data[..range.0] + m + data[range.1..] else data
  }

  lemma {:induction false} LinkFacts(P: nat, l: nat, s: nat, d: nat)
    requires s < P && d in SendsTo(CallAt(P, l, s), s)
    ensures d < P && d != s && CallAt(P, l, d) == CallAt(P, l, s) && In(s, CallAt(P, l, s))
    ensures var g := CallAt(P, l, d);
            && In(d, g) && Posts(g, d, s, SendTag(g, s, d)) && ReceiveRange(g, d, s) == SendRange(g, s)
  {
    var g := CallAt(P, l, s);
    CallMatches(g, s, d);
    NodeContains(World(P), s, P - l);
    SameNode(World(P), s, d, P - l);
  }

  /** The distance to the partner identifies the call: no message fits a receive of another call. */
  lemma {:induction false} OtherCall(P: nat, l: nat, m: nat, s: nat, d: nat)
    requires l <= P && m <= P && l != m && s < P && d in SendsTo(CallAt(P, m, s), s)
    ensures !Posts(CallAt(P, l, d), d, s, SendTag(CallAt(P, m, s), s, d))
  {
    LinkFacts(P, m, s, d);
    var g, h := CallAt(P, m, d), CallAt(P, l, d);
    if h.Group? {
      if l < m { Shrinks(World(P), d, P - m, P - l); } else { Shrinks(World(P), d, P - l, P - m); }
    }
  }

  lemma {:induction false} SourcesInCall<B>(P: nat, l: nat, r: nat, s: nat)
    requires l <= P && r < P
    ensures s in Rounds.Sources(AllgatherPlan<B>(P), l, r) <==> exists t :: Posts(CallAt(P, l, r), r, s, t)
  {
    var p := AllgatherPlan<B>(P);
    var g := CallAt(P, l, r);
    if s in Rounds.Sources(p, l, r) {
      LinkFacts(P, l, s, r);
      assert Posts(g, r, s, SendTag(g, s, r));
    }
    if t :| Posts(g, r, s, t) {
      CallComplete(g, r, s, t);
      NodeContains(World(P), r, P - l);
      SameNode(World(P), r, s, P - l);
    }
  }

  lemma {:induction false} RangeCard(lo: nat, hi: nat, a: set<nat>)
    requires lo <= hi && forall x: nat :: x in a <==> lo <= x < hi
    ensures |a| == hi - lo
  {
    if lo < hi {
      assert hi - 1 in a;
      RangeCard(lo, hi - 1, a - {hi - 1});
    } else {
      assert a == {};
    }
  }

  lemma {:induction false} SmallCount(g: Group, r: nat, from: set<nat>)
    requires Small(g) && In(r, g) && forall s: nat :: s in from <==> exists t :: Posts(g, r, s, t)
    ensures |from| == g.size - 1
  {
    forall s: nat ensures s in from <==> In(s, g) && s != r {
      if In(s, g) && s != r { assert Posts(g, r, s, SC_TAG_AG_ALLTOALL); }
    }
    RangeCard(g.base, g.base + g.size, from + {r});
  }

  /** In a large call there is one partner to receive from. */
  function Partner(g: Group, r: nat): nat
    requires Large(g) && In(r, g)
  {
    var g2 := g.size / 2;
    var g2B := g.size - g2;
    if r - g.base < g2 then r + g2 else if r - g.base == g.size - 1 && g2 != g2B then r - g2B else r - g2
  }

  lemma {:induction false} LargeCount(g: Group, r: nat, from: set<nat>)
    requires Large(g) && In(r, g) && forall s: nat :: s in from <==> exists t :: Posts(g, r, s, t)
    ensures from == {Partner(g, r)} && |from| == 1
  {
    assert exists t :: Posts(g, r, Partner(g, r), t) by {
      assert Posts(g, r, Partner(g, r), SC_TAG_AG_RECURSIVE_A) || Posts(g, r, Partner(g, r), SC_TAG_AG_RECURSIVE_B)
          || Posts(g, r, Partner(g, r), SC_TAG_AG_RECURSIVE_C);
    }
    assert Partner(g, r) in from;
    assert forall s :: s in from ==> s == Partner(g, r);
    assert from == {Partner(g, r)};
  }

  lemma {:induction false} CountInCall<B>(P: nat, l: nat, r: nat)
    requires l <= P && r < P
    ensures PostCount(CallAt(P, l, r), r) == |Rounds.Sources(AllgatherPlan<B>(P), l, r)|
  {
    var g, from := CallAt(P, l, r), Rounds.Sources(AllgatherPlan<B>(P), l, r);
    forall s: nat ensures s in from <==> exists t :: Posts(g, r, s, t) { SourcesInCall<B>(P, l, r, s); }
    if !In(r, g) {
      assert from == {};
    } else if Small(g) {
      SmallCount(g, r, from);
    } else {
      LargeCount(g, r, from);
    }
  }

  /** Every receive matches exactly one send, of the same call, with equal tag and length. */
  lemma {:induction false} PlanMatched<B>(P: nat)
    ensures Rounds.Matched(AllgatherPlan<B>(P))
  {
    var p := AllgatherPlan<B>(P);
    forall l: nat, s: nat, d: nat | Rounds.Link(p, l, s, d) ensures d < p.ranks { LinkFacts(P, l, s, d); }
    forall l: nat, r: nat | l < p.rounds && r < p.ranks ensures p.need(l, r) == |Rounds.Sources(p, l, r)| {
      CountInCall<B>(P, l, r);
    }
    forall l: nat, m: nat, s: nat, d: nat | l < p.rounds && Rounds.Link(p, m, s, d)
      ensures p.accepts(l, d, s, p.tag(m, s, d)) <==> l == m
    {
      if l == m { LinkFacts(P, l, s, d); } else { OtherCall(P, l, m, s, d); }
    }
  }

  // ---------------------------------------------------------------- the contents

  /** The blocks of all ranks, and the buffer each rank starts with: its own block in place, the rest arbitrary. */
  datatype Setup<B> = Setup(blocks: seq<B>, buffers: seq<seq<B>>)

  ghost predicate ValidSetup<B>(su: Setup<B>) {
    && |su.buffers| == |su.blocks|
    && forall r :: 0 <= r < |su.blocks| ==> |su.buffers[r]| == |su.blocks| && su.buffers[r][r] == su.blocks[r]
  }

  /** What r has once all calls at depth d and below have returned. */
  function Have(P: nat, d: nat, r: nat): (nat, nat) {
    var g := Node(World(P), r, d);
    if g.Group? then (g.base, g.base + g.size) else (r, r + 1)
  }

  /** The buffer of r with the blocks of its own range and those of the ranges of `got` in place. */
  ghost function Filled<B>(su: Setup<B>, d: nat, r: nat, got: set<nat>): seq<B>
    requires ValidSetup(su) && r < |su.blocks|
  {
    var P := |su.blocks|;
    seq(P, i requires 0 <= i < P =>
      if Covered(P, d, r, got, i) then su.blocks[i] else su.buffers[r][i])
  }

  ghost predicate Covered(P: nat, d: nat, r: nat, got: set<nat>, i: nat) {
    || Have(P, d, r).0 <= i < Have(P, d, r).1
    || exists s :: s in got && Have(P, d, s).0 <= i < Have(P, d, s).1
  }

  ghost function At<B>(su: Setup<B>): (nat, nat) -> seq<B>
    requires ValidSetup(su)
  {
    (l: nat, r: nat) => if l <= |su.blocks| + 1 && r < |su.blocks| then Filled(su, |su.blocks| + 1 - l, r, {}) else []
  }

  ghost function Part<B>(su: Setup<B>): (nat, nat, set<nat>) -> seq<B>
    requires ValidSetup(su)
  {
    (l: nat, r: nat, got: set<nat>) =>
      if l <= |su.blocks| && r < |su.blocks| then Filled(su, |su.blocks| + 1 - l, r, got) else []
  }

  /** What a rank sends in a call is what it has when the call below has returned. */
  lemma {:induction false} SendsWhatItHas(P: nat, l: nat, s: nat)
    requires l <= P && s < P && In(s, CallAt(P, l, s))
    ensures SendRange(CallAt(P, l, s), s) == Have(P, P + 1 - l, s)
    ensures Have(P, P + 1 - l, s).0 <= Have(P, P + 1 - l, s).1 <= P
  {
    NodeNext(World(P), s, P - l);
    NodeContains(World(P), s, P - l);
  }

  lemma {:induction false} CoverMore(P: nat, d: nat, r: nat, got: set<nat>, s: nat, i: nat)
    ensures Covered(P, d, r, got + {s}, i) <==> Covered(P, d, r, got, i) || Have(P, d, s).0 <= i < Have(P, d, s).1
  {
    assert s in got + {s};
  }

  lemma {:induction false} StoreFills<B>(su: Setup<B>, d: nat, r: nat, got: set<nat>, s: nat, range: (nat, nat))
    requires ValidSetup(su) && r < |su.blocks| && s < |su.blocks|
    requires range == Have(|su.blocks|, d, s) && range.0 <= range.1 <= |su.blocks|
    ensures Store(Filled(su, d, r, got), range, Slice(Filled(su, d, s, {}), range)) == Filled(su, d, r, got + {s})
  {
    var P := |su.blocks|;
    var m := Slice(Filled(su, d, s, {}), range);
    forall i: nat | i < |m| ensures m[i] == su.blocks[range.0 + i] {
      assert Covered(P, d, s, {}, range.0 + i);
      assert m[i] == Filled(su, d, s, {})[range.0 + i];
    }
    forall i: nat | i < P
      ensures Covered(P, d, r, got + {s}, i) <==> Covered(P, d, r, got, i) || range.0 <= i < range.1
    {
      CoverMore(P, d, r, got, s, i);
    }
  }

  lemma {:induction false} MergeFills<B>(su: Setup<B>, l: nat, r: nat, got: set<nat>, s: nat)
    requires ValidSetup(su) && l <= |su.blocks| && r < |su.blocks| && s < |su.blocks|
    requires r in SendsTo(CallAt(|su.blocks|, l, s), s)
    ensures var p := AllgatherPlan<B>(|su.blocks|);
            p.merge(l, r, Part(su)(l, r, got), s, p.message(l, s, At(su)(l, s), r)) == Part(su)(l, r, got + {s})
  {
    var P, d := |su.blocks|, |su.blocks| + 1 - l;
    LinkFacts(P, l, s, r);
    SendsWhatItHas(P, l, s);
    StoreFills(su, d, r, got, s, Have(P, d, s));
  }

  /** A call leaves its whole group in place. */
  lemma {:induction false} CallFills<B>(su: Setup<B>, l: nat, r: nat)
    requires ValidSetup(su) && l <= |su.blocks| && r < |su.blocks|
    ensures Part(su)(l, r, Rounds.Sources(AllgatherPlan<B>(|su.blocks|), l, r)) == At(su)(l + 1, r)
  {
    var P, d := |su.blocks|, |su.blocks| + 1 - l;
    var got := Rounds.Sources(AllgatherPlan<B>(P), l, r);
    forall i: nat | i < P ensures Covered(P, d, r, got, i) <==> Covered(P, d - 1, r, {}, i) {
      CallCovers<B>(P, l, r, i);
    }
    assert Filled(su, d, r, got) == Filled(su, d - 1, r, {});
  }

  /** Every block of the group comes from r itself or from one of its sources. */
  lemma {:induction false} SomeSource<B>(P: nat, l: nat, r: nat, i: nat) returns (s: nat)
    requires l <= P && r < P && In(i, CallAt(P, l, r)) && In(r, CallAt(P, l, r))
    requires !(SendRange(CallAt(P, l, r), r).0 <= i < SendRange(CallAt(P, l, r), r).1)
    ensures s in Rounds.Sources(AllgatherPlan<B>(P), l, r)
    ensures SendRange(CallAt(P, l, r), s).0 <= i < SendRange(CallAt(P, l, r), s).1
  {
    var g := CallAt(P, l, r);
    s := if Small(g) then i else Partner(g, r);
    var t := if Small(g) then SC_TAG_AG_ALLTOALL else if r < g.base + g.size / 2 then SC_TAG_AG_RECURSIVE_B
             else if r - g.base == g.size - 1 && g.size % 2 != 0 then SC_TAG_AG_RECURSIVE_C else SC_TAG_AG_RECURSIVE_A;
    assert Posts(g, r, s, t);
    SourcesInCall<B>(P, l, r, s);
  }

  lemma {:induction false} CallCovers<B>(P: nat, l: nat, r: nat, i: nat)
    requires l <= P && r < P && i < P
    ensures Covered(P, P + 1 - l, r, Rounds.Sources(AllgatherPlan<B>(P), l, r), i) <==> Covered(P, P - l, r, {}, i)
  {
    var d := P - l;
    var g, got := CallAt(P, l, r), Rounds.Sources(AllgatherPlan<B>(P), l, r);
    if g.Group? {
      NodeContains(World(P), r, d);
      SendsWhatItHas(P, l, r);
      forall s | s in got ensures In(s, g) && Have(P, d + 1, s) == SendRange(g, s) {
        LinkFacts(P, l, s, r);
        SendsWhatItHas(P, l, s);
      }
      if In(i, g) && !(Have(P, d + 1, r).0 <= i < Have(P, d + 1, r).1) {
        var s := SomeSource<B>(P, l, r, i);
      }
    } else {
      NodeNext(World(P), r, d);
      forall s: nat ensures s !in got { SourcesInCall<B>(P, l, r, s); }
    }
  }

  lemma {:induction false} PlanExplained<B(!new)>(su: Setup<B>)
    requires ValidSetup(su)
    ensures Rounds.Explains(AllgatherPlan<B>(|su.blocks|), At(su), Part(su))
  {
    var p, at, part := AllgatherPlan<B>(|su.blocks|), At(su), Part(su);
    forall l: nat, r: nat | l < p.rounds && r < p.ranks
      ensures part(l, r, Rounds.Sources(p, l, r)) == at(l + 1, r)
    {
      CallFills(su, l, r);
    }
    forall l: nat, r: nat, got: set<nat>, s: nat |
      l < p.rounds && r < p.ranks && s in Rounds.Sources(p, l, r) - got && got <= Rounds.Sources(p, l, r)
      ensures p.merge(l, r, part(l, r, got), s, p.message(l, s, at(l, s), r)) == part(l, r, got + {s})
    {
      MergeFills(su, l, r, got, s);
    }
  }

  lemma {:induction false} Ends<B(!new)>(su: Setup<B>, r: nat)
    requires ValidSetup(su) && r < |su.blocks|
    ensures At(su)(0, r) == su.buffers[r]
    ensures At(su)(|su.blocks| + 1, r) == su.blocks
  {
    var P := |su.blocks|;
    if Node(World(P), r, P + 1).Group? { DepthBound(World(P), r, P + 1); }
    assert Have(P, P + 1, r) == (r, r + 1);
    assert Have(P, 0, r) == (0, P);
    assert Filled(su, P + 1, r, {}) == su.buffers[r];
    assert Filled(su, 0, r, {}) == su.blocks;
  }

  /**
   sc_allgather, for every number of ranks, all data and every interleaving: the run is
   finite, some rank is ready and can move until all are through, and then every buffer holds the
   blocks of all ranks in order and no message is left.
   */
  lemma {:induction false} AllgatherRuns<B(!new)>(su: Setup<B>, run: seq<Rounds.State<seq<B>, seq<B>>>, i: nat)
    requires ValidSetup(su) && Rounds.IsRun(AllgatherPlan<B>(|su.blocks|), su.buffers, run) && i < |run|
    ensures var p, P := AllgatherPlan<B>(|su.blocks|), |su.blocks|;
      && |run| <= 1 + P * ((P + 1) * (2 * P + 1))
      && (!Rounds.Done(p, run[i]) ==> exists r: nat :: r < |run[i].local| && Rounds.Ready(p, run[i], r))
      && (!Rounds.Done(p, run[i]) ==> Rounds.CanMove(p, run[i]))
      && (Rounds.Done(p, run[i]) ==>
            && (forall k: Rounds.Key :: Rounds.Queue(run[i].net, k) == [])
            && |run[i].local| == P && (forall r: nat :: r < P ==> run[i].local[r].start == su.blocks))
  {
    var p := AllgatherPlan<B>(|su.blocks|);
    PlanMatched<B>(|su.blocks|);
    PlanExplained(su);
    forall r: nat | r < p.ranks
      ensures su.buffers[r] == At(su)(0, r) && At(su)(p.rounds, r) == su.blocks
    {
      Ends(su, r);
    }
    Rounds.RunBounded(p, At(su), Part(su), su.buffers, run);
    Rounds.RunInv(p, At(su), Part(su), su.buffers, run, i);
    if Rounds.Done(p, run[i]) {
      Rounds.DoneMeans(p, At(su), Part(su), run[i]);
    } else {
      Rounds.Progress(p, At(su), Part(su), run[i]);
    }
  }
}
