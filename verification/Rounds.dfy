/**
 Message passing in rounds, as every tree algorithm of the library uses it.

 A rank works through its rounds in order.  In a round it posts one nonblocking
 send to each of its destinations, accepts a fixed number of messages, folds each
 of them into its data, and waits for its own sends before it starts the next round.
 Nothing synchronises the ranks: at any time different ranks may be in different
 rounds, and a message may arrive long before its receiver is ready for it.

 The network holds one first-in first-out queue per (source, destination, tag),
 the ordering that section 3.5 of MPI 3.1 guarantees.
 */
module Rounds {

  type Key = (nat, nat, int)          // source, destination, tag
  type Net<M> = map<Key, seq<M>>

  /**
   The program that all ranks run.  `accepts` says which (source, tag) a receive
   posted in a round can match; a wildcard source accepts every source.
   */
  datatype Plan<!D, !M> = Plan(
    ranks: nat,
    rounds: nat,
    dests: (nat, nat) -> set<nat>,                // round, rank
    tag: (nat, nat, nat) -> int,                  // round, source, destination
    accepts: (nat, nat, nat, int) -> bool,        // round, rank, source, tag
    need: (nat, nat) -> nat,                      // round, rank: number of receives
    message: (nat, nat, D, nat) -> M,             // round, source, its data, destination
    keep: (nat, nat, D) -> D,                     // round, rank, its data
    merge: (nat, nat, D, nat, M) -> D)            // round, rank, its data, source, message

  /** One rank: `start` is its data when the round began, `acc` what it has built since. */
  datatype Local<D> = Local(round: nat, start: D, acc: D, posted: set<nat>, got: set<nat>, count: nat)

  datatype State<D, M> = State(local: seq<Local<D>>, net: Net<M>)

  function Queue<M>(net: Net<M>, k: Key): seq<M> {
    if k in net then net[k] else []
  }

  function Enter<D, M>(p: Plan<D, M>, round: nat, r: nat, data: D): Local<D> {
    Local(round, data, p.keep(round, r, data), {}, {}, 0)
  }

  ghost function Initial<D, M>(p: Plan<D, M>, data: seq<D>): State<D, M> {
    State(seq(|data|, r requires 0 <= r < |data| => Enter(p, 0, r, data[r])), map[])
  }

  // ---------------------------------------------------------------- transitions

  ghost predicate Post<D, M>(p: Plan<D, M>, a: State<D, M>, b: State<D, M>, r: nat, d: nat) {
    && r < |a.local|
    && var me := a.local[r];
    && me.round < p.rounds
    && d in p.dests(me.round, r) - me.posted
    && var k := (r, d, p.tag(me.round, r, d));
    && b.local == a.local[r := me.(posted := me.posted + {d})]
    && b.net == a.net[k := Queue(a.net, k) + [p.message(me.round, r, me.start, d)]]
  }

  ghost predicate Receive<D, M>(p: Plan<D, M>, a: State<D, M>, b: State<D, M>, r: nat, s: nat, t: int) {
    && r < |a.local|
    && var me := a.local[r];
    && me.round < p.rounds
    && me.count < p.need(me.round, r)
    && p.accepts(me.round, r, s, t)
    && var q := Queue(a.net, (s, r, t));
    && q != []
    && b.local == a.local[r := me.(acc := p.merge(me.round, r, me.acc, s, q[0]),
                                   got := me.got + {s}, count := me.count + 1)]
    && b.net == a.net[(s, r, t) := q[1..]]
  }

  ghost predicate Finish<D, M>(p: Plan<D, M>, a: State<D, M>, b: State<D, M>, r: nat) {
    && r < |a.local|
    && var me := a.local[r];
    && me.round < p.rounds
    && me.posted == p.dests(me.round, r)
    && me.count == p.need(me.round, r)
    && b.local == a.local[r := Enter(p, me.round + 1, r, me.acc)]
    && b.net == a.net
  }

  ghost predicate Next<D, M>(p: Plan<D, M>, a: State<D, M>, b: State<D, M>) {
    || (exists r: nat, d: nat :: Post(p, a, b, r, d))
    || (exists r: nat, s: nat, t: int :: Receive(p, a, b, r, s, t))
    || (exists r: nat :: Finish(p, a, b, r))
  }

  ghost predicate IsRun<D(!new), M(!new)>(p: Plan<D, M>, data: seq<D>, run: seq<State<D, M>>) {
    && |data| == p.ranks
    && run != []
    && run[0] == Initial(p, data)
    && forall i :: 0 <= i < |run| - 1 ==> Next(p, run[i], run[i + 1])
  }

  // ---------------------------------------------------------------- what makes a plan sound

  ghost predicate Link<D, M>(p: Plan<D, M>, l: nat, s: nat, d: nat) {
    l < p.rounds && s < p.ranks && d in p.dests(l, s)
  }

  ghost function Sources<D, M>(p: Plan<D, M>, l: nat, r: nat): set<nat> {
    set s: nat | s < p.ranks && r in p.dests(l, s)
  }

  /** Sends and receives match one to one, and a round never accepts another round's message. */
  ghost predicate Matched<D, M>(p: Plan<D, M>) {
    && (forall l: nat, s: nat, d: nat :: Link(p, l, s, d) ==> d < p.ranks)
    && (forall l: nat, r: nat :: l < p.rounds && r < p.ranks ==> p.need(l, r) == |Sources(p, l, r)|)
    && (forall l: nat, m: nat, s: nat, d: nat :: l < p.rounds && Link(p, m, s, d) ==>
          (p.accepts(l, d, s, p.tag(m, s, d)) <==> l == m))
  }

  /**
   The round-by-round account of the run: `at(l, r)` is the data of rank r at the start
   of round l, and `part(l, r, got)` its data once the messages of `got` are folded in.
   */
  ghost predicate Explains<D(!new), M(!new)>(p: Plan<D, M>, at: (nat, nat) -> D, part: (nat, nat, set<nat>) -> D) {
    forall l: nat, r: nat :: l < p.rounds && r < p.ranks ==>
      && part(l, r, {}) == p.keep(l, r, at(l, r))
      && part(l, r, Sources(p, l, r)) == at(l + 1, r)
      && (forall got: set<nat>, s: nat :: s in Sources(p, l, r) - got && got <= Sources(p, l, r) ==>
            p.merge(l, r, part(l, r, got), s, p.message(l, s, at(l, s), r)) == part(l, r, got + {s}))
  }

  ghost predicate StartsWith<D(!new), M>(p: Plan<D, M>, at: (nat, nat) -> D, data: seq<D>) {
    |data| == p.ranks && forall r: nat :: r < p.ranks ==> data[r] == at(0, r)
  }

  // ---------------------------------------------------------------- the invariant

  ghost predicate Sent<D, M>(st: State<D, M>, l: nat, s: nat, d: nat)
    requires s < |st.local|
  {
    st.local[s].round > l || (st.local[s].round == l && d in st.local[s].posted)
  }

  ghost predicate Taken<D, M>(st: State<D, M>, l: nat, s: nat, d: nat)
    requires d < |st.local|
  {
    st.local[d].round > l || (st.local[d].round == l && s in st.local[d].got)
  }

  ghost predicate LocalOk<D(!new), M(!new)>(p: Plan<D, M>, at: (nat, nat) -> D, part: (nat, nat, set<nat>) -> D, r: nat,
          me: Local<D>)
  {
    && me.round <= p.rounds
    && me.start == at(me.round, r)
    && me.count == |me.got|
    && (me.round < p.rounds ==>
          && me.posted <= p.dests(me.round, r)
          && me.got <= Sources(p, me.round, r)
          && me.acc == part(me.round, r, me.got))
    && (me.round == p.rounds ==> me.posted == {} && me.got == {})
  }

  ghost predicate QueueOk<D(!new), M(!new)>(p: Plan<D, M>, at: (nat, nat) -> D, st: State<D, M>, l: nat, s: nat, d: nat)
    requires s < |st.local| && d < |st.local|
  {
    && (Taken(st, l, s, d) ==> Sent(st, l, s, d))
    && Queue(st.net, (s, d, p.tag(l, s, d))) ==
       if Sent(st, l, s, d) && !Taken(st, l, s, d) then [p.message(l, s, at(l, s), d)] else []
  }

  ghost predicate Inv<D(!new), M(!new)>(p: Plan<D, M>, at: (nat, nat) -> D, part: (nat, nat, set<nat>) -> D,
          st: State<D, M>)
  {
    && |st.local| == p.ranks
    && (forall r: nat :: r < p.ranks ==> LocalOk(p, at, part, r, st.local[r]))
    && (forall l: nat, s: nat, d: nat :: Link(p, l, s, d) && d < p.ranks ==> QueueOk(p, at, st, l, s, d))
    && (forall k: Key :: Queue(st.net, k) != [] ==> exists l: nat :: Link(p, l, k.0, k.1) && p.tag(l, k.0, k.1) == k.2)
  }

  lemma {:induction false} InitialInv<D(!new), M(!new)>(p: Plan<D, M>, at: (nat, nat) -> D,
          part: (nat, nat, set<nat>) -> D, data: seq<D>)
    requires Matched(p) && Explains(p, at, part) && StartsWith(p, at, data)
    ensures Inv(p, at, part, Initial(p, data))
  {
  }

  lemma {:induction false} TagsDiffer<D, M>(p: Plan<D, M>, l: nat, m: nat, s: nat, d: nat)
    requires Matched(p) && Link(p, l, s, d) && Link(p, m, s, d) && l != m
    ensures p.tag(l, s, d) != p.tag(m, s, d)
  {
    assert p.accepts(l, d, s, p.tag(l, s, d));
    assert !p.accepts(l, d, s, p.tag(m, s, d));
  }

  lemma {:induction false} PostInv<D(!new), M(!new)>(p: Plan<D, M>, at: (nat, nat) -> D,
          part: (nat, nat, set<nat>) -> D, a: State<D, M>, b: State<D, M>, r: nat, d: nat)
    requires Matched(p) && Explains(p, at, part) && Inv(p, at, part, a) && Post(p, a, b, r, d)
    ensures Inv(p, at, part, b)
  {
    var l := a.local[r].round;
    var k := (r, d, p.tag(l, r, d));
    assert LocalOk(p, at, part, r, a.local[r]);
    assert Link(p, l, r, d);
    assert QueueOk(p, at, a, l, r, d);
    forall m: nat, s: nat, e: nat | Link(p, m, s, e) ensures QueueOk(p, at, b, m, s, e) {
      assert QueueOk(p, at, a, m, s, e);
      if (s, e) == (r, d) && m != l { TagsDiffer(p, l, m, r, d); }
    }
    forall j: Key | Queue(b.net, j) != []
      ensures exists m: nat :: Link(p, m, j.0, j.1) && p.tag(m, j.0, j.1) == j.2
    {
      if j == k { assert Link(p, l, j.0, j.1); } else { assert Queue(a.net, j) != []; }
    }
  }

  /** A message that a receive matches is the one its round expects, from a source not heard before. */
  lemma {:induction false} ReceivedIsExpected<D(!new), M(!new)>(p: Plan<D, M>, at: (nat, nat) -> D,
          part: (nat, nat, set<nat>) -> D, a: State<D, M>, b: State<D, M>, r: nat, s: nat, t: int)
    requires Matched(p) && Inv(p, at, part, a) && Receive(p, a, b, r, s, t)
    ensures r < p.ranks && var l := a.local[r].round;
            && Link(p, l, s, r) && t == p.tag(l, s, r) && s !in a.local[r].got
            && Queue(a.net, (s, r, t)) == [p.message(l, s, at(l, s), r)]
  {
    var l := a.local[r].round;
    var m: nat :| Link(p, m, s, r) && p.tag(m, s, r) == t;
    assert p.accepts(l, r, s, p.tag(m, s, r)) <==> l == m;
    assert QueueOk(p, at, a, l, s, r);
  }

  lemma {:induction false} ReceiveInv<D(!new), M(!new)>(p: Plan<D, M>, at: (nat, nat) -> D,
          part: (nat, nat, set<nat>) -> D, a: State<D, M>, b: State<D, M>, r: nat, s: nat, t: int)
    requires Matched(p) && Explains(p, at, part) && Inv(p, at, part, a) && Receive(p, a, b, r, s, t)
    ensures Inv(p, at, part, b)
  {
    ReceivedIsExpected(p, at, part, a, b, r, s, t);
    var l := a.local[r].round;
    assert LocalOk(p, at, part, r, a.local[r]);
    assert s in Sources(p, l, r) - a.local[r].got;
    forall m: nat, v: nat, e: nat | Link(p, m, v, e) ensures QueueOk(p, at, b, m, v, e) {
      assert QueueOk(p, at, a, m, v, e);
      if (v, e) == (s, r) && m != l { TagsDiffer(p, l, m, s, r); }
    }
    forall j: Key | Queue(b.net, j) != []
      ensures exists m: nat :: Link(p, m, j.0, j.1) && p.tag(m, j.0, j.1) == j.2
    {
      assert Queue(a.net, j) != [];
    }
  }

  lemma {:induction false} FullSubset(a: set<nat>, b: set<nat>)
    requires a <= b && |a| == |b|
    ensures a == b
  {
    assert |b| == |a| + |b - a|;
    assert b == a + (b - a);
  }

  lemma {:induction false} FinishInv<D(!new), M(!new)>(p: Plan<D, M>, at: (nat, nat) -> D,
          part: (nat, nat, set<nat>) -> D, a: State<D, M>, b: State<D, M>, r: nat)
    requires Matched(p) && Explains(p, at, part) && Inv(p, at, part, a) && Finish(p, a, b, r)
    ensures Inv(p, at, part, b)
  {
    var me := a.local[r];
    assert LocalOk(p, at, part, r, me);
    FullSubset(me.got, Sources(p, me.round, r));
    assert me.acc == at(me.round + 1, r);
    forall m: nat, v: nat, e: nat | Link(p, m, v, e) ensures QueueOk(p, at, b, m, v, e) {
      assert QueueOk(p, at, a, m, v, e);
      if m == me.round {
        if e == r { assert v in Sources(p, m, r); }
      }
    }
  }

  lemma {:induction false} NextInv<D(!new), M(!new)>(p: Plan<D, M>, at: (nat, nat) -> D,
          part: (nat, nat, set<nat>) -> D, a: State<D, M>, b: State<D, M>)
    requires Matched(p) && Explains(p, at, part) && Inv(p, at, part, a) && Next(p, a, b)
    ensures Inv(p, at, part, b)
  {
    if r: nat, d: nat :| Post(p, a, b, r, d) {
      PostInv(p, at, part, a, b, r, d);
    } else if r: nat, s: nat, t: int :| Receive(p, a, b, r, s, t) {
      ReceiveInv(p, at, part, a, b, r, s, t);
    } else {
      var r: nat :| Finish(p, a, b, r);
      FinishInv(p, at, part, a, b, r);
    }
  }

  /** Every state of every run satisfies the invariant. */
  lemma {:induction false} RunInv<D(!new), M(!new)>(p: Plan<D, M>, at: (nat, nat) -> D, part: (nat, nat, set<nat>) -> D,
          data: seq<D>, run: seq<State<D, M>>, i: nat)
    requires Matched(p) && Explains(p, at, part) && StartsWith(p, at, data) && IsRun(p, data, run) && i < |run|
    ensures Inv(p, at, part, run[i])
  {
    if i == 0 {
      InitialInv(p, at, part, data);
    } else {
      RunInv(p, at, part, data, run, i - 1);
      assert Next(p, run[i - 1], run[i - 1 + 1]);
      NextInv(p, at, part, run[i - 1], run[i]);
    }
  }

  // ---------------------------------------------------------------- the end of a run

  ghost predicate Done<D, M>(p: Plan<D, M>, st: State<D, M>) {
    forall r: nat :: r < |st.local| ==> st.local[r].round == p.rounds
  }

  /** When all ranks are through, no message is left and the data is that of the account. */
  lemma {:induction false} DoneMeans<D(!new), M(!new)>(p: Plan<D, M>, at: (nat, nat) -> D,
          part: (nat, nat, set<nat>) -> D, st: State<D, M>)
    requires Matched(p) && Inv(p, at, part, st) && Done(p, st)
    ensures forall k: Key :: Queue(st.net, k) == []
    ensures forall r: nat :: r < p.ranks ==> st.local[r].start == at(p.rounds, r)
  {
    forall l: nat, s: nat, d: nat | Link(p, l, s, d) ensures Queue(st.net, (s, d, p.tag(l, s, d))) == [] {
      assert QueueOk(p, at, st, l, s, d);
    }
    forall r: nat | r < p.ranks ensures st.local[r].start == at(p.rounds, r) {
      assert LocalOk(p, at, part, r, st.local[r]);
    }
  }

  /**
   What rank r can do now without help from the network or another rank: post a send;
   receive from any source that it still lacks, whichever it names or none; or, with
   everything received and every own send matched, complete the round.
   */
  ghost predicate Ready<D, M>(p: Plan<D, M>, st: State<D, M>, r: nat)
    requires r < |st.local|
  {
    var me := st.local[r];
    && me.round < p.rounds
    && ( || me.posted < p.dests(me.round, r)
         || (me.count < p.need(me.round, r)
             && forall s: nat :: s in Sources(p, me.round, r) - me.got ==>
                  Queue(st.net, (s, r, p.tag(me.round, s, r))) != [])
         || (me.count == p.need(me.round, r)
             && forall d: nat :: d in p.dests(me.round, r) ==>
                  Queue(st.net, (r, d, p.tag(me.round, r, d))) == []))
  }

  /** Some transition is possible. */
  ghost predicate CanMove<D(!new), M(!new)>(p: Plan<D, M>, st: State<D, M>) {
    exists b: State<D, M> :: Next(p, st, b)
  }

  lemma {:induction false} Missing(a: set<nat>, b: set<nat>) returns (x: nat)
    requires a <= b && a != b
    ensures x in b - a
  {
    assert exists y :: y in b && y !in a;
    x :| x in b && x !in a;
  }

  /** A ready rank has a transition. */
  lemma {:induction false} ReadyMoves<D(!new), M(!new)>(p: Plan<D, M>, at: (nat, nat) -> D,
          part: (nat, nat, set<nat>) -> D, st: State<D, M>, r: nat)
    requires Matched(p) && Inv(p, at, part, st) && r < |st.local| && Ready(p, st, r)
    ensures CanMove(p, st)
  {
    var me := st.local[r];
    var l := me.round;
    assert LocalOk(p, at, part, r, me);
    if me.posted != p.dests(l, r) {
      var d := Missing(me.posted, p.dests(l, r));
      var k := (r, d, p.tag(l, r, d));
      var b := State(st.local[r := me.(posted := me.posted + {d})],
                     st.net[k := Queue(st.net, k) + [p.message(l, r, me.start, d)]]);
      assert Post(p, st, b, r, d);
      assert Next(p, st, b);
    } else if me.count < p.need(l, r) {
      ReceiveMoves(p, at, part, st, r);
    } else {
      var b := State(st.local[r := Enter(p, l + 1, r, me.acc)], st.net);
      assert Finish(p, st, b, r);
      assert Next(p, st, b);
    }
  }

  lemma {:induction false} ReceiveMoves<D(!new), M(!new)>(p: Plan<D, M>, at: (nat, nat) -> D,
          part: (nat, nat, set<nat>) -> D, st: State<D, M>, r: nat)
    requires Matched(p) && Inv(p, at, part, st) && r < |st.local| && Ready(p, st, r)
    requires var me := st.local[r]; me.posted == p.dests(me.round, r) && me.count < p.need(me.round, r)
    ensures CanMove(p, st)
  {
    var me := st.local[r];
    var l := me.round;
    assert LocalOk(p, at, part, r, me);
    assert me.got != Sources(p, l, r);
    var s := Missing(me.got, Sources(p, l, r));
    var t := p.tag(l, s, r);
    var q := Queue(st.net, (s, r, t));
    assert Link(p, l, s, r) && p.accepts(l, r, s, t) && q != [];
    var now := me.(acc := p.merge(l, r, me.acc, s, q[0]), got := me.got + {s}, count := me.count + 1);
    var b := State(st.local[r := now], st.net[(s, r, t) := q[1..]]);
    assert Receive(p, st, b, r, s, t);
    assert Next(p, st, b);
  }

  lemma {:induction false} Slowest<D, M>(st: State<D, M>) returns (r: nat)
    requires st.local != []
    ensures r < |st.local| && forall q: nat :: q < |st.local| ==> st.local[r].round <= st.local[q].round
  {
    r := 0;
    for i := 1 to |st.local|
      invariant r < i && forall q: nat :: q < i ==> st.local[r].round <= st.local[q].round
    {
      if st.local[i].round < st.local[r].round { r := i; }
    }
  }

  /** No deadlock: until all ranks are through, one of them is ready and the run can go on. */
  lemma {:induction false} Progress<D(!new), M(!new)>(p: Plan<D, M>, at: (nat, nat) -> D,
          part: (nat, nat, set<nat>) -> D, st: State<D, M>)
    requires Matched(p) && Inv(p, at, part, st) && !Done(p, st)
    ensures exists r: nat :: r < |st.local| && Ready(p, st, r)
    ensures CanMove(p, st)
  {
    SomeReady(p, at, part, st);
    var r: nat :| r < |st.local| && Ready(p, st, r);
    ReadyMoves(p, at, part, st, r);
  }

  lemma {:induction false} SomeReady<D(!new), M(!new)>(p: Plan<D, M>, at: (nat, nat) -> D,
          part: (nat, nat, set<nat>) -> D, st: State<D, M>)
    requires Matched(p) && Inv(p, at, part, st) && !Done(p, st)
    ensures exists r: nat :: r < |st.local| && Ready(p, st, r)
  {
    var r := Slowest(st);
    var l := st.local[r].round;
    assert LocalOk(p, at, part, r, st.local[r]);
    assert l < p.rounds by {
      var q: nat :| q < |st.local| && st.local[q].round != p.rounds;
      assert LocalOk(p, at, part, q, st.local[q]);
    }
    if q: nat :| q < p.ranks && st.local[q].round == l && st.local[q].posted != p.dests(l, q) {
      assert LocalOk(p, at, part, q, st.local[q]);
      assert Ready(p, st, q);
    } else if q: nat :| q < p.ranks && st.local[q].round == l && st.local[q].got != Sources(p, l, q) {
      ReadyToReceive(p, at, part, st, l, q);
    } else {
      forall d: nat | d in p.dests(l, r) ensures Queue(st.net, (r, d, p.tag(l, r, d))) == [] {
        assert Link(p, l, r, d);
        assert QueueOk(p, at, st, l, r, d);
        assert st.local[d].round == l ==> r in Sources(p, l, d);
      }
      assert Ready(p, st, r);
    }
  }

  lemma {:induction false} ReadyToReceive<D(!new), M(!new)>(p: Plan<D, M>, at: (nat, nat) -> D,
          part: (nat, nat, set<nat>) -> D, st: State<D, M>, l: nat, q: nat)
    requires Matched(p) && Inv(p, at, part, st) && l < p.rounds && q < p.ranks
    requires st.local[q].round == l && st.local[q].got != Sources(p, l, q)
    requires forall s: nat :: s < p.ranks ==> l <= st.local[s].round
    requires forall s: nat :: s < p.ranks && st.local[s].round == l ==> st.local[s].posted == p.dests(l, s)
    ensures Ready(p, st, q)
  {
    var me := st.local[q];
    assert LocalOk(p, at, part, q, me);
    assert Sources(p, l, q) == me.got + (Sources(p, l, q) - me.got);
    if |me.got| == |Sources(p, l, q)| { FullSubset(me.got, Sources(p, l, q)); }
    assert |Sources(p, l, q)| == |me.got| + |Sources(p, l, q) - me.got|;
    forall s: nat | s in Sources(p, l, q) - me.got
      ensures Queue(st.net, (s, q, p.tag(l, s, q))) != []
    {
      assert Link(p, l, s, q);
      assert QueueOk(p, at, st, l, s, q);
    }
  }

  // ---------------------------------------------------------------- termination

  /** k * w, unfolded one round at a time. */
  ghost function Times(k: nat, w: nat): nat {
    if k == 0 then 0 else w + Times(k - 1, w)
  }

  lemma {:induction false} TimesIsProduct(k: nat, w: nat)
    ensures Times(k, w) == k * w
  {
    if k > 0 {
      TimesIsProduct(k - 1, w);
      assert k * w == (k - 1) * w + w;
    }
  }

  ghost function LocalWork<D, M>(p: Plan<D, M>, me: Local<D>): int {
    (if me.round <= p.rounds then Times(p.rounds - me.round, 2 * p.ranks + 1) else 0) - |me.posted| - me.count
  }

  ghost function Work<D, M>(p: Plan<D, M>, local: seq<Local<D>>): int {
    if local == [] then 0 else LocalWork(p, local[0]) + Work(p, local[1..])
  }

  lemma {:induction false} WorkUpdate<D, M>(p: Plan<D, M>, local: seq<Local<D>>, r: nat, me: Local<D>)
    requires r < |local|
    ensures Work(p, local[r := me]) == Work(p, local) - LocalWork(p, local[r]) + LocalWork(p, me)
  {
    if r == 0 {
      assert local[r := me][1..] == local[1..];
    } else {
      assert local[r := me][1..] == local[1..][r - 1 := me];
      WorkUpdate(p, local[1..], r - 1, me);
    }
  }

  lemma {:induction false} BelowCard(a: set<nat>, n: nat)
    requires forall x :: x in a ==> x < n
    ensures |a| <= n
  {
    if n > 0 {
      BelowCard(a - {n - 1}, n - 1);
      assert n - 1 in a ==> a == (a - {n - 1}) + {n - 1};
    } else {
      assert a == {};
    }
  }

  lemma {:induction false} LocalWorkBounds<D(!new), M(!new)>(p: Plan<D, M>, at: (nat, nat) -> D,
          part: (nat, nat, set<nat>) -> D, r: nat, me: Local<D>)
    requires Matched(p) && r < p.ranks && LocalOk(p, at, part, r, me)
    ensures |me.posted| <= p.ranks && me.count <= p.ranks
    ensures LocalWork(p, me) >= 0
  {
    if me.round < p.rounds {
      forall x | x in me.posted ensures x < p.ranks { assert Link(p, me.round, r, x); }
      BelowCard(me.posted, p.ranks);
      BelowCard(me.got, p.ranks);
    }
  }

  lemma {:induction false} WorkNonnegative<D(!new), M(!new)>(p: Plan<D, M>, local: seq<Local<D>>)
    requires forall r: nat :: r < |local| ==> LocalWork(p, local[r]) >= 0
    ensures Work(p, local) >= 0
  {
    if local != [] { WorkNonnegative(p, local[1..]); }
  }

  lemma {:induction false} InitialWork<D, M>(p: Plan<D, M>, local: seq<Local<D>>)
    requires forall r: nat :: r < |local| ==> local[r].round == 0 && local[r].posted == {} && local[r].count == 0
    ensures Work(p, local) == Times(|local|, Times(p.rounds, 2 * p.ranks + 1))
  {
    if local != [] { InitialWork(p, local[1..]); }
  }

  lemma {:induction false} PostWork<D, M>(p: Plan<D, M>, a: State<D, M>, b: State<D, M>, r: nat, d: nat)
    requires Post(p, a, b, r, d)
    ensures Work(p, b.local) < Work(p, a.local)
  {
    assert |b.local[r].posted| == |a.local[r].posted| + 1;
    WorkUpdate(p, a.local, r, b.local[r]);
  }

  lemma {:induction false} ReceiveWork<D, M>(p: Plan<D, M>, a: State<D, M>, b: State<D, M>, r: nat, s: nat, t: int)
    requires Receive(p, a, b, r, s, t)
    ensures Work(p, b.local) < Work(p, a.local)
  {
    WorkUpdate(p, a.local, r, b.local[r]);
  }

  lemma {:induction false} FinishWork<D(!new), M(!new)>(p: Plan<D, M>, at: (nat, nat) -> D,
          part: (nat, nat, set<nat>) -> D, a: State<D, M>, b: State<D, M>, r: nat)
    requires Matched(p) && Inv(p, at, part, a) && Finish(p, a, b, r)
    ensures Work(p, b.local) < Work(p, a.local)
  {
    LocalWorkBounds(p, at, part, r, a.local[r]);
    WorkUpdate(p, a.local, r, b.local[r]);
  }

  lemma {:induction false} NextWork<D(!new), M(!new)>(p: Plan<D, M>, at: (nat, nat) -> D,
          part: (nat, nat, set<nat>) -> D, a: State<D, M>, b: State<D, M>)
    requires Matched(p) && Inv(p, at, part, a) && Next(p, a, b)
    ensures Work(p, b.local) < Work(p, a.local)
  {
    if r: nat, d: nat :| Post(p, a, b, r, d) {
      PostWork(p, a, b, r, d);
    } else if r: nat, s: nat, t: int :| Receive(p, a, b, r, s, t) {
      ReceiveWork(p, a, b, r, s, t);
    } else {
      var r: nat :| Finish(p, a, b, r);
      FinishWork(p, at, part, a, b, r);
    }
  }

  /** Every run is finite: its length is bounded by the size of the plan alone. */
  lemma {:induction false} RunWork<D(!new), M(!new)>(p: Plan<D, M>, at: (nat, nat) -> D,
          part: (nat, nat, set<nat>) -> D, data: seq<D>, run: seq<State<D, M>>, i: nat)
    requires Matched(p) && Explains(p, at, part) && StartsWith(p, at, data) && IsRun(p, data, run) && i < |run|
    ensures Work(p, run[i].local) + i <= Work(p, run[0].local)
  {
    if i > 0 {
      RunWork(p, at, part, data, run, i - 1);
      RunInv(p, at, part, data, run, i - 1);
      assert Next(p, run[i - 1], run[i - 1 + 1]);
      NextWork(p, at, part, run[i - 1], run[i]);
    }
  }

  lemma {:induction false} RunBounded<D(!new), M(!new)>(p: Plan<D, M>, at: (nat, nat) -> D,
          part: (nat, nat, set<nat>) -> D, data: seq<D>, run: seq<State<D, M>>)
    requires Matched(p) && Explains(p, at, part) && StartsWith(p, at, data) && IsRun(p, data, run)
    ensures |run| <= 1 + p.ranks * (p.rounds * (2 * p.ranks + 1))
  {
    RunTimes(p, at, part, data, run);
    TimesIsProduct(p.rounds, 2 * p.ranks + 1);
    TimesIsProduct(p.ranks, Times(p.rounds, 2 * p.ranks + 1));
  }

  lemma {:induction false} RunTimes<D(!new), M(!new)>(p: Plan<D, M>, at: (nat, nat) -> D,
          part: (nat, nat, set<nat>) -> D, data: seq<D>, run: seq<State<D, M>>)
    requires Matched(p) && Explains(p, at, part) && StartsWith(p, at, data) && IsRun(p, data, run)
    ensures |run| <= 1 + Times(p.ranks, Times(p.rounds, 2 * p.ranks + 1))
  {
    InitialWork(p, run[0].local);
    RunWork(p, at, part, data, run, |run| - 1);
    RunInv(p, at, part, data, run, |run| - 1);
    WorkLeft(p, at, part, run[|run| - 1]);
  }

  lemma {:induction false} WorkLeft<D(!new), M(!new)>(p: Plan<D, M>, at: (nat, nat) -> D,
          part: (nat, nat, set<nat>) -> D, st: State<D, M>)
    requires Matched(p) && Inv(p, at, part, st)
    ensures Work(p, st.local) >= 0
  {
    forall r: nat | r < |st.local| ensures LocalWork(p, st.local[r]) >= 0 {
      LocalWorkBounds(p, at, part, r, st.local[r]);
    }
    WorkNonnegative(p, st.local);
  }
}
