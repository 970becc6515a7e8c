/**
 The hash array of src/sc_containers.c: objects in an array, found through a hash table of
 their indices.  The index -1 stands for the object of the call in progress.
 */
module HashArray {
  import opened Hash

  /** What index l means while `current` is the object of the call. */
  function Object<O>(a: seq<O>, current: O, l: int): O {
    if 0 <= l < |a| then a[l] else current
  }

  /** The functions the table uses, derived from those of the user. */
  function IndexFns<O>(user: Fns<O>, a: seq<O>, current: O): Fns<int> {
    Fns((l: int) => user.hash(Object(a, current, l)),
        (l: int, m: int) => user.eq(Object(a, current, l), Object(a, current, m)))
  }

  lemma {:induction false} IndexFnsAre<O>(user: Fns<O>, a: seq<O>, current: O, l: int, m: int)
    ensures IndexFns(user, a, current).hash(l) == user.hash(Object(a, current, l))
    ensures IndexFns(user, a, current).eq(l, m) == user.eq(Object(a, current, l), Object(a, current, m))
  {
  }

  lemma {:induction false} IndexLawful<O(!new)>(user: Fns<O>, a: seq<O>, current: O)
    requires Lawful(user)
    ensures Lawful(IndexFns(user, a, current))
  {
    var f := IndexFns(user, a, current);
    forall x ensures f.eq(x, x) { IndexFnsAre(user, a, current, x, x); }
    forall x, y | f.eq(x, y) ensures f.eq(y, x) && f.hash(x) == f.hash(y) {
      IndexFnsAre(user, a, current, x, y);
      IndexFnsAre(user, a, current, y, x);
    }
    forall x, y, z | f.eq(x, y) && f.eq(y, z) ensures f.eq(x, z) {
      IndexFnsAre(user, a, current, x, y);
      IndexFnsAre(user, a, current, y, z);
      IndexFnsAre(user, a, current, x, z);
    }
  }

  /** Two views of the table that agree on what the slots hold place it alike. */
  lemma {:induction false} PlacedAlike(slots: Slots<int>, f: Fns<int>, t: Slots<int>, g: Fns<int>)
    requires Placed(slots, f) && |slots| == |t|
    requires forall i :: 0 <= i < |t| ==> |t[i]| == |slots[i]|
    requires forall i, j :: 0 <= i < |t| && 0 <= j < |t[i]| ==> f.hash(slots[i][j]) == g.hash(t[i][j])
    requires forall i, j, k :: 0 <= i < |t| && 0 <= j < k < |t[i]| ==>
               (g.eq(t[i][j], t[i][k]) ==> f.eq(slots[i][j], slots[i][k]))
    ensures Placed(t, g)
  {
  }

  /** The slots hold each index of `a` once, placed by the objects of `a`; no sentinel. */
  ghost predicate Indexes<O(!new)>(user: Fns<O>, a: seq<O>, slots: Slots<int>) {
    && (forall l :: Holds(slots, l) <==> 0 <= l < |a|)
    && (forall current :: Placed(slots, IndexFns(user, a, current)))
  }

  lemma {:induction false} AnyCurrent<O(!new)>(user: Fns<O>, a: seq<O>, slots: Slots<int>, x: O, y: O)
    requires Placed(slots, IndexFns(user, a, x)) && forall l :: Holds(slots, l) ==> 0 <= l < |a|
    ensures Placed(slots, IndexFns(user, a, y))
  {
    forall i, j | 0 <= i < |slots| && 0 <= j < |slots[i]| ensures 0 <= slots[i][j] < |a| {
      assert slots[i][j] in slots[i];
      assert Holds(slots, slots[i][j]);
    }
    forall l | 0 <= l < |a| ensures IndexFns(user, a, x).hash(l) == IndexFns(user, a, y).hash(l) {
      IndexFnsAre(user, a, x, l, l);
      IndexFnsAre(user, a, y, l, l);
    }
    forall l, m | 0 <= l < |a| && 0 <= m < |a|
      ensures IndexFns(user, a, x).eq(l, m) == IndexFns(user, a, y).eq(l, m)
    {
      IndexFnsAre(user, a, x, l, m);
      IndexFnsAre(user, a, y, l, m);
    }
    PlacedAlike(slots, IndexFns(user, a, x), slots, IndexFns(user, a, y));
  }

  /** Objects at different positions are never equal. */
  lemma {:induction false} NoEquals<O(!new)>(user: Fns<O>, a: seq<O>, slots: Slots<int>, i: nat, j: nat)
    requires Lawful(user) && |slots| > 0 && Indexes(user, a, slots) && i < |a| && j < |a| && user.eq(a[i], a[j])
    ensures i == j
  {
    IndexLawful(user, a, a[i]);
    IndexFnsAre(user, a, a[i], i, j);
    OneMatch(slots, IndexFns(user, a, a[i]), i, j);
  }

  /** The sentinel stands for v as the new last index does, whatever the current object is. */
  lemma {:induction false} SentinelAlike<O(!new)>(user: Fns<O>, a: seq<O>, v: O, current: O)
    ensures var f, g, n := IndexFns(user, a, v), IndexFns(user, a + [v], current), |a|;
            && (forall l :: -1 <= l < n ==> f.hash(l) == g.hash(if l == -1 then n else l))
            && (forall l, m :: -1 <= l < n && -1 <= m < n ==>
                  f.eq(l, m) == g.eq(if l == -1 then n else l, if m == -1 then n else m))
  {
    var f, g, n := IndexFns(user, a, v), IndexFns(user, a + [v], current), |a|;
    forall l | -1 <= l < n ensures f.hash(l) == g.hash(if l == -1 then n else l) {
      IndexFnsAre(user, a, v, l, l);
      IndexFnsAre(user, a + [v], current, if l == -1 then n else l, l);
    }
    forall l, m | -1 <= l < n && -1 <= m < n
      ensures f.eq(l, m) == g.eq(if l == -1 then n else l, if m == -1 then n else m)
    {
      var x, y := if l == -1 then n else l, if m == -1 then n else m;
      IndexFnsAre(user, a, v, l, m);
      IndexFnsAre(user, a + [v], current, x, y);
    }
  }

  /** The entry (h, k) changes from the sentinel to the index of the new element. */
  lemma {:induction false} ReplaceSentinel<O(!new)>(user: Fns<O>, a: seq<O>, v: O, slots: Slots<int>, h: nat, k: nat)
    requires Lawful(user) && |slots| > 0 && Placed(slots, IndexFns(user, a, v))
    requires forall l :: Holds(slots, l) <==> 0 <= l < |a| || l == -1
    requires h < |slots| && k < |slots[h]| && slots[h][k] == -1
    ensures var t := slots[h := slots[h][k := |a|]];
            Indexes(user, a + [v], t) && Count(t) == Count(slots)
  {
    var t, n, f := slots[h := slots[h][k := |a|]], |a|, IndexFns(user, a, v);
    IndexLawful(user, a, v);
    CountUpdate(slots, h, slots[h][k := n]);
    forall i, j | 0 <= i < |slots| && 0 <= j < |slots[i]|
      ensures -1 <= slots[i][j] < n && (slots[i][j] == -1 <==> (i, j) == (h, k))
    {
      assert slots[i][j] in slots[i];
      assert Holds(slots, slots[i][j]);
      if slots[i][j] == -1 {
        assert f.hash(slots[i][j]) % |slots| == i && f.hash(slots[h][k]) % |slots| == h;
        assert f.eq(-1, -1);
      }
    }
    forall current ensures Placed(t, IndexFns(user, a + [v], current)) {
      SentinelAlike(user, a, v, current);
      PlacedAlike(slots, f, t, IndexFns(user, a + [v], current));
    }
    forall l ensures Holds(t, l) <==> 0 <= l < n + 1 { ReplaceHolds(a, slots, h, k, l); }
  }

  lemma {:induction false} ReplaceHolds<O>(a: seq<O>, slots: Slots<int>, h: nat, k: nat, l: int)
    requires h < |slots| && k < |slots[h]|
    requires forall i, j :: 0 <= i < |slots| && 0 <= j < |slots[i]| ==> (slots[i][j] == -1 <==> (i, j) == (h, k))
    requires forall l :: Holds(slots, l) <==> 0 <= l < |a| || l == -1
    ensures Holds(slots[h := slots[h][k := |a|]], l) <==> 0 <= l < |a| + 1
  {
    var t, n := slots[h := slots[h][k := |a|]], |a|;
    if l == n {
      assert t[h][k] == n && n in t[h];
    } else if 0 <= l < n {
      assert Holds(slots, l);
      var i :| 0 <= i < |slots| && l in slots[i];
      var j :| 0 <= j < |slots[i]| && slots[i][j] == l;
      assert t[i][j] == l && l in t[i];
    }
    if Holds(t, l) && l != n {
      var i :| 0 <= i < |t| && l in t[i];
      var j :| 0 <= j < |t[i]| && t[i][j] == l;
      assert slots[i][j] == l && l in slots[i];
      assert Holds(slots, l);
    }
  }

  ghost predicate InRange<O>(a: seq<O>, slots: Slots<int>) {
    forall l :: Holds(slots, l) ==> 0 <= l < |a|
  }

  ghost function SlotOf<O>(user: Fns<O>, slots: Slots<int>, v: O): seq<int>
    requires |slots| > 0
  {
    slots[user.hash(v) % |slots|]
  }

  /** Entry k of the list is the position, its object is equal to v, and no earlier one is. */
  ghost predicate FirstAt<O>(user: Fns<O>, a: seq<O>, list: seq<int>, v: O, position: int, k: int) {
    && 0 <= k < |list| && list[k] == position && 0 <= position < |a| && user.eq(a[position], v)
    && forall j :: 0 <= j < k ==> 0 <= list[j] < |a| && !user.eq(a[list[j]], v)
  }

  ghost predicate First<O>(user: Fns<O>, a: seq<O>, list: seq<int>, v: O, position: int) {
    exists k :: FirstAt(user, a, list, v, position, k)
  }

  lemma {:induction false} FirstUnique<O>(user: Fns<O>, a: seq<O>, list: seq<int>, v: O, p: int, q: int)
    requires First(user, a, list, v, p) && First(user, a, list, v, q)
    ensures p == q
  {
    var k :| FirstAt(user, a, list, v, p, k);
    var l :| FirstAt(user, a, list, v, q, l);
    assert !(k < l) && !(l < k);
  }

  lemma {:induction false} FirstHolds<O>(user: Fns<O>, a: seq<O>, slots: Slots<int>, v: O, p: int)
    requires |slots| > 0 && First(user, a, SlotOf(user, slots, v), v, p)
    ensures 0 <= p < |a| && user.eq(a[p], v) && p in SlotOf(user, slots, v) && Holds(slots, p)
  {
    var k :| FirstAt(user, a, SlotOf(user, slots, v), v, p, k);
  }

  /** In a right table the search for an element finds that element. */
  lemma {:induction false} ValidFirst<O(!new)>(user: Fns<O>, a: seq<O>, slots: Slots<int>, i: nat)
    requires Lawful(user) && |slots| > 0 && Indexes(user, a, slots) && i < |a|
    ensures First(user, a, SlotOf(user, slots, a[i]), a[i], i)
  {
    var f, list := IndexFns(user, a, a[i]), SlotOf(user, slots, a[i]);
    IndexLawful(user, a, a[i]);
    IndexFnsAre(user, a, a[i], i, i);
    assert user.eq(a[i], a[i]) && f.eq(i, i);
    OnlyInSlot(slots, f, i, i);
    var k :| 0 <= k < |list| && list[k] == i;
    forall j | 0 <= j < k ensures 0 <= list[j] < |a| && !user.eq(a[list[j]], a[i]) {
      assert list[j] in list && Holds(slots, list[j]);
      IndexFnsAre(user, a, a[i], list[j], i);
      assert Placed(slots, f);
    }
    assert FirstAt(user, a, list, a[i], i, k);
  }

  /** If every search finds its element and there are no further entries, the table is right. */
  lemma {:induction false} AllFirst<O(!new)>(user: Fns<O>, a: seq<O>, slots: Slots<int>)
    requires Lawful(user) && |slots| > 0 && InRange(a, slots) && Count(slots) == |a|
    requires forall i :: 0 <= i < |a| ==> First(user, a, SlotOf(user, slots, a[i]), a[i], i)
    ensures Indexes(user, a, slots)
  {
    forall i | 0 <= i < |a| ensures Holds(slots, i) { FirstHolds(user, a, slots, a[i], i); }
    AllIndices(slots, |a|);
    forall i, j | 0 <= i < |slots| && 0 <= j < |slots[i]|
      ensures 0 <= slots[i][j] < |a| && user.hash(a[slots[i][j]]) % |slots| == i
    {
      InOwnSlot(user, a, slots, i, j);
    }
    forall i, j, k | 0 <= i < |slots| && 0 <= j < k < |slots[i]| ensures !user.eq(a[slots[i][j]], a[slots[i][k]]) {
      NoTwins(user, a, slots, i, j, k);
    }
    forall current ensures Placed(slots, IndexFns(user, a, current)) {
      PlacedByObjects(user, a, slots, current);
    }
  }

  lemma {:induction false} AllIndices(slots: Slots<int>, n: nat)
    requires Count(slots) == n && forall l :: Holds(slots, l) <==> 0 <= l < n
    ensures |Elements(slots)| == Count(slots)
  {
    Below(n);
    forall l ensures l in Elements(slots) <==> l in UpTo(n) { ElementsAre(slots, l); }
    assert Elements(slots) == UpTo(n);
  }

  ghost function UpTo(n: nat): set<int> { if n == 0 then {} else UpTo(n - 1) + {n - 1} }

  lemma {:induction false} Below(n: nat)
    ensures |UpTo(n)| == n && forall l :: l in UpTo(n) <==> 0 <= l < n
  {
    if n > 0 { Below(n - 1); }
  }

  lemma {:induction false} InOwnSlot<O(!new)>(user: Fns<O>, a: seq<O>, slots: Slots<int>, i: nat, j: nat)
    requires |slots| > 0 && InRange(a, slots) && |Elements(slots)| == Count(slots) && i < |slots| && j < |slots[i]|
    requires forall i :: 0 <= i < |a| ==> First(user, a, SlotOf(user, slots, a[i]), a[i], i)
    ensures 0 <= slots[i][j] < |a| && user.hash(a[slots[i][j]]) % |slots| == i
  {
    var l := slots[i][j];
    assert l in slots[i] && Holds(slots, l);
    var s := user.hash(a[l]) % |slots|;
    var k :| FirstAt(user, a, SlotOf(user, slots, a[l]), a[l], l, k);
    EntriesDiffer(slots, i, j, s, k);
  }

  lemma {:induction false} NoTwins<O(!new)>(user: Fns<O>, a: seq<O>, slots: Slots<int>, i: nat, j: nat, k: nat)
    requires Lawful(user) && |slots| > 0 && InRange(a, slots) && |Elements(slots)| == Count(slots)
    requires i < |slots| && j < k < |slots[i]|
    requires forall i :: 0 <= i < |a| ==> First(user, a, SlotOf(user, slots, a[i]), a[i], i)
    ensures 0 <= slots[i][j] < |a| && 0 <= slots[i][k] < |a| && !user.eq(a[slots[i][j]], a[slots[i][k]])
  {
    InOwnSlot(user, a, slots, i, j);
    InOwnSlot(user, a, slots, i, k);
    var l, m := slots[i][j], slots[i][k];
    var x :| FirstAt(user, a, SlotOf(user, slots, a[m]), a[m], m, x);
    EntriesDiffer(slots, i, k, i, x);
  }

  lemma {:induction false} PlacedByObjects<O>(user: Fns<O>, a: seq<O>, slots: Slots<int>, current: O)
    requires forall i, j :: 0 <= i < |slots| && 0 <= j < |slots[i]| ==>
               0 <= slots[i][j] < |a| && user.hash(a[slots[i][j]]) % |slots| == i
    requires forall i, j, k :: 0 <= i < |slots| && 0 <= j < k < |slots[i]| ==> !user.eq(a[slots[i][j]], a[slots[i][k]])
    ensures Placed(slots, IndexFns(user, a, current))
  {
    var f := IndexFns(user, a, current);
    forall i, j | 0 <= i < |slots| && 0 <= j < |slots[i]| ensures f.hash(slots[i][j]) % |slots| == i {
      IndexFnsAre(user, a, current, slots[i][j], 0);
    }
    forall i, j, k | 0 <= i < |slots| && 0 <= j < k < |slots[i]| ensures !f.eq(slots[i][j], slots[i][k]) {
      IndexFnsAre(user, a, current, slots[i][j], slots[i][k]);
    }
  }

  class HashArray<O(!new)> {
    var a: seq<O>
    const h: Table<int>
    const user: Fns<O>

    /** The table indexes `contents`, which is the array once the caller has filled it. */
    ghost predicate ValidFor(contents: seq<O>)
      reads this, h
    {
      && Lawful(user) && |contents| == |a| == h.count
      && Indexes(user, contents, h.slots) && Loaded(h.slots, h.count)
    }

    ghost predicate Valid()
      reads this, h
    {
      ValidFor(a)
    }

    constructor (user: Fns<O>, any: O)
      requires Lawful(user)
      ensures Valid() && a == [] && this.user == user && fresh(h)
    {
      this.user := user;
      this.a := [];
      this.h := new Table<int>(IndexFns(user, [], any));
      new;
      forall current ensures Placed(h.slots, IndexFns(user, [], current)) {
        AnyCurrent(user, [], h.slots, any, current);
      }
    }

    /** What is in the table is properly placed, but perhaps not all indices are there. */
    ghost predicate WellPlaced()
      reads this, h
    {
      && Lawful(user) && Loaded(h.slots, h.count)
      && (forall l :: Holds(h.slots, l) ==> 0 <= l < |a|)
      && (forall current :: Placed(h.slots, IndexFns(user, a, current)))
    }

    /** The table has no entry but indices of the array; they may be missing, repeated or out of place. */
    ghost predicate Ranged()
      reads this, h
    {
      Lawful(user) && Loaded(h.slots, h.count) && InRange(a, h.slots)
    }

    /** The search as such: the first equal entry of one slot. */
    method Probe(v: O) returns (found: bool, position: nat)
      requires Ranged()
      ensures found ==> First(user, a, SlotOf(user, h.slots, v), v, position)
      ensures !found ==> forall i :: 0 <= i < |a| && user.eq(a[i], v) ==> i !in SlotOf(user, h.slots, v)
    {
      var f := IndexFns(user, a, v);
      IndexFnsAre(user, a, v, -1, -1);
      var slot, k;
      found, slot, k := h.Scan(-1, f);
      ghost var list := SlotOf(user, h.slots, v);
      assert list == h.slots[slot];
      forall j | 0 <= j < |list| ensures 0 <= list[j] < |a| && (f.eq(list[j], -1) <==> user.eq(a[list[j]], v)) {
        assert list[j] in h.slots[slot] && Holds(h.slots, list[j]);
        IndexFnsAre(user, a, v, list[j], -1);
      }
      position := 0;
      if found {
        position := h.slots[slot][k];
        assert FirstAt(user, a, list, v, position, k);
      }
    }

    method Find(v: O) returns (found: bool, position: nat)
      requires WellPlaced()
      ensures found <==> exists i :: 0 <= i < |a| && Holds(h.slots, i) && user.eq(a[i], v)
      ensures found ==> position < |a| && Holds(h.slots, position) && user.eq(a[position], v)
    {
      found, position := Probe(v);
      if found {
        FirstHolds(user, a, h.slots, v, position);
      } else {
        forall i | 0 <= i < |a| && Holds(h.slots, i) ensures !user.eq(a[i], v) {
          if user.eq(a[i], v) {
            IndexLawful(user, a, v);
            IndexFnsAre(user, a, v, i, -1);
            OnlyInSlot(h.slots, IndexFns(user, a, v), -1, i);
          }
        }
      }
    }

    /** Position of the element equal to v. */
    method Lookup(v: O) returns (found: bool, position: nat)
      requires Valid()
      ensures found <==> exists i :: 0 <= i < |a| && user.eq(a[i], v)
      ensures found ==> position < |a| && user.eq(a[position], v)
      ensures found ==> forall i :: 0 <= i < |a| && user.eq(a[i], v) ==> i == position
    {
      found, position := Find(v);
      if found {
        forall i | 0 <= i < |a| && user.eq(a[i], v) ensures i == position {
          assert user.eq(v, a[position]) && user.eq(a[i], a[position]);
          NoEquals(user, a, h.slots, i, position);
        }
      } else {
        assert forall i :: 0 <= i < |a| ==> Holds(h.slots, i);
      }
    }

    /**
     Looking up every element finds out exactly whether the table is right, even if entries
     are missing, repeated or out of place, as after an element was changed.
     */
    method IsValid() returns (ok: bool)
      requires Ranged()
      ensures ok <==> Valid()
    {
      if |a| != h.count {
        return false;
      }
      for zz := 0 to |a|
        invariant forall i :: 0 <= i < zz ==> First(user, a, SlotOf(user, h.slots, a[i]), a[i], i)
      {
        var found, position := Probe(a[zz]);
        assert user.eq(a[zz], a[zz]);
        if !found || position != zz {
          if Valid() {
            ValidFirst(user, a, h.slots, zz);
            if found { FirstUnique(user, a, SlotOf(user, h.slots, a[zz]), a[zz], position, zz); }
          }
          assert !Valid();
          return false;
        }
      }
      AllFirst(user, a, h.slots);
      ok := true;
    }

    /**
     Add a place for v unless an equal object is there.  The new element is whatever the
     array holds (`raw`) until the caller copies the object into it.
     */
    method InsertUnique(v: O, raw: O) returns (added: bool, position: nat)
      requires Valid()
      modifies this, h
      ensures added <==> !exists i :: 0 <= i < |old(a)| && user.eq(old(a)[i], v)
      ensures added ==> position == |old(a)| && a == old(a) + [raw] && ValidFor(old(a) + [v])
      ensures !added ==> a == old(a) && Valid() && position < |a| && user.eq(a[position], v)
    {
      var f := IndexFns(user, a, v);
      IndexLawful(user, a, v);
      assert Placed(h.slots, f);
      var slot, k;
      forall i | 0 <= i < |a| ensures f.eq(i, -1) <==> user.eq(a[i], v) { IndexFnsAre(user, a, v, i, -1); }
      added, slot, k := h.InsertUnique(-1, f);
      if added {
        position := |a|;
        ReplaceSentinel(user, a, v, h.slots, slot, k);
        h.slots := h.slots[slot := h.slots[slot][k := |a|]];
        a := a + [raw];
      } else {
        var l := h.slots[slot][k];
        assert l in h.slots[slot] && Holds(h.slots, l);
        position := l;
      }
    }

    /** The caller copies an object equal to v into the new element. */
    method Fill(w: O, ghost v: O)
      requires |a| > 0 && ValidFor(a[..|a| - 1] + [v]) && user.eq(w, v)
      modifies this`a
      ensures Valid() && a == old(a)[..|old(a)| - 1] + [w]
    {
      a := a[|a| - 1 := w];
      SameIndexes(user, old(a)[..|a| - 1], v, w, h.slots);
      assert a == old(a)[..|a| - 1] + [w];
    }
  }

  lemma {:induction false} SameIndexes<O(!new)>(user: Fns<O>, a: seq<O>, v: O, w: O, slots: Slots<int>)
    requires Lawful(user) && Indexes(user, a + [v], slots) && user.eq(w, v)
    ensures Indexes(user, a + [w], slots)
  {
    forall current ensures Placed(slots, IndexFns(user, a + [w], current)) {
      var f, g := IndexFns(user, a + [v], current), IndexFns(user, a + [w], current);
      forall l ensures f.hash(l) == g.hash(l) { EqualSwap(user, a, v, w, current, l, l); }
      forall l, m ensures g.eq(l, m) ==> f.eq(l, m) { EqualSwap(user, a, v, w, current, l, m); }
      PlacedAlike(slots, f, slots, g);
    }
  }

  lemma {:induction false} EqualSwap<O(!new)>(user: Fns<O>, a: seq<O>, v: O, w: O, current: O, x: int, y: int)
    requires Lawful(user) && user.eq(w, v)
    ensures IndexFns(user, a + [v], current).hash(x) == IndexFns(user, a + [w], current).hash(x)
    ensures IndexFns(user, a + [w], current).eq(x, y) ==> IndexFns(user, a + [v], current).eq(x, y)
  {
    IndexFnsAre(user, a + [v], current, x, y);
    IndexFnsAre(user, a + [w], current, x, y);
    var p, q := Object(a + [v], current, x), Object(a + [v], current, y);
    var r, s := Object(a + [w], current, x), Object(a + [w], current, y);
    assert user.eq(p, r) && user.eq(s, q);
    assert user.eq(r, s) ==> user.eq(p, s);
  }
}
