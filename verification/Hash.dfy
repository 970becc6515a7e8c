/**
 The chained hash table of src/sc_containers.c.  The user supplies a hash function and an
 equality; what they see through user_data may change between calls, so they are passed
 to each operation.
 */
module Hash {

  const MINIMAL_SIZE: nat := 255
  const SHRINK_INTERVAL: nat := 256

  datatype Fns<!V> = Fns(hash: V -> nat, eq: (V, V) -> bool)

  /** Equality is an equivalence that the hash function respects. */
  ghost predicate Lawful<V(!new)>(f: Fns<V>) {
    && (forall x :: f.eq(x, x))
    && (forall x, y :: f.eq(x, y) ==> f.eq(y, x) && f.hash(x) == f.hash(y))
    && (forall x, y, z :: f.eq(x, y) && f.eq(y, z) ==> f.eq(x, z))
  }

  type Slots<V> = seq<seq<V>>

  function Count<V>(slots: Slots<V>): nat {
    if slots == [] then 0 else |slots[0]| + Count(slots[1..])
  }

  ghost predicate Holds<V>(slots: Slots<V>, x: V) {
    exists i :: 0 <= i < |slots| && x in slots[i]
  }

  /** Every element is in the slot of its hash value, and no two elements are equal. */
  ghost predicate Placed<V>(slots: Slots<V>, f: Fns<V>) {
    && (forall i, j :: 0 <= i < |slots| && 0 <= j < |slots[i]| ==> f.hash(slots[i][j]) % |slots| == i)
    && (forall i, j, k :: 0 <= i < |slots| && 0 <= j < k < |slots[i]| ==> !f.eq(slots[i][j], slots[i][k]))
  }

  ghost predicate Loaded<V>(slots: Slots<V>, count: nat) {
    count == Count(slots) && MINIMAL_SIZE <= |slots| && count < 4 * |slots|
  }

  /** The table as a set. */
  ghost function Elements<V>(slots: Slots<V>): set<V> {
    if slots == [] then {} else (set x | x in slots[0]) + Elements(slots[1..])
  }

  lemma {:induction false} ElementsAre<V>(slots: Slots<V>, x: V)
    ensures x in Elements(slots) <==> Holds(slots, x)
  {
    if slots != [] {
      ElementsAre(slots[1..], x);
      if i :| 0 <= i < |slots[1..]| && x in slots[1..][i] { assert x in slots[i + 1]; }
      if i :| 0 <= i < |slots| && x in slots[i] && i > 0 { assert x in slots[1..][i - 1]; }
    }
  }

  lemma {:induction false} ListCard<V>(list: seq<V>)
    requires forall j, k :: 0 <= j < k < |list| ==> list[j] != list[k]
    ensures |set x | x in list| == |list|
  {
    if list != [] {
      ListCard(list[1..]);
      assert (set x | x in list) == {list[0]} + (set x | x in list[1..]);
    }
  }

  lemma {:induction false} TailCard<V>(slots: Slots<V>, i: nat)
    requires i <= |slots|
    requires forall a, j, k :: 0 <= a < |slots| && 0 <= j < k < |slots[a]| ==> slots[a][j] != slots[a][k]
    requires forall a, b, x :: 0 <= a < b < |slots| && x in slots[a] ==> x !in slots[b]
    ensures |Elements(slots[i..])| == Count(slots[i..])
    decreases |slots| - i
  {
    if i < |slots| {
      TailCard(slots, i + 1);
      assert slots[i..][1..] == slots[i + 1..];
      ListCard(slots[i]);
      var here := set x | x in slots[i];
      forall x | x in here ensures x !in Elements(slots[i + 1..]) {
        ElementsAre(slots[i + 1..], x);
        var rest := slots[i + 1..];
        assert forall b :: 0 <= b < |rest| ==> rest[b] == slots[i + 1 + b];
      }
    }
  }

  /** elem_count is the number of elements of the set. */
  lemma {:induction false} CountIsCardinality<V(!new)>(slots: Slots<V>, f: Fns<V>)
    requires Lawful(f) && Placed(slots, f)
    ensures |Elements(slots)| == Count(slots)
  {
    forall a, j, k | 0 <= a < |slots| && 0 <= j < k < |slots[a]| ensures slots[a][j] != slots[a][k] {
      assert f.eq(slots[a][j], slots[a][j]);
    }
    forall a, b, x | 0 <= a < b < |slots| && x in slots[a] ensures x !in slots[b] {
      var j :| 0 <= j < |slots[a]| && slots[a][j] == x;
      assert f.hash(slots[a][j]) % |slots| == a;
      assert forall k :: 0 <= k < |slots[b]| ==> f.hash(slots[b][k]) % |slots| == b;
    }
    TailCard(slots, 0);
    assert slots[0..] == slots;
  }

  /** As many elements as entries: no entry occurs twice. */
  lemma {:induction false} FewElements<V>(slots: Slots<V>)
    ensures |Elements(slots)| <= Count(slots)
  {
    if slots != [] {
      FewElements(slots[1..]);
      ListBound(slots[0]);
      var here := set x | x in slots[0];
      UnionBound(here, Elements(slots[1..]));
    }
  }

  lemma {:induction false} UnionBound<V>(a: set<V>, b: set<V>)
    ensures |a + b| <= |a| + |b|
    ensures |a + b| == |a| + |b| ==> a !! b
  {
    assert |a + b| == |a| + |b| - |a * b|;
    if |a * b| == 0 {
      assert a * b == {};
      forall x ensures !(x in a && x in b) { assert x !in a * b; }
    }
  }

  lemma {:induction false} ListBound<V>(list: seq<V>)
    ensures |set x | x in list| <= |list|
    ensures |set x | x in list| == |list| ==> forall j, k :: 0 <= j < k < |list| ==> list[j] != list[k]
  {
    if list != [] {
      ListBound(list[1..]);
      var rest := set x | x in list[1..];
      assert (set x | x in list) == {list[0]} + rest;
      UnionBound({list[0]}, rest);
      if |set x | x in list| == |list| {
        forall j, k | 0 <= j < k < |list| ensures list[j] != list[k] {
          assert list[k] == list[1..][k - 1];
          assert j > 0 ==> list[j] == list[1..][j - 1];
        }
      }
    }
  }

  lemma {:induction false} EntriesDiffer<V>(slots: Slots<V>, a: nat, j: nat, b: nat, k: nat)
    requires |Elements(slots)| == Count(slots)
    requires a < |slots| && j < |slots[a]| && b < |slots| && k < |slots[b]| && slots[a][j] == slots[b][k]
    ensures a == b && j == k
  {
    FewElements(slots[1..]);
    ListBound(slots[0]);
    var here := set x | x in slots[0];
    UnionBound(here, Elements(slots[1..]));
    if a > 0 { InTail(slots, a, j); }
    if b > 0 { InTail(slots, b, k); }
    if a > 0 && b > 0 {
      EntriesDiffer(slots[1..], a - 1, j, b - 1, k);
    }
  }

  lemma {:induction false} InTail<V>(slots: Slots<V>, c: nat, l: nat)
    requires 0 < c < |slots| && l < |slots[c]|
    ensures slots[c][l] in Elements(slots[1..])
  {
    assert slots[c][l] in slots[1..][c - 1];
    ElementsAre(slots[1..], slots[c][l]);
  }

  // ---------------------------------------------------------------- one slot changes

  lemma {:induction false} CountUpdate<V>(slots: Slots<V>, i: nat, list: seq<V>)
    requires i < |slots|
    ensures Count(slots[i := list]) == Count(slots) - |slots[i]| + |list|
  {
    if i == 0 {
      assert slots[i := list][1..] == slots[1..];
    } else {
      assert slots[i := list][1..] == slots[1..][i - 1 := list];
      CountUpdate(slots[1..], i - 1, list);
    }
  }

  lemma {:induction false} CountAppend<V>(a: Slots<V>, list: seq<V>)
    ensures Count(a + [list]) == Count(a) + |list|
  {
    if a == [] {
      assert a + [list] == [list];
      assert [list][1..] == [];
    } else {
      assert (a + [list])[1..] == a[1..] + [list];
      CountAppend(a[1..], list);
    }
  }

  lemma {:induction false} CountEmpty<V>(slots: Slots<V>)
    requires forall i :: 0 <= i < |slots| ==> slots[i] == []
    ensures Count(slots) == 0 && forall x :: !Holds(slots, x)
  {
    if slots != [] { CountEmpty(slots[1..]); }
  }

  lemma {:induction false} HoldsUpdate<V>(slots: Slots<V>, h: nat, list: seq<V>, x: V)
    requires h < |slots|
    ensures Holds(slots[h := list], x) <==> x in list || exists i :: 0 <= i < |slots| && i != h && x in slots[i]
  {
    var t := slots[h := list];
    if x in list { assert x in t[h]; }
    if i :| 0 <= i < |slots| && i != h && x in slots[i] { assert x in t[i]; }
  }

  /** Equal elements share a slot, so an element equal to v can only be in v's slot, once. */
  lemma {:induction false} OnlyInSlot<V(!new)>(slots: Slots<V>, f: Fns<V>, v: V, x: V)
    requires Lawful(f) && |slots| > 0 && Placed(slots, f) && Holds(slots, x) && f.eq(x, v)
    ensures x in slots[f.hash(v) % |slots|]
  {
    var i :| 0 <= i < |slots| && x in slots[i];
    var j :| 0 <= j < |slots[i]| && slots[i][j] == x;
    assert f.hash(slots[i][j]) % |slots| == i;
  }

  lemma {:induction false} OneMatch<V(!new)>(slots: Slots<V>, f: Fns<V>, x: V, y: V)
    requires Lawful(f) && |slots| > 0 && Placed(slots, f) && Holds(slots, x) && Holds(slots, y) && f.eq(x, y)
    ensures x == y
  {
    var i :| 0 <= i < |slots| && x in slots[i];
    var j :| 0 <= j < |slots[i]| && slots[i][j] == x;
    OnlyInSlot(slots, f, x, y);
    assert f.eq(y, x);
    OnlyInSlot(slots, f, x, y);
    assert f.hash(slots[i][j]) % |slots| == i;
    var k :| 0 <= k < |slots[i]| && slots[i][k] == y;
    assert !(j < k) && !(k < j);
  }

  /** v, not equal to anything present, goes to the end or the front of its slot. */
  lemma {:induction false} AddOk<V(!new)>(slots: Slots<V>, f: Fns<V>, v: V, list: seq<V>)
    requires Lawful(f) && |slots| > 0 && Placed(slots, f)
    requires forall x :: Holds(slots, x) ==> !f.eq(x, v)
    requires var h := f.hash(v) % |slots|; list == slots[h] + [v] || list == [v] + slots[h]
    ensures var t := slots[f.hash(v) % |slots| := list];
      && Placed(t, f) && Count(t) == Count(slots) + 1
      && forall x :: Holds(t, x) <==> Holds(slots, x) || x == v
  {
    var h := f.hash(v) % |slots|;
    var t := slots[h := list];
    CountUpdate(slots, h, list);
    forall x | x in slots[h] ensures !f.eq(x, v) && !f.eq(v, x) { assert Holds(slots, x); }
    forall j | 0 <= j < |list| ensures f.hash(list[j]) % |slots| == h {
      if list[j] != v { var k :| 0 <= k < |slots[h]| && slots[h][k] == list[j]; }
    }
    AddDistinct(slots[h], f, v, list);
    forall x ensures Holds(t, x) <==> Holds(slots, x) || x == v {
      HoldsUpdate(slots, h, list, x);
    }
  }

  lemma {:induction false} AddDistinct<V(!new)>(old_: seq<V>, f: Fns<V>, v: V, list: seq<V>)
    requires list == old_ + [v] || list == [v] + old_
    requires forall j, k :: 0 <= j < k < |old_| ==> !f.eq(old_[j], old_[k])
    requires forall x :: x in old_ ==> !f.eq(x, v) && !f.eq(v, x)
    ensures forall j, k :: 0 <= j < k < |list| ==> !f.eq(list[j], list[k])
  {
  }

  /** Taking out the entry at position k of slot h. */
  lemma {:induction false} RemoveOk<V(!new)>(slots: Slots<V>, f: Fns<V>, h: nat, k: nat)
    requires Lawful(f) && Placed(slots, f) && h < |slots| && k < |slots[h]|
    ensures var t, v := slots[h := slots[h][..k] + slots[h][k + 1..]], slots[h][k];
      && Placed(t, f) && Count(t) == Count(slots) - 1
      && forall x :: Holds(t, x) <==> Holds(slots, x) && x != v
  {
    var v, list := slots[h][k], slots[h][..k] + slots[h][k + 1..];
    CountUpdate(slots, h, list);
    RemovePlaced(slots, f, h, k, list);
    RemovedItem(slots, f, h, k, list);
    forall x ensures Holds(slots[h := list], x) <==> Holds(slots, x) && x != v {
      HoldsUpdate(slots, h, list, x);
      HoldsUpdate(slots, h, slots[h], x);
      assert slots[h := slots[h]] == slots;
    }
  }

  lemma {:induction false} RemovePlaced<V(!new)>(slots: Slots<V>, f: Fns<V>, h: nat, k: nat, list: seq<V>)
    requires Placed(slots, f) && h < |slots| && k < |slots[h]| && list == slots[h][..k] + slots[h][k + 1..]
    ensures Placed(slots[h := list], f)
  {
    forall j | 0 <= j < |list| ensures list[j] == slots[h][if j < k then j else j + 1] { }
  }

  /** The shortened list holds all but the removed element, which is in no other slot. */
  lemma {:induction false} RemovedItem<V(!new)>(slots: Slots<V>, f: Fns<V>, h: nat, k: nat, list: seq<V>)
    requires Lawful(f) && Placed(slots, f) && h < |slots| && k < |slots[h]|
    requires list == slots[h][..k] + slots[h][k + 1..]
    ensures forall x :: x in list <==> x in slots[h] && x != slots[h][k]
    ensures forall i :: 0 <= i < |slots| && i != h ==> slots[h][k] !in slots[i]
  {
    var v := slots[h][k];
    assert f.eq(v, v);
    forall j | 0 <= j < |list| ensures list[j] == slots[h][if j < k then j else j + 1] && list[j] != v { }
    forall x | x in slots[h] && x != v ensures x in list {
      var j :| 0 <= j < |slots[h]| && slots[h][j] == x;
      assert list[if j < k then j else j - 1] == x;
    }
    forall i | 0 <= i < |slots| && i != h ensures v !in slots[i] {
      assert forall j :: 0 <= j < |slots[i]| ==> f.hash(slots[i][j]) % |slots| == i;
      assert f.hash(v) % |slots| == h;
    }
  }

  // ---------------------------------------------------------------- all slots change

  /** x is at a position before (i, j) when the slots are read in order. */
  ghost predicate Earlier<V>(slots: Slots<V>, i: nat, j: nat, x: V)
    requires i <= |slots| && (i < |slots| ==> j <= |slots[i]|)
  {
    || (exists a :: 0 <= a < i && x in slots[a])
    || (i < |slots| && x in slots[i][..j])
  }

  lemma {:induction false} EarlierDiffers<V(!new)>(slots: Slots<V>, f: Fns<V>, i: nat, j: nat, x: V)
    requires Lawful(f) && Placed(slots, f) && i < |slots| && j < |slots[i]| && Earlier(slots, i, j, x)
    ensures !f.eq(x, slots[i][j])
  {
    var v := slots[i][j];
    assert f.hash(v) % |slots| == i;
    if a :| 0 <= a < i && x in slots[a] {
      var k :| 0 <= k < |slots[a]| && slots[a][k] == x;
      assert f.hash(slots[a][k]) % |slots| == a;
    } else {
      var k :| 0 <= k < j && slots[i][..j][k] == x;
      assert slots[i][k] == x;
    }
  }

  lemma {:induction false} EarlierNext<V>(slots: Slots<V>, i: nat, j: nat, x: V)
    requires i < |slots| && j < |slots[i]|
    ensures Earlier(slots, i, j + 1, x) <==> Earlier(slots, i, j, x) || x == slots[i][j]
  {
    assert slots[i][..j + 1] == slots[i][..j] + [slots[i][j]];
  }

  lemma {:induction false} EarlierSlot<V>(slots: Slots<V>, i: nat, x: V)
    requires i < |slots|
    ensures Earlier(slots, i + 1, 0, x) <==> Earlier(slots, i, |slots[i]|, x)
  {
    assert slots[i][..|slots[i]|] == slots[i];
    if a :| 0 <= a < i + 1 && x in slots[a] && a == i {}
  }

  /** Move every element to the front of its new slot. */
  method Rehash<V(!new)>(slots: Slots<V>, size: nat, f: Fns<V>) returns (fresh_: Slots<V>)
    requires Lawful(f) && Placed(slots, f) && size > 0
    ensures |fresh_| == size && Placed(fresh_, f) && Count(fresh_) == Count(slots)
    ensures forall x :: Holds(fresh_, x) <==> Holds(slots, x)
  {
    fresh_ := seq(size, _ => []);
    CountEmpty(fresh_);
    assert slots[..0] == [];
    for i := 0 to |slots|
      invariant |fresh_| == size && Placed(fresh_, f) && Count(fresh_) == Count(slots[..i])
      invariant forall x :: Holds(fresh_, x) <==> Earlier(slots, i, 0, x)
    {
      for j := 0 to |slots[i]|
        invariant |fresh_| == size && Placed(fresh_, f) && Count(fresh_) == Count(slots[..i]) + j
        invariant forall x :: Holds(fresh_, x) <==> Earlier(slots, i, j, x)
      {
        var v := slots[i][j];
        forall x | Holds(fresh_, x) ensures !f.eq(x, v) { EarlierDiffers(slots, f, i, j, x); }
        var h := f.hash(v) % size;
        AddOk(fresh_, f, v, [v] + fresh_[h]);
        fresh_ := fresh_[h := [v] + fresh_[h]];
        forall x ensures Holds(fresh_, x) <==> Earlier(slots, i, j + 1, x) { EarlierNext(slots, i, j, x); }
      }
      assert slots[..i + 1] == slots[..i] + [slots[i]];
      CountAppend(slots[..i], slots[i]);
      forall x ensures Holds(fresh_, x) <==> Earlier(slots, i + 1, 0, x) { EarlierSlot(slots, i, x); }
    }
    assert slots[..|slots|] == slots;
  }

  /** The number of slots after a check with `count` elements in `size` slots. */
  function Resized(count: nat, size: nat): nat
    requires size > 0
  {
    if count >= 4 * size then 4 * size - 1
    else if count <= size / 4 && size / 4 + 1 >= MINIMAL_SIZE then size / 4 + 1
    else size
  }

  /** One more element than allowed is enough to grow, and shrinking leaves room. */
  lemma {:induction false} ResizedLoad(count: nat, size: nat)
    requires size >= MINIMAL_SIZE && count <= 4 * size
    ensures Resized(count, size) >= MINIMAL_SIZE && count < 4 * Resized(count, size)
  {
  }

  /**
   A check makes the table larger exactly if it holds four elements a slot, and smaller exactly
   if at most one element comes on four slots and 255 slots are left.
   */
  lemma {:induction false} ResizedIff(count: nat, size: nat)
    requires size >= 255
    ensures Resized(count, size) > size <==> count >= 4 * size
    ensures Resized(count, size) < size <==> count <= size / 4 && size >= 1016
    ensures Resized(count, size) < size ==> count < Resized(count, size) && 4 * Resized(count, size) <= size + 4
  {
  }

  /** Shrinking undoes growing. */
  lemma {:induction false} GrownShrinks(count: nat, few: nat, size: nat)
    requires size >= 255 && few < size && count >= 4 * size
    ensures Resized(few, Resized(count, size)) == size
  {
  }

  /** Elements and slots after an element has been added. */
  function AfterInsert(count: nat, size: nat): (nat, nat)
    requires size > 0
  {
    (count + 1, if (count + 1) % size == 0 then Resized(count + 1, size) else size)
  }

  /** Elements and slots after an element has been removed. */
  function AfterRemove(count: nat, size: nat): (nat, nat)
    requires count > 0 && size > 0
  {
    (count - 1, if (count - 1) % SHRINK_INTERVAL == 0 then Resized(count - 1, size) else size)
  }

  /** Not many more slots than elements: at most four for each of them, counted in blocks of 256. */
  ghost predicate Tight(count: nat, size: nat) {
    size < 1016 || size / 4 < (count + 255) / 256 * 256
  }

  lemma {:induction false} TightBound(count: nat, size: nat)
    requires Tight(count, size)
    ensures size < 1016 || size < 4 * count + 1020
    ensures count == 0 ==> size < 1016
  {
  }

  lemma {:induction false} InsertTight(count: nat, size: nat)
    requires size >= 255 && count < 4 * size && Tight(count, size)
    ensures var (n, s) := AfterInsert(count, size); s >= 255 && n < 4 * s && Tight(n, s)
  {
    var n := count + 1;
    if n % size == 0 {
      AtLeastSize(n, size);
      GrownTight(n, size);
    } else {
      NoCheckNeeded(n, size);
      MoreTight(count, size);
    }
  }

  lemma {:induction false} GrownTight(n: nat, size: nat)
    requires size >= 255 && size <= n <= 4 * size
    ensures var s := Resized(n, size); s >= 255 && n < 4 * s && Tight(n, s)
  {
  }

  lemma {:induction false} MoreTight(count: nat, size: nat)
    requires Tight(count, size)
    ensures Tight(count + 1, size)
  {
  }

  lemma {:induction false} AtLeastSize(n: nat, size: nat)
    requires n > 0 && size > 0 && n % size == 0
    ensures n >= size
  {
  }

  lemma {:induction false} RemoveTight(count: nat, size: nat)
    requires size >= 255 && 0 < count < 4 * size && Tight(count, size)
    ensures var (n, s) := AfterRemove(count, size); s >= 255 && n < 4 * s && Tight(n, s)
  {
    var n := count - 1;
    if n % 256 == 0 {
      ResizedLoad(n, size);
      assert (n + 255) / 256 * 256 == n && (count + 255) / 256 * 256 == n + 256;
    } else {
      assert (n + 255) / 256 == (count + 255) / 256;
    }
  }

  /** Elements and slots of a new table through insertions and removals that change it. */
  ghost predicate SizeRun(run: seq<(nat, nat)>) {
    && run != [] && run[0] == (0, 255)
    && forall i :: 0 < i < |run| ==> SizeStep(run[i - 1], run[i])
  }

  ghost predicate SizeStep(a: (nat, nat), b: (nat, nat)) {
    a.1 > 0 && (b == AfterInsert(a.0, a.1) || (a.0 > 0 && b == AfterRemove(a.0, a.1)))
  }

  /** In every run the table has less than four elements a slot and not many more slots than elements. */
  lemma {:induction false} EverySize(run: seq<(nat, nat)>, i: nat)
    requires SizeRun(run) && i < |run|
    ensures run[i].1 >= 255 && run[i].0 < 4 * run[i].1 && Tight(run[i].0, run[i].1)
  {
    if i > 0 {
      EverySize(run, i - 1);
      assert SizeStep(run[i - 1], run[i]);
      InsertTight(run[i - 1].0, run[i - 1].1);
      if run[i - 1].0 > 0 { RemoveTight(run[i - 1].0, run[i - 1].1); }
    }
  }

  lemma {:induction false} FourTimes(size: nat)
    requires size > 0
    ensures (4 * size) % size == 0
  {
    var q, m := (4 * size) / size, (4 * size) % size;
    assert q * size + m == 4 * size;
    assert (4 - q) * size == m;
    assert 4 - q >= 1 ==> (4 - q) * size >= size;
    assert 4 - q <= -1 ==> (4 - q) * size < 0;
  }

  /** The load reaches its limit only at a multiple of the number of slots. */
  lemma {:induction false} NoCheckNeeded(count: nat, size: nat)
    requires size > 0 && count <= 4 * size && count % size != 0
    ensures count < 4 * size
  {
    FourTimes(size);
  }

  class Table<V(!new)> {
    var slots: Slots<V>
    var count: nat
    var checks: nat
    var actions: nat

    ghost predicate Valid(f: Fns<V>)
      reads this
    {
      Placed(slots, f) && Loaded(slots, count)
    }

    constructor (f: Fns<V>)
      ensures Valid(f) && count == 0 && forall x :: !Holds(slots, x)
      ensures |slots| == 255 && checks == 0 && actions == 0
    {
      slots := seq(MINIMAL_SIZE, _ => []);
      count, checks, actions := 0, 0, 0;
      new;
      CountEmpty(slots);
    }

    method MaybeResize(f: Fns<V>)
      requires Lawful(f) && Placed(slots, f) && count == Count(slots) && |slots| >= MINIMAL_SIZE
      modifies this
      ensures Placed(slots, f) && count == old(count) == Count(slots)
      ensures |slots| == Resized(count, old(|slots|)) && checks == old(checks) + 1
      ensures |slots| > old(|slots|) <==> count >= 4 * old(|slots|)
      ensures |slots| < old(|slots|) <==> count <= old(|slots|) / 4 && old(|slots|) >= 1016
      ensures forall x :: Holds(slots, x) <==> old(Holds(slots, x))
      ensures actions == old(actions) + (if |slots| == old(|slots|) then 0 else 1)
      ensures |slots| == old(|slots|) ==> slots == old(slots)
    {
      ResizedIff(count, |slots|);
      checks := checks + 1;
      var newSize;
      if count >= 4 * |slots| {
        newSize := 4 * |slots| - 1;
      } else if count <= |slots| / 4 {
        newSize := |slots| / 4 + 1;
        if newSize < MINIMAL_SIZE {
          return;
        }
      } else {
        return;
      }
      actions := actions + 1;
      slots := Rehash(slots, newSize, f);
    }

    /** The first entry equal to v in the slot of v's hash, whatever the table holds. */
    method Scan(v: V, f: Fns<V>) returns (found: bool, h: nat, k: nat)
      requires |slots| > 0
      ensures h == f.hash(v) % |slots| && k <= |slots[h]| && (found <==> k < |slots[h]|)
      ensures forall j :: 0 <= j < k ==> !f.eq(slots[h][j], v)
      ensures found ==> f.eq(slots[h][k], v)
    {
      h, k := f.hash(v) % |slots|, 0;
      while k < |slots[h]|
        invariant k <= |slots[h]| && forall j :: 0 <= j < k ==> !f.eq(slots[h][j], v)
      {
        if f.eq(slots[h][k], v) {
          return true, h, k;
        }
        k := k + 1;
      }
      found := false;
    }

    /** The position of an element equal to v. */
    method Lookup(v: V, f: Fns<V>) returns (found: bool, h: nat, k: nat)
      requires Lawful(f) && Placed(slots, f) && |slots| > 0
      ensures found <==> exists x :: Holds(slots, x) && f.eq(x, v)
      ensures found ==> h < |slots| && k < |slots[h]| && f.eq(slots[h][k], v)
    {
      found, h, k := Scan(v, f);
      if found {
        assert slots[h][k] in slots[h] && Holds(slots, slots[h][k]);
      } else {
        forall x | Holds(slots, x) ensures !f.eq(x, v) {
          if f.eq(x, v) {
            OnlyInSlot(slots, f, v, x);
          }
        }
      }
    }

    /** Add v unless an equal element is there; (h, k) is where v or that element is now. */
    method InsertUnique(v: V, f: Fns<V>) returns (added: bool, h: nat, k: nat)
      requires Lawful(f) && Valid(f)
      modifies this
      ensures Valid(f)
      ensures added <==> !exists x :: old(Holds(slots, x)) && f.eq(x, v)
      ensures h < |slots| && k < |slots[h]|
      ensures added ==> slots[h][k] == v && count == old(count) + 1
      ensures added ==> forall x :: Holds(slots, x) <==> old(Holds(slots, x)) || x == v
      ensures !added ==> slots == old(slots) && count == old(count) && f.eq(slots[h][k], v)
      ensures added ==> (count, |slots|) == AfterInsert(old(count), old(|slots|))
      ensures checks == old(checks) + (if added && count % old(|slots|) == 0 then 1 else 0)
      ensures actions == old(actions) + (if |slots| == old(|slots|) then 0 else 1)
    {
      var found;
      found, h, k := Lookup(v, f);
      if found {
        return false, h, k;
      }
      h, k := Append(v, f);
      if count % |slots| == 0 {
        ResizedLoad(count, |slots|);
        MaybeResize(f);
        h, k := Relocate(v, f);
      } else {
        NoCheckNeeded(count, |slots|);
      }
      added := true;
    }

    method Append(v: V, f: Fns<V>) returns (h: nat, k: nat)
      requires Lawful(f) && Placed(slots, f) && count == Count(slots) && |slots| > 0
      requires forall x :: Holds(slots, x) ==> !f.eq(x, v)
      modifies this
      ensures Placed(slots, f) && count == old(count) + 1 == Count(slots) && |slots| == old(|slots|)
      ensures h < |slots| && k < |slots[h]| && slots[h][k] == v && Holds(slots, v)
      ensures forall x :: Holds(slots, x) <==> old(Holds(slots, x)) || x == v
      ensures checks == old(checks) && actions == old(actions)
    {
      h := f.hash(v) % |slots|;
      AddOk(slots, f, v, slots[h] + [v]);
      k := |slots[h]|;
      slots := slots[h := slots[h] + [v]];
      count := count + 1;
    }

    /** v is in the table: the lookup finds v itself, not just something equal. */
    method Relocate(v: V, f: Fns<V>) returns (h: nat, k: nat)
      requires Lawful(f) && Placed(slots, f) && |slots| > 0 && Holds(slots, v)
      ensures h < |slots| && k < |slots[h]| && slots[h][k] == v
    {
      var found;
      assert f.eq(v, v);
      found, h, k := Lookup(v, f);
      assert slots[h][k] in slots[h] && Holds(slots, slots[h][k]);
      OneMatch(slots, f, slots[h][k], v);
    }

    /** Remove the element equal to v, if any. */
    method Remove(v: V, f: Fns<V>) returns (removed: bool, ghost x: V)
      requires Lawful(f) && Valid(f)
      modifies this
      ensures Valid(f)
      ensures removed <==> exists y :: old(Holds(slots, y)) && f.eq(y, v)
      ensures removed ==> old(Holds(slots, x)) && f.eq(x, v) && count == old(count) - 1
      ensures removed ==> forall y :: Holds(slots, y) <==> old(Holds(slots, y)) && y != x
      ensures forall y :: Holds(slots, y) ==> !f.eq(y, v)
      ensures !removed ==> slots == old(slots) && count == old(count)
      ensures removed ==> (count, |slots|) == AfterRemove(old(count), old(|slots|))
      ensures checks == old(checks) + (if removed && count % 256 == 0 then 1 else 0)
      ensures actions == old(actions) + (if |slots| == old(|slots|) then 0 else 1)
    {
      var h, k;
      x := v;
      removed, h, k := Lookup(v, f);
      if removed {
        x := slots[h][k];
        assert x in slots[h] && Holds(slots, x);
        RemoveOk(slots, f, h, k);
        forall y | Holds(slots, y) && f.eq(y, v) ensures y == x { assert f.eq(v, x); OneMatch(slots, f, y, x); }
        slots := slots[h := slots[h][..k] + slots[h][k + 1..]];
        count := count - 1;
        if count % SHRINK_INTERVAL == 0 {
          ResizedLoad(count, |slots|);
          MaybeResize(f);
        }
      }
    }

    /** Remove everything; the number of slots stays. */
    method Truncate(f: Fns<V>)
      requires Valid(f)
      modifies this
      ensures Valid(f) && count == 0 && |slots| == old(|slots|) && forall x :: !Holds(slots, x)
      ensures checks == old(checks) && actions == old(actions)
    {
      if count == 0 {
        NoElements(slots);
        return;
      }
      for i := 0 to |slots|
        invariant |slots| == old(|slots|) && checks == old(checks) && actions == old(actions)
        invariant forall j :: 0 <= j < i ==> slots[j] == []
        invariant forall j :: i <= j < |slots| ==> slots[j] == old(slots[j])
      {
        slots := slots[i := []];
      }
      CountEmpty(slots);
      count := 0;
    }
  }

  lemma {:induction false} NoElements<V>(slots: Slots<V>)
    requires Count(slots) == 0
    ensures forall x :: !Holds(slots, x)
  {
    forall i | 0 <= i < |slots| ensures slots[i] == [] { CountUpdate(slots, i, []); }
  }
}
