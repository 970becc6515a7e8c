/** In-place algorithms of src/sc_containers.c on arrays. */
module Arrays {

  // ---------------------------------------------------------------- permutation

  ghost predicate IsPermutation(p: seq<nat>) {
    && (forall i :: 0 <= i < |p| ==> p[i] < |p|)
    && (forall i, j :: 0 <= i < j < |p| ==> p[i] != p[j])
  }

  /**
   The state of the cycle walk: `home` are the positions that have received their final
   data, the pivot slot zi holds what was at zj, and everything else is untouched.
   */
  ghost predicate Walk<T>(now: seq<T>, was: seq<T>, ind: seq<nat>, p: seq<nat>, home: set<nat>, zi: nat, zj: nat) {
    && IsPermutation(p) && |now| == |was| == |ind| == |p| && zi < |p| && zj < |p|
    && zi !in home && (zj == zi || zj in home)
    && now[zi] == was[zj]
    && (forall q :: 0 <= q < |p| && p[q] in home ==> now[p[q]] == was[q] && q != zj && (q == zi || q in home))
    && (forall x :: 0 <= x < |p| && x !in home && x != zi ==> now[x] == was[x])
    && (forall x :: 0 <= x < |p| ==> ind[x] == if x in home then x else p[x])
  }

  /** Between two cycles. */
  ghost predicate Rest<T>(now: seq<T>, was: seq<T>, ind: seq<nat>, p: seq<nat>, home: set<nat>, zi: nat) {
    && IsPermutation(p) && |now| == |was| == |ind| == |p| && zi <= |p|
    && (forall x :: 0 <= x < zi ==> x in home)
    && (forall q :: 0 <= q < |p| && p[q] in home ==> now[p[q]] == was[q] && q in home)
    && (forall x :: 0 <= x < |p| && x !in home ==> now[x] == was[x])
    && (forall x :: 0 <= x < |p| ==> ind[x] == if x in home then x else p[x])
  }

  lemma {:induction false} WalkStep<T>(now: seq<T>, was: seq<T>, ind: seq<nat>, p: seq<nat>, home: set<nat>, zi: nat,
          zj: nat)
    requires Walk(now, was, ind, p, home, zi, zj) && p[zj] != zi
    ensures var zk := p[zj];
      && zk !in home && ind[zk] == p[zk]
      && Walk(now[zk := now[zi]][zi := now[zk]], was, ind[zk := zk], p, home + {zk}, zi, zk)
  {
  }

  lemma {:induction false} WalkEnd<T>(now: seq<T>, was: seq<T>, ind: seq<nat>, p: seq<nat>, home: set<nat>, zi: nat,
          zj: nat)
    requires Walk(now, was, ind, p, home, zi, zj) && p[zj] == zi
    requires forall x :: 0 <= x < zi ==> x in home
    ensures Rest(now, was, ind[zi := zi], p, home + {zi}, zi + 1)
  {
    forall q | 0 <= q < |p| && p[q] in home + {zi} ensures now[p[q]] == was[q] && q in home + {zi} {
      if p[q] == zi { assert p[q] == p[zj]; }
    }
  }

  ghost function Indices(n: nat): (s: set<nat>)
    ensures forall i: nat :: i in s <==> i < n
  {
    if n == 0 then {} else Indices(n - 1) + {n - 1}
  }

  /** Settle the pivot slot zi: swap until its own data arrives. */
  method Cycle<T>(a: array<T>, newind: array<nat>, zi: nat, ghost was: seq<T>, ghost p: seq<nat>, ghost home0: set<nat>)
    returns (ghost home: set<nat>)
    requires a as object != newind && Rest(a[..], was, newind[..], p, home0, zi) && zi < a.Length
    modifies a, newind
    ensures Rest(a[..], was, newind[..], p, home, zi + 1)
  {
    home := home0;
    var zj := zi;
    var zk := newind[zj];
    if zi in home {
      assert a[..] == old(a[..]);
    }
    while zk != zi
      invariant zi in home0 ==> zk == zi && home == home0 && a[..] == old(a[..]) && newind[..] == old(newind[..])
      invariant zi !in home0 ==> Walk(a[..], was, newind[..], p, home, zi, zj) && zk == p[zj]
      invariant home0 <= home
      decreases Indices(a.Length) - home
    {
      ghost var now, ind := a[..], newind[..];
      WalkStep(now, was, ind, p, home, zi, zj);
      var temp := a[zk];
      a[zk] := a[zi];
      a[zi] := temp;
      zj := zk;
      zk := newind[zk];
      newind[zj] := zj;
      home := home + {zj};
      assert a[..] == now[zj := now[zi]][zi := now[zj]];
      assert newind[..] == ind[zj := zj];
    }
    ghost var ind := newind[..];
    if zi !in home0 { WalkEnd(a[..], was, ind, p, home, zi, zj); }
    newind[zi] := zi;
    assert newind[..] == ind[zi := zi];
    home := home + {zi};
  }

  /** Move the data at index i to index newindices[i], for all i, by following the cycles. */
  method Permute<T>(a: array<T>, newindices: array<nat>, keepperm: bool)
    requires a.Length == newindices.Length && a as object != newindices
    requires IsPermutation(newindices[..])
    modifies a, newindices
    ensures forall i :: 0 <= i < a.Length ==> a[old(newindices[i])] == old(a[i])
    ensures forall i :: 0 <= i < a.Length ==> newindices[i] == if keepperm then old(newindices[i]) else i
  {
    var count := a.Length;
    ghost var was, p := a[..], newindices[..];
    var newind := newindices;
    if keepperm {
      newind := new nat[count](i requires 0 <= i < count reads newindices => newindices[i]);
    }
    assert newind[..] == p;
    var zi: nat := 0;
    ghost var home: set<nat> := {};
    while zi < count
      invariant zi <= count
      invariant Rest(a[..], was, newind[..], p, home, zi)
      invariant keepperm ==> newindices[..] == p
    {
      home := Cycle(a, newind, zi, was, p, home);
      zi := zi + 1;
    }
    forall i | 0 <= i < count
      ensures a[p[i]] == was[i]
      ensures newindices[i] == if keepperm then p[i] else i
    {
      assert p[i] in home && newind[..][i] == i;
      assert a[..][p[i]] == was[i];
      assert keepperm ==> newindices[..][i] == p[i];
    }
  }

  // ---------------------------------------------------------------- splitting by type

  ghost predicate SortedTypes(types: seq<nat>, num: nat) {
    && (forall j :: 0 <= j < |types| ==> types[j] < num)
    && (forall i, j :: 0 <= i < j < |types| ==> types[i] <= types[j])
  }

  /** k is the final position of offsets[i]: the types below i end there. */
  ghost predicate Final(types: seq<nat>, i: nat, k: nat) {
    && k <= |types|
    && (forall j :: 0 <= j < k ==> types[j] < i)
    && (forall j :: k <= j < |types| ==> types[j] >= i)
  }

  /** The loop invariants that the comments of sc_array_split number 1 and 4 to 6. */
  ghost predicate Narrowed(types: seq<nat>, num: nat, offsets: seq<nat>, step: nat, low: nat) {
    && |offsets| == num + 1 && 0 < step <= num && low <= |types|
    && (forall i :: 0 <= i < step ==> offsets[i] <= low && Final(types, i, offsets[i]))
    && (forall j :: 0 <= j < low ==> types[j] < step)
    && (forall i, j :: 0 <= i <= num && offsets[i] <= j < |types| ==> types[j] >= i)
    && (forall i :: 0 <= i <= num ==> offsets[i] <= |types|)
    && (forall i :: step <= i <= num ==> low <= offsets[i])
    && (forall i, j :: 0 <= i < j <= num ==> offsets[i] <= offsets[j])
    && offsets[0] == 0 && offsets[num] == |types|
  }

  /** The offsets delimit the types. */
  ghost predicate SplitBy(types: seq<nat>, num: nat, offsets: seq<nat>) {
    && |offsets| == num + 1 && offsets[0] == 0 && offsets[num] == |types|
    && forall k, j :: 0 <= k < num && 0 <= j < |types| ==> (offsets[k] <= j < offsets[k + 1] <==> types[j] == k)
  }

  lemma {:induction false} AllFinal(types: seq<nat>, num: nat, offsets: seq<nat>)
    requires SortedTypes(types, num) && |offsets| == num + 1 && offsets[num] == |types| && offsets[0] == 0
    requires forall i :: 0 <= i < num ==> Final(types, i, offsets[i])
    ensures SplitBy(types, num, offsets)
  {
    assert Final(types, num, offsets[num]);
    forall k, j | 0 <= k < num && 0 <= j < |types| ensures offsets[k] <= j < offsets[k + 1] <==> types[j] == k {
      assert Final(types, k, offsets[k]) && Final(types, k + 1, offsets[k + 1]);
    }
  }

  /** offsets[step..type] := guess */
  method Lower(offsets0: seq<nat>, step: nat, typ: nat, guess: nat) returns (offsets: seq<nat>)
    requires step <= typ < |offsets0|
    ensures |offsets| == |offsets0|
    ensures forall i :: 0 <= i < |offsets| ==> offsets[i] == if step <= i <= typ then guess else offsets0[i]
  {
    offsets := offsets0;
    for zi := step to typ + 1
      invariant |offsets| == |offsets0|
      invariant forall i :: 0 <= i < |offsets| ==> offsets[i] == if step <= i < zi then guess else offsets0[i]
    {
      offsets := offsets[zi := guess];
    }
  }

  lemma {:induction false} RaiseLow(types: seq<nat>, num: nat, offsets: seq<nat>, step: nat, low: nat, guess: nat)
    requires SortedTypes(types, num) && Narrowed(types, num, offsets, step, low) && step < num
    requires low <= guess < offsets[step] && types[guess] < step
    ensures Narrowed(types, num, offsets, step, guess + 1)
  {
  }

  lemma {:induction false} LowerHigh(types: seq<nat>, num: nat, offsets: seq<nat>, step: nat, low: nat, guess: nat,
          out: seq<nat>)
    requires SortedTypes(types, num) && Narrowed(types, num, offsets, step, low) && step < num
    requires low <= guess < offsets[step] && types[guess] >= step && |out| == |offsets|
    requires forall i :: 0 <= i < |out| ==> out[i] == if step <= i <= types[guess] then guess else offsets[i]
    ensures Narrowed(types, num, out, step, low)
  {
  }

  lemma {:induction false} NextStep(types: seq<nat>, num: nat, offsets: seq<nat>, step: nat, low: nat)
    requires SortedTypes(types, num) && Narrowed(types, num, offsets, step, low) && step < num && low == offsets[step]
    ensures Narrowed(types, num, offsets, step + 1, low)
  {
    assert Final(types, step, offsets[step]);
  }

  /** Offsets of the types in an array sorted by type; `types[j]` is what type_fn returns for index j. */
  method Split(types: seq<nat>, num: nat) returns (offsets: seq<nat>)
    requires SortedTypes(types, num)
    ensures SplitBy(types, num, offsets)
  {
    var count := |types|;
    assert count > 0 ==> types[0] < num;
    offsets := seq(num + 1, i => if i == 0 then 0 else count);
    if count == 0 || num <= 1 {
      if num > 0 { AllFinal(types, num, offsets); }
      return;
    }
    var low: nat, high: nat, step: nat := 0, count, 1;
    while true
      invariant Narrowed(types, num, offsets, step, low) && step < num
      invariant high == offsets[step] && low < high
      decreases num - step, high - low
    {
      var guess := low + (high - low) / 2;
      var typ := types[guess];
      if typ < step {
        RaiseLow(types, num, offsets, step, low, guess);
        low := guess + 1;
      } else {
        ghost var before := offsets;
        offsets := Lower(offsets, step, typ, guess);
        LowerHigh(types, num, before, step, low, guess, offsets);
        high := guess;
      }
      while low == high
        invariant Narrowed(types, num, offsets, step, low) && step < num
        invariant high == offsets[step]
        decreases num - step
      {
        NextStep(types, num, offsets, step, low);
        step := step + 1;
        high := offsets[step];
        if step == num {
          AllFinal(types, num, offsets);
          return;
        }
      }
    }
  }
}
