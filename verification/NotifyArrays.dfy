/**
 The flat integer arrays of src/sc_notify.c and the loops that build, take apart and
 merge them.  A record is stored as (torank, howmanyfroms, listof(fromrank, payload)).
 */
module NotifyArrays {
  import opened Records
  import Radix

  function FlatItems(items: seq<Item>): seq<int> {
    if items == [] then [] else [items[0].from] + items[0].pay + FlatItems(items[1..])
  }

  function FlatRecord(r: Record): seq<int> {
    [r.to, |r.items|] + FlatItems(r.items)
  }

  function Flat(rs: seq<Record>): seq<int> {
    if rs == [] then [] else FlatRecord(rs[0]) + Flat(rs[1..])
  }

  /** All payloads have npay integers; nothing is said about order. */
  ghost predicate Sized(rs: seq<Record>, npay: nat) {
    forall i, j :: 0 <= i < |rs| && 0 <= j < |rs[i].items| ==> |rs[i].items[j].pay| == npay
  }

  lemma {:induction false} FlatItemsLen(items: seq<Item>, npay: nat)
    requires forall j :: 0 <= j < |items| ==> |items[j].pay| == npay
    ensures |FlatItems(items)| == (1 + npay) * |items|
  {
    if items != [] {
      FlatItemsLen(items[1..], npay);
      assert (1 + npay) * |items| == (1 + npay) * (|items| - 1) + (1 + npay);
    }
  }

  lemma {:induction false} FlatAppend(a: seq<Record>, b: seq<Record>)
    ensures Flat(a + b) == Flat(a) + Flat(b)
  {
    if a == [] {
      assert a + b == b;
    } else {
      FlatAppend(a[1..], b);
      assert (a + b)[1..] == a[1..] + b && (a + b)[0] == a[0];
      FlatFirst(a);
      FlatFirst(a + b);
      Joined(FlatRecord(a[0]), Flat(a[1..]), Flat(b));
    }
  }

  lemma {:induction false} Joined(a: seq<int>, b: seq<int>, c: seq<int>)
    ensures a + (b + c) == (a + b) + c
  {
  }

  /** At position i of a flat array sits the next record. */
  lemma {:induction false} AtRecord(s: seq<int>, i: nat, rs: seq<Record>, npay: nat)
    requires i <= |s| && s[i..] == Flat(rs) && rs != [] && Sized(rs, npay)
    ensures i + 2 + (1 + npay) * |rs[0].items| <= |s|
    ensures s[i] == rs[0].to && s[i + 1] == |rs[0].items|
    ensures s[i..i + 2 + (1 + npay) * |rs[0].items|] == FlatRecord(rs[0])
    ensures s[i + 2..i + 2 + (1 + npay) * |rs[0].items|] == FlatItems(rs[0].items)
    ensures s[i + 2 + (1 + npay) * |rs[0].items|..] == Flat(rs[1..])
    ensures Sized(rs[1..], npay)
  {
    FlatItemsLen(rs[0].items, npay);
    var n := 2 + (1 + npay) * |rs[0].items|;
    assert |FlatRecord(rs[0])| == n;
    assert s[i..][..n] == FlatRecord(rs[0]);
    assert s[i..][n..] == Flat(rs[1..]);
    assert s[i..i + n] == s[i..][..n];
    assert s[i + n..] == s[i..][n..];
    assert s[i] == s[i..][0] && s[i + 1] == s[i..][1];
    assert s[i + 2..i + n] == FlatRecord(rs[0])[2..];
  }

  // ---------------------------------------------------------------- merge

  function Live(rs: seq<Record>): seq<Record> {
    Filter(rs, (to: int) => to != -1)
  }

  ghost predicate ItemsSized(items: seq<Item>, npay: nat) {
    forall j :: 0 <= j < |items| ==> |items[j].pay| == npay
  }

  /** One item moves from the front of `x` (which stands at a[k..]) to the end of `out`. */
  lemma {:induction false} MoveItem(a: seq<int>, k: nat, x: seq<Item>, rest: seq<Item>, npay: nat, out: seq<int>,
          goal: seq<int>)
    requires x != [] && ItemsSized(x, npay) && k <= |a| && a[k..] == FlatItems(x)
    requires out + FlatItems([x[0]] + rest) == goal
    ensures k + 1 + npay <= |a| && a[k] == x[0].from && a[k + 1 + npay..] == FlatItems(x[1..])
    ensures ItemsSized(x[1..], npay)
    ensures out + a[k..k + 1 + npay] + FlatItems(rest) == goal
  {
    assert ([x[0]] + rest)[1..] == rest;
    assert a[k..k + 1 + npay] == a[k..][..1 + npay] == [x[0].from] + x[0].pay;
    assert a[k + 1 + npay..] == a[k..][1 + npay..];
    assert a[k] == a[k..][0];
  }

  lemma {:induction false} FirstFrom(a: seq<int>, k: nat, x: seq<Item>)
    requires k <= |a| && a[k..] == FlatItems(x)
    ensures x != [] ==> k < |a| && a[k] == x[0].from
  {
    if x != [] { assert a[k..] != []; assert a[k] == a[k..][0]; }
  }

  /** From position k on the array holds the items x. */
  ghost predicate Stands(a: seq<int>, k: nat, x: seq<Item>, npay: nat) {
    k <= |a| && a[k..] == FlatItems(x) && ItemsSized(x, npay)
  }

  /** The inner loop: two from-lists for the same destination. */
  method MergeLists(a: seq<int>, na: nat, b: seq<int>, nb: nat, npay: nat, ghost ia: seq<Item>, ghost ib: seq<Item>)
    returns (out: seq<int>)
    requires ItemsSized(ia, npay) && ItemsSized(ib, npay)
    requires a == FlatItems(ia) && na == |ia| && b == FlatItems(ib) && nb == |ib|
    ensures out == FlatItems(MergeItems(ia, ib))
  {
    var j: nat, jr: nat := 0, 0;
    var k: nat, kr: nat := 0, 0;     // the offsets multi * j and multi * jr
    ghost var x, y := ia, ib;
    ghost var goal := FlatItems(MergeItems(ia, ib));
    out := [];
    FromStart(a, ia, npay);
    FromStart(b, ib, npay);
    while j < na || jr < nb
      invariant |x| == na - j && |y| == nb - jr
      invariant Stands(a, k, x, npay) && Stands(b, kr, y, npay)
      invariant Remains(out, x, y, goal)
      decreases |x| + |y|
    {
      FirstFrom(a, k, x);
      FirstFrom(b, kr, y);
      if j < na && (jr >= nb || a[k] < b[kr]) {
        out, k := TakeLeft(a, k, npay, out, x, y, goal);
        j, x := j + 1, x[1..];
      } else {
        out, kr := TakeRight(b, kr, npay, out, x, y, goal);
        jr, y := jr + 1, y[1..];
      }
    }
    NothingRemains(out, x, y, goal);
  }

  lemma {:induction false} FromStart(a: seq<int>, x: seq<Item>, npay: nat)
    requires a == FlatItems(x) && ItemsSized(x, npay)
    ensures Stands(a, 0, x, npay)
  {
  }

  /** What is written and what is still to be merged make up the goal. */
  ghost predicate Remains(out: seq<int>, x: seq<Item>, y: seq<Item>, goal: seq<int>) {
    out + FlatItems(MergeItems(x, y)) == goal
  }

  lemma {:induction false} NothingRemains(out: seq<int>, x: seq<Item>, y: seq<Item>, goal: seq<int>)
    requires Remains(out, x, y, goal) && x == [] && y == []
    ensures out == goal
  {
    assert FlatItems([]) == [];
  }

  /** Sender and payload at position k0 are copied; `rest` is what is then still to be written. */
  method TakeItem(a: seq<int>, k0: nat, npay: nat, out0: seq<int>, ghost x: seq<Item>, ghost rest: seq<Item>,
          ghost goal: seq<int>)
    returns (out: seq<int>, k: nat)
    requires x != [] && Stands(a, k0, x, npay) && out0 + FlatItems([x[0]] + rest) == goal
    ensures Stands(a, k, x[1..], npay) && out + FlatItems(rest) == goal
  {
    MoveItem(a, k0, x, rest, npay, out0, goal);
    k := k0 + 1 + npay;
    out := out0 + a[k0..k];
  }

  method TakeLeft(a: seq<int>, k0: nat, npay: nat, out0: seq<int>, ghost x: seq<Item>, ghost y: seq<Item>,
          ghost goal: seq<int>)
    returns (out: seq<int>, k: nat)
    requires x != [] && Stands(a, k0, x, npay) && (y == [] || x[0].from < y[0].from) && Remains(out0, x, y, goal)
    ensures Stands(a, k, x[1..], npay) && Remains(out, x[1..], y, goal)
  {
    LeftFirst(out0, x, y, goal);
    out, k := TakeItem(a, k0, npay, out0, x, MergeItems(x[1..], y), goal);
  }

  method TakeRight(b: seq<int>, k0: nat, npay: nat, out0: seq<int>, ghost x: seq<Item>, ghost y: seq<Item>,
          ghost goal: seq<int>)
    returns (out: seq<int>, k: nat)
    requires y != [] && Stands(b, k0, y, npay) && (x == [] || x[0].from >= y[0].from) && Remains(out0, x, y, goal)
    ensures Stands(b, k, y[1..], npay) && Remains(out, x, y[1..], goal)
  {
    RightFirst(out0, x, y, goal);
    out, k := TakeItem(b, k0, npay, out0, y, MergeItems(x, y[1..]), goal);
  }

  lemma {:induction false} LeftFirst(out: seq<int>, x: seq<Item>, y: seq<Item>, goal: seq<int>)
    requires x != [] && (y == [] || x[0].from < y[0].from) && Remains(out, x, y, goal)
    ensures out + FlatItems([x[0]] + MergeItems(x[1..], y)) == goal
  {
    if y == [] { assert [x[0]] + MergeItems(x[1..], y) == x; }
  }

  lemma {:induction false} RightFirst(out: seq<int>, x: seq<Item>, y: seq<Item>, goal: seq<int>)
    requires y != [] && (x == [] || x[0].from >= y[0].from) && Remains(out, x, y, goal)
    ensures out + FlatItems([y[0]] + MergeItems(x, y[1..])) == goal
  {
    if x == [] { assert [y[0]] + MergeItems(x, y[1..]) == y; }
  }

  lemma {:induction false} LiveHead(rs: seq<Record>)
    requires rs != []
    ensures Live(rs) == if rs[0].to == -1 then Live(rs[1..]) else [rs[0]] + Live(rs[1..])
  {
  }

  lemma {:induction false} FlatCons(r: Record, rest: seq<Record>)
    ensures Flat([r] + rest) == FlatRecord(r) + Flat(rest)
  {
    assert ([r] + rest)[1..] == rest;
  }

  lemma {:induction false} NextRecord(s: seq<int>, i: nat, rs: seq<Record>, npay: nat)
    requires i <= |s| && s[i..] == Flat(rs) && rs != [] && Sized(rs, npay)
    ensures i + 1 < |s| && s[i] == rs[0].to
    ensures var e := i + 2 + (1 + npay) * s[i + 1]; 0 <= e <= |s| && s[e..] == Flat(rs[1..]) && Sized(rs[1..], npay)
  {
    AtRecord(s, i, rs, npay);
  }

  /** Skip what was marked as sent to the peer earlier. */
  method SkipMarked(input: seq<int>, i0: nat, npay: nat, ghost rs: seq<Record>)
    returns (i: nat, ghost left: seq<Record>)
    requires Sized(rs, npay) && i0 <= |input| && input[i0..] == Flat(rs)
    ensures i <= |input| && input[i..] == Flat(left) && Sized(left, npay) && |left| <= |rs|
    ensures Live(left) == Live(rs) && (left != [] ==> left[0].to != -1)
  {
    i, left := i0, rs;
    while i < |input|
      invariant i <= |input| && input[i..] == Flat(left) && Sized(left, npay) && |left| <= |rs|
      invariant Live(left) == Live(rs)
      decreases |left|
    {
      assert |Flat(left)| > 0;
      NextRecord(input, i, left, npay);
      if input[i] == -1 {
        LiveHead(left);
        i := i + 2 + (1 + npay) * input[i + 1];
        left := left[1..];
      } else {
        return;
      }
    }
  }

  ghost predicate Joint(a: seq<Record>, b: seq<Record>) { a != [] && b != [] && a[0].to == b[0].to }
  ghost predicate Before(a: seq<Record>, b: seq<Record>) { a != [] && (b == [] || a[0].to < b[0].to) }

  lemma {:induction false} MergeUnfold(a: seq<Record>, b: seq<Record>)
    requires a != [] ==> a[0].to != -1
    ensures var m := MergeRecs(Live(a), b);
      && (Joint(a, b) ==> m == [Record(a[0].to, MergeItems(a[0].items, b[0].items))] + MergeRecs(Live(a[1..]), b[1..]))
      && (Before(a, b) ==> m == [a[0]] + MergeRecs(Live(a[1..]), b))
      && (Before(b, a) ==> m == [b[0]] + MergeRecs(Live(a), b[1..]))
  {
    if a != [] {
      LiveHead(a);
      assert Live(a)[1..] == Live(a[1..]);
      if b == [] { TakeAll(Live(a)); TakeAll(Live(a[1..])); }
    }
  }

  /** Appending the first record of what remains keeps the loop on course. */
  lemma {:induction false} Emit(out: seq<int>, r: Record, rest: seq<Record>, goal: seq<int>)
    requires out + Flat([r] + rest) == goal
    ensures out + FlatRecord(r) + Flat(rest) == goal
  {
    FlatCons(r, rest);
    assert out + (FlatRecord(r) + Flat(rest)) == out + FlatRecord(r) + Flat(rest);
  }

  lemma {:induction false} TakeAll(a: seq<Record>)
    ensures MergeRecs(a, []) == a
  {
  }

  lemma {:induction false} MergeItemsCount(a: seq<Item>, b: seq<Item>)
    ensures |MergeItems(a, b)| == |a| + |b|
  {
    if a != [] && b != [] {
      if a[0].from < b[0].from { MergeItemsCount(a[1..], b); } else { MergeItemsCount(a, b[1..]); }
    }
  }

  /** The list of a record: how many items, their entries, and where the next record starts. */
  method ItemList(s: seq<int>, i: nat, npay: nat, ghost rs: seq<Record>) returns (count: nat, list: seq<int>, end: nat)
    requires i <= |s| && s[i..] == Flat(rs) && rs != [] && Sized(rs, npay)
    ensures i < |s| && s[i] == rs[0].to && count == |rs[0].items| && list == FlatItems(rs[0].items)
    ensures ItemsSized(rs[0].items, npay)
    ensures end <= |s| && s[end..] == Flat(rs[1..]) && Sized(rs[1..], npay)
  {
    AtRecord(s, i, rs, npay);
    count := s[i + 1];
    end := i + 2 + (1 + npay) * count;
    list := s[i + 2..end];
  }

  lemma {:induction false} RecordIs(s: seq<int>, to: int, items: seq<Item>)
    requires s == [to, |items|] + FlatItems(items)
    ensures s == FlatRecord(Record(to, items))
  {
  }

  /** Both arrays have data for the same rank. */
  method MergeSame(input: seq<int>, i: nat, second: seq<int>, ir: nat, npay: nat, ghost a: seq<Record>,
          ghost b: seq<Record>)
    returns (item: seq<int>, ea: nat, eb: nat)
    requires Sized(a, npay) && Sized(b, npay) && a != [] && b != [] && a[0].to == b[0].to
    requires i <= |input| && input[i..] == Flat(a) && ir <= |second| && second[ir..] == Flat(b)
    ensures item == FlatRecord(Record(a[0].to, MergeItems(a[0].items, b[0].items)))
    ensures ea <= |input| && input[ea..] == Flat(a[1..]) && Sized(a[1..], npay)
    ensures eb <= |second| && second[eb..] == Flat(b[1..]) && Sized(b[1..], npay)
  {
    var na, la, nb, lb;
    na, la, ea := ItemList(input, i, npay, a);
    nb, lb, eb := ItemList(second, ir, npay, b);
    ghost var x, y := a[0].items, b[0].items;
    MergeItemsCount(x, y);
    var list := MergeLists(la, na, lb, nb, npay, x, y);
    item := [input[i], na + nb] + list;
    RecordIs(item, a[0].to, MergeItems(x, y));
  }

  /** One array alone has the next rank. */
  method TakeRecord(input: seq<int>, i: nat, npay: nat, ghost a: seq<Record>) returns (item: seq<int>, ea: nat)
    requires Sized(a, npay) && a != [] && i <= |input| && input[i..] == Flat(a)
    ensures item == FlatRecord(a[0])
    ensures ea <= |input| && input[ea..] == Flat(a[1..]) && Sized(a[1..], npay)
  {
    AtRecord(input, i, a, npay);
    ea := i + 2 + (1 + npay) * input[i + 1];
    item := input[i..ea];
  }

  lemma {:induction false} FirstTo(s: seq<int>, i: nat, rs: seq<Record>)
    requires i <= |s| && s[i..] == Flat(rs)
    ensures i < |s| <==> rs != []
    ensures rs != [] ==> s[i] == rs[0].to
  {
    assert |s[i..]| == |Flat(rs)|;
    if rs != [] { assert s[i] == s[i..][0]; }
  }

  /** Merge two arrays; marked records of the first are dropped. */
  method Merge(input: seq<int>, second: seq<int>, npay: nat, ghost a: seq<Record>, ghost b: seq<Record>)
    returns (output: seq<int>)
    requires Sized(a, npay) && Sized(b, npay) && input == Flat(a) && second == Flat(b)
    ensures output == Flat(MergeRecs(Live(a), b))
  {
    var i: nat, ir: nat := 0, 0;
    output := [];
    ghost var x, y, goal := a, b, Flat(MergeRecs(Live(a), b));
    while true
      invariant i <= |input| && input[i..] == Flat(x) && Sized(x, npay)
      invariant ir <= |second| && second[ir..] == Flat(y) && Sized(y, npay)
      invariant output + Flat(MergeRecs(Live(x), y)) == goal
      decreases |x| + |y|
    {
      i, x := SkipMarked(input, i, npay, x);
      FirstTo(input, i, x);
      FirstTo(second, ir, y);
      if i == |input| && ir == |second| {
        break;
      }
      MergeUnfold(x, y);
      var item;
      if i < |input| && ir < |second| && input[i] == second[ir] {
        Emit(output, Record(x[0].to, MergeItems(x[0].items, y[0].items)), MergeRecs(Live(x[1..]), y[1..]), goal);
        item, i, ir := MergeSame(input, i, second, ir, npay, x, y);
        x, y := x[1..], y[1..];
      } else if ir == |second| || (i < |input| && input[i] < second[ir]) {
        Emit(output, x[0], MergeRecs(Live(x[1..]), y), goal);
        item, i := TakeRecord(input, i, npay, x);
        x := x[1..];
      } else {
        Emit(output, y[0], MergeRecs(Live(x), y[1..]), goal);
        item, ir := TakeRecord(second, ir, npay, y);
        y := y[1..];
      }
      output := output + item;
    }
    assert MergeRecs(Live(x), y) == [];
  }

  // ---------------------------------------------------------------- input and output

  /** One record per receiver, each naming this rank as its only origin. */
  function InputRecords(receivers: seq<nat>, payload: seq<seq<int>>, me: nat): seq<Record>
    requires |receivers| == |payload|
  {
    seq(|receivers|, i requires 0 <= i < |receivers| => Record(receivers[i], [Item(me, payload[i])]))
  }

  lemma {:induction false} FlatSingle(to: int, from: int, pay: seq<int>)
    ensures FlatRecord(Record(to, [Item(from, pay)])) == [to, 1, from] + pay
  {
    var items := [Item(from, pay)];
    assert items[1..] == [];
    assert FlatItems(items) == [from] + pay + FlatItems([]);
  }

  lemma {:induction false} FlatUpTo(rs: seq<Record>, i: nat)
    requires i < |rs|
    ensures Flat(rs[..i + 1]) == Flat(rs[..i]) + FlatRecord(rs[i])
  {
    assert rs[..i + 1] == rs[..i] + [rs[i]];
    FlatAppend(rs[..i], [rs[i]]);
    FlatOne(rs[i]);
  }

  lemma {:induction false} OneMore(n: nat, i: nat)
    ensures n * (i + 1) == n * i + n
  {
  }

  method InitInput(receivers: seq<nat>, payload: seq<seq<int>>, npay: nat, me: nat) returns (input: seq<int>)
    requires |receivers| == |payload| && forall i :: 0 <= i < |payload| ==> |payload[i]| == npay
    ensures input == Flat(InputRecords(receivers, payload, me))
    ensures |input| == (3 + npay) * |receivers|
  {
    input := [];
    ghost var rs := InputRecords(receivers, payload, me);
    for i := 0 to |receivers|
      invariant input == Flat(rs[..i]) && |input| == (3 + npay) * i
    {
      FlatUpTo(rs, i);
      FlatSingle(receivers[i], me, payload[i]);
      input := input + ([receivers[i], 1, me] + payload[i]);
      OneMore(3 + npay, i);
    }
    assert rs[..|receivers|] == rs;
  }

  lemma {:induction false} NextItem(output: seq<int>, k: nat, items: seq<Item>, i: nat, npay: nat)
    requires ItemsSized(items, npay) && i < |items| && k <= |output| && output[k..] == FlatItems(items[i..])
    ensures k + 1 + npay <= |output| && output[k] == items[i].from && output[k + 1..k + 1 + npay] == items[i].pay
    ensures output[k + 1 + npay..] == FlatItems(items[i + 1..])
  {
    var rest := items[i..];
    assert rest[1..] == items[i + 1..] && rest[0] == items[i];
    var a := output[k..];
    assert a == [rest[0].from] + rest[0].pay + FlatItems(rest[1..]);
    assert output[k] == a[0] && output[k + 1..k + 1 + npay] == a[1..1 + npay]
      && output[k + 1 + npay..] == a[1 + npay..];
  }

  lemma {:induction false} OnlyRecord(output: seq<int>, rs: seq<Record>, npay: nat)
    requires |rs| == 1 && output == Flat(rs) && Sized(rs, npay)
    ensures |output| >= 2 && output[1] == |rs[0].items| && output[2..] == FlatItems(rs[0].items)
    ensures ItemsSized(rs[0].items, npay)
  {
    assert rs[1..] == [];
    assert Flat(rs[1..]) == [];
    assert output == FlatRecord(rs[0]);
  }

  /** Read the only record of the final array; the payload array is touched only if there is one. */
  method ResetOutput(output: seq<int>, npay: nat, payload: seq<seq<int>>, ghost rs: seq<Record>)
    returns (senders: seq<int>, newPayload: seq<seq<int>>)
    requires output == Flat(rs) && |rs| <= 1 && Sized(rs, npay)
    ensures rs == [] ==> senders == [] && newPayload == payload
    ensures rs != [] ==> |senders| == |newPayload| == |rs[0].items|
    ensures rs != [] ==> forall i :: 0 <= i < |senders| ==> rs[0].items[i] == Item(senders[i], newPayload[i])
  {
    senders, newPayload := [], payload;
    FirstTo(output, 0, rs);
    assert output[0..] == output;
    if |output| > 0 {
      OnlyRecord(output, rs, npay);
      senders, newPayload := ReadItems(output, output[1], npay, rs[0].items);
    }
  }

  /** The loop over the items of the record, which start at position 2. */
  method ReadItems(output: seq<int>, found: nat, npay: nat, ghost items: seq<Item>)
    returns (senders: seq<int>, newPayload: seq<seq<int>>)
    requires |output| >= 2 && found == |items| && output[2..] == FlatItems(items) && ItemsSized(items, npay)
    ensures |senders| == |newPayload| == |items|
    ensures forall i :: 0 <= i < |items| ==> items[i] == Item(senders[i], newPayload[i])
  {
    senders, newPayload := [], [];
    var k: nat := 2;
    assert items[0..] == items;
    for i := 0 to found
      invariant Stands(output, k, items[i..], npay)
      invariant |senders| == |newPayload| == i
      invariant forall j :: 0 <= j < i ==> items[j] == Item(senders[j], newPayload[j])
    {
      NextItem(output, k, items, i, npay);
      senders := senders + [output[k]];
      newPayload := newPayload + [output[k + 1..k + 1 + npay]];
      k := k + 1 + npay;
    }
  }

  // ---------------------------------------------------------------- splitting

  function Mark(rs: seq<Record>, keep: int -> bool): seq<Record> {
    if rs == [] then [] else [if keep(rs[0].to) then rs[0] else rs[0].(to := -1)] + Mark(rs[1..], keep)
  }

  lemma {:induction false} MarkOk(rs: seq<Record>, keep: int -> bool, npay: nat)
    requires Sized(rs, npay)
    ensures Sized(Mark(rs, keep), npay)
    ensures (forall i :: 0 <= i < |rs| ==> 0 <= rs[i].to) ==> Live(Mark(rs, keep)) == Filter(rs, keep)
  {
    if rs != [] {
      assert Sized(rs[1..], npay);
      MarkOk(rs[1..], keep, npay);
      var m := Mark(rs, keep);
      assert m[1..] == Mark(rs[1..], keep);
      forall i, j | 0 <= i < |m| && 0 <= j < |m[i].items| ensures |m[i].items[j].pay| == npay {
        if i > 0 { assert m[i] == Mark(rs[1..], keep)[i - 1]; }
      }
      LiveHead(m);
    }
  }

  function Stays(me: nat, length: nat): int -> bool
    requires length > 0
  {
    (to: int) => to % length == me % length
  }

  function Moves(me: nat, length: nat): int -> bool
    requires length > 0
  {
    (to: int) => to % length != me % length
  }

  /**
   The send loop of the binary recursion: records for the other half are copied to the
   send buffer and marked invalid in place.
   */
  method MarkForPeer(data: seq<int>, me: nat, length: nat, ghost rs: seq<Record>)
    returns (marked: seq<int>, sendbuf: seq<int>)
    requires length > 0 && data == Flat(rs) && Sized(rs, 0)
    ensures marked == Flat(Mark(rs, Stays(me, length)))
    ensures sendbuf == Flat(Filter(rs, Moves(me, length)))
  {
    ghost var stays, moves := Stays(me, length), Moves(me, length);
    marked, sendbuf := data, [];
    var i: nat := 0;
    ghost var done, x := [], rs;
    assert marked == [] + Flat(rs);
    while i < |marked|
      invariant i == |Flat(done)| && marked == Flat(done) + Flat(x) && Sized(x, 0)
      invariant done + Mark(x, stays) == Mark(rs, stays)
      invariant sendbuf + Flat(Filter(x, moves)) == Flat(Filter(rs, moves))
      decreases |x|
    {
      assert marked[i..] == Flat(x);
      FirstTo(marked, i, x);
      var away := marked[i] % length != me % length;
      var item, next := TakeRecord(marked, i, 0, x);
      ghost var r := if away then x[0].(to := -1) else x[0];
      MarkStep(marked, done, x, r);
      SplitStep(done, x, r, stays, moves);
      if away {
        Emit(sendbuf, x[0], Filter(x[1..], moves), Flat(Filter(rs, moves)));
        sendbuf := sendbuf + item;
        marked := marked[i := -1];
      }
      i, done, x := i + |item|, done + [r], x[1..];
    }
    FirstTo(Flat(x), 0, x);
    assert Flat(x)[0..] == Flat(x);
    assert done + [] == done;
  }

  lemma {:induction false} SplitStep(done: seq<Record>, x: seq<Record>, r: Record, stays: int -> bool,
          moves: int -> bool)
    requires x != [] && (stays(x[0].to) <==> !moves(x[0].to))
    requires r == if moves(x[0].to) then x[0].(to := -1) else x[0]
    ensures done + Mark(x, stays) == done + [r] + Mark(x[1..], stays)
    ensures Filter(x, moves) == if moves(x[0].to) then [x[0]] + Filter(x[1..], moves) else Filter(x[1..], moves)
  {
    var m, f := Mark(x[1..], stays), Filter(x[1..], moves);
    assert Mark(x, stays) == [r] + m;
    assert done + ([r] + m) == done + [r] + m;
    assert [] + f == f;
  }

  lemma {:induction false} PutInside(a: seq<int>, f: seq<int>, c: seq<int>, v: int, all: seq<int>, g: seq<int>)
    requires f != [] && all == a + (f + c) && f[0 := v] == g
    ensures |a| < |all| && all[|a|] == f[0] && all[|a| := v] == (a + g) + c
  {
  }

  /** The record at position i, possibly marked, joins the finished ones. */
  lemma {:induction false} MarkStep(marked: seq<int>, done: seq<Record>, x: seq<Record>, r: Record)
    requires x != [] && r.items == x[0].items && marked == Flat(done) + Flat(x)
    ensures |Flat(done)| < |marked| && marked[|Flat(done)|] == x[0].to
    ensures marked[|Flat(done)| := r.to] == Flat(done + [r]) + Flat(x[1..])
    ensures |Flat(done + [r])| == |Flat(done)| + |FlatRecord(x[0])|
  {
    FlatAppend(done, [r]);
    FlatOne(r);
    FlatFirst(x);
    PutTo(x[0], r);
    PutInside(Flat(done), FlatRecord(x[0]), Flat(x[1..]), r.to, marked, FlatRecord(r));
  }

  lemma {:induction false} FlatOne(r: Record)
    ensures Flat([r]) == FlatRecord(r)
  {
    assert [r][1..] == [];
    assert Flat([]) == [];
  }

  lemma {:induction false} FlatFirst(x: seq<Record>)
    requires x != []
    ensures Flat(x) == FlatRecord(x[0]) + Flat(x[1..])
  {
  }

  lemma {:induction false} PutTo(x: Record, r: Record)
    requires r.items == x.items
    ensures |FlatRecord(x)| == |FlatRecord(r)| > 0 && FlatRecord(x)[0] == x.to
    ensures FlatRecord(x)[0 := r.to] == FlatRecord(r)
  {
  }

  function ForPart(n: nat, w: nat, j: int): int -> bool
    requires n > 0 && w > 0 && n * w > 0
  {
    (to: int) => (to % (n * w)) / n == j
  }

  /** The send loop of the n-ary recursion: records go to the buffer of their branch. */
  method Distribute(data: seq<int>, n: nat, w: nat, npay: nat, ghost rs: seq<Record>) returns (bufs: seq<seq<int>>)
    requires n > 0 && w > 0 && n * w > 0 && data == Flat(rs) && Sized(rs, npay)
    ensures |bufs| == w && forall j :: 0 <= j < w ==> bufs[j] == Flat(Filter(rs, ForPart(n, w, j)))
  {
    bufs := seq(w, _ => []);
    var i: nat := 0;
    ghost var x := rs;
    assert data[0..] == data;
    while i < |data|
      invariant i <= |data| && data[i..] == Flat(x) && Sized(x, npay)
      invariant |bufs| == w
      invariant forall j :: 0 <= j < w ==>
        bufs[j] + Flat(Filter(x, ForPart(n, w, j))) == Flat(Filter(rs, ForPart(n, w, j)))
      decreases |x|
    {
      FirstTo(data, i, x);
      var item, next := TakeRecord(data, i, npay, x);
      var topart := (data[i] % (n * w)) / n;
      PartInRange(data[i], n, w);
      forall j | 0 <= j < w
        ensures (if j == topart then bufs[j] + item else bufs[j]) + Flat(Filter(x[1..], ForPart(n, w, j)))
                == Flat(Filter(rs, ForPart(n, w, j)))
      {
        ghost var rest := Filter(x[1..], ForPart(n, w, j));
        if j == topart {
          assert Filter(x, ForPart(n, w, j)) == [x[0]] + rest;
          Emit(bufs[j], x[0], rest, Flat(Filter(rs, ForPart(n, w, j))));
        } else {
          assert Filter(x, ForPart(n, w, j)) == [] + rest == rest;
        }
      }
      bufs := bufs[topart := bufs[topart] + item];
      i, x := next, x[1..];
    }
    FirstTo(data, i, x);
  }

  lemma {:induction false} PartInRange(to: int, n: nat, w: nat)
    requires n > 0 && w > 0 && n * w > 0
    ensures 0 <= (to % (n * w)) / n < w
  {
    var x := to % (n * w);
    var q := x / n;
    assert x == q * n + x % n;
    assert q >= w ==> q * n >= w * n;
  }

  // ---------------------------------------------------------------- the tree of merges

  function MergeAll(xs: seq<seq<Record>>): seq<Record> {
    if xs == [] then [] else MergeRecs(xs[0], MergeAll(xs[1..]))
  }

  ghost function AllPairs(xs: seq<seq<Record>>): Content {
    if xs == [] then map[] else Pairs(xs[0]) + AllPairs(xs[1..])
  }

  ghost predicate Separate(xs: seq<seq<Record>>, npay: nat) {
    && (forall i :: 0 <= i < |xs| ==> Ok(xs[i], npay))
    && (forall i, j :: 0 <= i < j < |xs| ==> Pairs(xs[i]).Keys !! Pairs(xs[j]).Keys)
  }

  lemma {:induction false} AllKeys(xs: seq<seq<Record>>, k: (int, int))
    ensures k in AllPairs(xs) <==> exists i :: 0 <= i < |xs| && k in Pairs(xs[i])
  {
    if xs != [] {
      AllKeys(xs[1..], k);
      if i :| 0 <= i < |xs[1..]| && k in Pairs(xs[1..][i]) { assert k in Pairs(xs[i + 1]); }
      if i :| 0 <= i < |xs| && k in Pairs(xs[i]) && i > 0 { assert k in Pairs(xs[1..][i - 1]); }
    }
  }

  lemma {:induction false} MergeAllOk(xs: seq<seq<Record>>, npay: nat)
    requires Separate(xs, npay)
    ensures Ok(MergeAll(xs), npay) && Pairs(MergeAll(xs)) == AllPairs(xs)
  {
    if xs != [] {
      assert Separate(xs[1..], npay);
      MergeAllOk(xs[1..], npay);
      forall k | k in AllPairs(xs[1..]) ensures k !in Pairs(xs[0]) {
        AllKeys(xs[1..], k);
        var i :| 0 <= i < |xs[1..]| && k in Pairs(xs[1..][i]);
        assert xs[1..][i] == xs[i + 1];
      }
      MergeOk(xs[0], MergeAll(xs[1..]), npay);
    }
  }

  lemma {:induction false} AllPairsAppend(a: seq<seq<Record>>, b: seq<seq<Record>>)
    ensures AllPairs(a + b) == AllPairs(a) + AllPairs(b)
  {
    if a == [] {
      assert a + b == b;
    } else {
      AllPairsAppend(a[1..], b);
      assert (a + b)[1..] == a[1..] + b;
      UnionAssociates(Pairs(a[0]), AllPairs(a[1..]), AllPairs(b));
    }
  }

  /** Merging two merged runs of buffers gives the merge of the whole run. */
  lemma {:induction false} MergeRuns(a: seq<seq<Record>>, b: seq<seq<Record>>, npay: nat)
    requires Separate(a + b, npay)
    ensures MergeRecs(MergeAll(a), MergeAll(b)) == MergeAll(a + b)
    ensures Ok(MergeAll(a), npay) && Ok(MergeAll(b), npay)
  {
    var c := a + b;
    forall i | 0 <= i < |a| ensures a[i] == c[i] {}
    forall i | 0 <= i < |b| ensures b[i] == c[|a| + i] {}
    MergeAllOk(a, npay);
    MergeAllOk(b, npay);
    MergeAllOk(c, npay);
    AllPairsAppend(a, b);
    forall k | k in AllPairs(a) ensures k !in AllPairs(b) {
      AllKeys(a, k);
      AllKeys(b, k);
      var i :| 0 <= i < |a| && k in Pairs(a[i]);
      forall j | 0 <= j < |b| ensures k !in Pairs(b[j]) {
        assert Pairs(c[i]).Keys !! Pairs(c[|a| + j]).Keys;
      }
    }
    MergeOk(MergeAll(a), MergeAll(b), npay);
    Unique(MergeRecs(MergeAll(a), MergeAll(b)), MergeAll(c), npay);
  }

  ghost function Run(xs: seq<seq<Record>>, i: nat, power: nat): seq<seq<Record>>
    requires i <= |xs|
  {
    if i + power <= |xs| then xs[i..i + power] else xs[i..]
  }

  lemma {:induction false} OkSized(rs: seq<Record>, npay: nat)
    requires Ok(rs, npay)
    ensures Sized(rs, npay) && Live(rs) == rs
  {
    if rs != [] {
      assert Ok(rs[1..], npay);
      OkSized(rs[1..], npay);
      LiveHead(rs);
    }
  }

  /** One merge of the tree: buffer i absorbs buffer i + power. */
  method MergePair(one: seq<int>, two: seq<int>, npay: nat, ghost a: seq<seq<Record>>, ghost b: seq<seq<Record>>)
    returns (out: seq<int>)
    requires Separate(a + b, npay) && one == Flat(MergeAll(a)) && two == Flat(MergeAll(b))
    ensures out == Flat(MergeAll(a + b))
  {
    MergeRuns(a, b, npay);
    OkSized(MergeAll(a), npay);
    OkSized(MergeAll(b), npay);
    out := Merge(one, two, npay, MergeAll(a), MergeAll(b));
  }

  lemma {:induction false} SubSeparate(xs: seq<seq<Record>>, i: nat, j: nat, npay: nat)
    requires Separate(xs, npay) && i <= j <= |xs|
    ensures Separate(xs[i..j], npay)
  {
  }

  lemma {:induction false} Stride(t: nat, power: nat, i: nat, count: nat, blocks: nat)
    requires power > 0 && i == t * (2 * power) && (blocks - 1) * power < count <= blocks * power && blocks > 0
    ensures i + power < count <==> 2 * t + 1 < blocks
    ensures (t + 1) * (2 * power) == i + 2 * power
    ensures 2 * t <= blocks <= 2 * t + 1 ==>
              blocks - t > 0 && (blocks - t - 1) * (2 * power) < count <= (blocks - t) * (2 * power)
  {
    var k := blocks - t;
    Twice(t, power);
    Twice(t + 1, power);
    Larger(2 * t + 1, blocks - 1, power);
    Larger(blocks, 2 * t + 1, power);
    assert (2 * t + 1) * power == (2 * t) * power + power;
    if 2 * t <= blocks <= 2 * t + 1 {
      Twice(k, power);
      Twice(k - 1, power);
      Larger(2 * (k - 1), blocks - 1, power);
      Larger(blocks, 2 * k, power);
    }
  }

  lemma {:induction false} Twice(t: int, power: nat)
    ensures t * (2 * power) == (2 * t) * power
  {
  }

  lemma {:induction false} Larger(a: int, b: int, power: nat)
    ensures a <= b ==> a * power <= b * power
  {
  }

  /** Every buffer at a multiple of `power` holds the merge of its run. */
  ghost predicate Runs(bufs: seq<seq<int>>, xs: seq<seq<Record>>, power: nat)
    requires power > 0
  {
    |bufs| == |xs| && forall i :: 0 <= i < |xs| && i % power == 0 ==> bufs[i] == Flat(MergeAll(Run(xs, i, power)))
  }

  ghost predicate RunsBelow(bufs: seq<seq<int>>, xs: seq<seq<Record>>, power: nat, i: nat)
    requires power > 0
  {
    |bufs| == |xs| &&
    forall k :: 0 <= k < |xs| && k % (2 * power) == 0 && k < i ==> bufs[k] == Flat(MergeAll(Run(xs, k, 2 * power)))
  }

  lemma {:induction false} RunsGrow(bufs: seq<seq<int>>, xs: seq<seq<Record>>, power: nat, t: nat, i: nat)
    requires power > 0 && i == t * (2 * power) && RunsBelow(bufs, xs, power, i)
    requires i < |xs| && bufs[i] == Flat(MergeAll(Run(xs, i, 2 * power)))
    ensures RunsBelow(bufs, xs, power, i + 2 * power)
  {
    forall k | 0 <= k < |xs| && k % (2 * power) == 0 && k < i + 2 * power
      ensures bufs[k] == Flat(MergeAll(Run(xs, k, 2 * power)))
    {
      if k >= i { NextMultiple(t, power, i, k); }
    }
  }

  /** What is left over at the end has no neighbour: its run is unchanged. */
  lemma {:induction false} RunsComplete(bufs: seq<seq<int>>, bufs0: seq<seq<int>>, xs: seq<seq<Record>>, power: nat,
          i: nat)
    requires power > 0 && RunsBelow(bufs, xs, power, i) && Runs(bufs0, xs, power) && i + power >= |xs|
    requires forall k :: i <= k < |xs| ==> bufs[k] == bufs0[k]
    ensures Runs(bufs, xs, 2 * power)
  {
    forall k | 0 <= k < |xs| && k % (2 * power) == 0
      ensures bufs[k] == Flat(MergeAll(Run(xs, k, 2 * power)))
    {
      if k >= i {
        Multiples(k / (2 * power), power, k);
        assert Run(xs, k, power) == Run(xs, k, 2 * power);
      }
    }
  }

  /** One stride of the tree: neighbouring runs are merged pairwise. */
  lemma {:induction false} PairOfRuns(xs: seq<seq<Record>>, i: nat, power: nat, npay: nat)
    requires Separate(xs, npay) && i + power < |xs|
    ensures Run(xs, i, power) + Run(xs, i + power, power) == Run(xs, i, 2 * power)
    ensures Separate(Run(xs, i, 2 * power), npay)
  {
    var end := if i + 2 * power <= |xs| then i + 2 * power else |xs|;
    RunIs(xs, i, power, i + power);
    RunIs(xs, i + power, power, end);
    RunIs(xs, i, 2 * power, end);
    Adjacent(xs, i, i + power, end);
    SubSeparate(xs, i, end, npay);
  }

  lemma {:induction false} RunIs(xs: seq<seq<Record>>, i: nat, power: nat, end: nat)
    requires i <= |xs| && end == if i + power <= |xs| then i + power else |xs|
    ensures i <= end <= |xs| && Run(xs, i, power) == xs[i..end]
  {
  }

  lemma {:induction false} Adjacent<X>(xs: seq<X>, i: nat, j: nat, k: nat)
    requires i <= j <= k <= |xs|
    ensures xs[i..j] + xs[j..k] == xs[i..k]
  {
  }

  method MergeStride(bufs0: seq<seq<int>>, power: nat, npay: nat, ghost xs: seq<seq<Record>>, ghost blocks: nat)
    returns (bufs: seq<seq<int>>, merges: nat)
    requires power > 0 && Separate(xs, npay) && Runs(bufs0, xs, power)
    requires blocks > 0 && (blocks - 1) * power < |xs| <= blocks * power
    ensures Runs(bufs, xs, 2 * power)
    ensures 2 * merges <= blocks <= 2 * merges + 1
  {
    bufs, merges := bufs0, 0;
    var i: nat := 0;
    Stride(0, power, 0, |xs|, blocks);
    while i + power < |bufs|
      invariant i == merges * (2 * power) && |bufs| == |xs| && 2 * merges <= blocks
      invariant RunsBelow(bufs, xs, power, i)
      invariant forall k :: i <= k < |xs| ==> bufs[k] == bufs0[k]
    {
      Stride(merges, power, i, |xs|, blocks);
      Multiples(merges, power, i);
      PairOfRuns(xs, i, power, npay);
      var merged := MergePair(bufs[i], bufs[i + power], npay, Run(xs, i, power), Run(xs, i + power, power));
      bufs := bufs[i := merged];
      RunsGrow(bufs, xs, power, merges, i);
      i, merges := i + 2 * power, merges + 1;
    }
    Stride(merges, power, i, |xs|, blocks);
    RunsComplete(bufs, bufs0, xs, power, i);
  }

  /**
   The doubling-stride loop over the receive buffers: it leaves the merge of all of them
   in the first buffer and takes one merge less than there are buffers.
   */
  method MergeTree(recvbufs: seq<seq<int>>, npay: nat, ghost xs: seq<seq<Record>>)
    returns (result: seq<int>, freed: nat)
    requires |recvbufs| == |xs| > 0 && Separate(xs, npay)
    requires forall i :: 0 <= i < |xs| ==> recvbufs[i] == Flat(xs[i])
    ensures result == Flat(MergeAll(xs))
    ensures freed == |xs| - 1
  {
    var bufs, count := recvbufs, |recvbufs|;
    var power: nat := 1;
    freed := 0;
    ghost var blocks: nat := count;
    RunsOfOne(bufs, xs);
    while power < count
      invariant power > 0 && |bufs| == count && blocks > 0 && freed + blocks == count
      invariant Covers(blocks, power, count) && Runs(bufs, xs, power)
      decreases count - power
    {
      var merges;
      bufs, merges, blocks := MergeRound(bufs, power, npay, xs, blocks);
      freed := freed + merges;
      power := 2 * power;
    }
    OneBlock(blocks, power, count);
    assert Run(xs, 0, power) == xs;
    result := bufs[0];
  }

  /** So many blocks of the given length are needed for count buffers. */
  ghost predicate Covers(blocks: nat, power: nat, count: nat) {
    (blocks - 1) * power < count <= blocks * power
  }

  lemma {:induction false} OneBlock(blocks: nat, power: nat, count: nat)
    requires blocks > 0 && power >= count && Covers(blocks, power, count)
    ensures blocks == 1
  {
    Larger(1, blocks - 1, power);
  }

  /** One round of the outer loop: every pair of neighbouring runs is merged. */
  method MergeRound(bufs0: seq<seq<int>>, power: nat, npay: nat, ghost xs: seq<seq<Record>>, ghost blocks0: nat)
    returns (bufs: seq<seq<int>>, merges: nat, ghost blocks: nat)
    requires power > 0 && Separate(xs, npay) && Runs(bufs0, xs, power) && blocks0 > 0 && Covers(blocks0, power, |xs|)
    ensures Runs(bufs, xs, 2 * power) && blocks > 0 && blocks + merges == blocks0 && Covers(blocks, 2 * power, |xs|)
  {
    bufs, merges := MergeStride(bufs0, power, npay, xs, blocks0);
    Stride(merges, power, merges * (2 * power), |xs|, blocks0);
    blocks := blocks0 - merges;
  }

  lemma {:induction false} RunsOfOne(bufs: seq<seq<int>>, xs: seq<seq<Record>>)
    requires |bufs| == |xs| && forall i :: 0 <= i < |xs| ==> bufs[i] == Flat(xs[i])
    ensures Runs(bufs, xs, 1)
  {
    forall i | 0 <= i < |xs| ensures bufs[i] == Flat(MergeAll(Run(xs, i, 1))) {
      assert Run(xs, i, 1) == [xs[i]];
      SingleMerge(xs[i]);
    }
  }

  lemma {:induction false} SingleMerge(x: seq<Record>)
    ensures MergeAll([x]) == x
  {
    assert [x][1..] == [];
    TakeAll(x);
  }

  lemma {:induction false} Multiples(t: nat, power: nat, i: nat)
    requires power > 0 && i == t * (2 * power)
    ensures i % (2 * power) == 0 && i % power == 0 && (i + power) % power == 0
  {
    Radix.Quotient(i, 2 * power, t, 0);
    assert i == (2 * t) * power;
    Radix.Quotient(i, power, 2 * t, 0);
    assert i + power == (2 * t + 1) * power;
    Radix.Quotient(i + power, power, 2 * t + 1, 0);
  }

  lemma {:induction false} NextMultiple(t: nat, power: nat, i: nat, k: nat)
    requires power > 0 && i == t * (2 * power) && i <= k < i + 2 * power && k % (2 * power) == 0
    ensures k == i
  {
    Radix.Quotient(k, 2 * power, t, k - i);
  }
}
