/**
 What every notify algorithm has to compute: each rank names the ranks it will send to,
 and every rank must learn who named it.
 */
module Pattern {
  import opened Records

  /** receivers[q] is the sorted list rank q names; payload[q][i] travels to receivers[q][i]. */
  datatype Pattern = Pattern(ranks: nat, receivers: seq<seq<nat>>, payload: seq<seq<seq<int>>>, npay: nat)

  ghost predicate Valid(pat: Pattern) {
    && |pat.receivers| == |pat.payload| == pat.ranks
    && forall q :: 0 <= q < pat.ranks ==>
         && |pat.receivers[q]| == |pat.payload[q]|
         && (forall i :: 0 <= i < |pat.payload[q]| ==> |pat.payload[q][i]| == pat.npay)
         && (forall i :: 0 <= i < |pat.receivers[q]| ==> pat.receivers[q][i] < pat.ranks)
         && (forall i, j :: 0 <= i < j < |pat.receivers[q]| ==> pat.receivers[q][i] < pat.receivers[q][j])
  }

  predicate Wants(pat: Pattern, to: int, from: int) {
    0 <= to && 0 <= from < |pat.receivers| && to in pat.receivers[from]
  }

  ghost function Pay(pat: Pattern, to: int, from: int): seq<int>
    requires Valid(pat) && Wants(pat, to, from)
  {
    var i :| 0 <= i < |pat.receivers[from]| && pat.receivers[from][i] == to;
    pat.payload[from][i]
  }

  lemma {:induction false} PayIs(pat: Pattern, from: nat, i: nat)
    requires Valid(pat) && from < pat.ranks && i < |pat.receivers[from]|
    ensures Wants(pat, pat.receivers[from][i], from)
    ensures Pay(pat, pat.receivers[from][i], from) == pat.payload[from][i]
    ensures |pat.payload[from][i]| == pat.npay
  {
  }

  lemma {:induction false} WantsBounds(pat: Pattern, to: int, from: int)
    requires Valid(pat) && Wants(pat, to, from)
    ensures 0 <= to < pat.ranks && 0 <= from < pat.ranks && |Pay(pat, to, from)| == pat.npay
  {
    var i :| 0 <= i < |pat.receivers[from]| && pat.receivers[from][i] == to;
    PayIs(pat, from, i);
  }

  // ---------------------------------------------------------------- the specification

  /** The ranks from `lo` on that named `me`, in ascending order. */
  function Senders(pat: Pattern, me: int, lo: nat): seq<int>
    decreases pat.ranks - lo
  {
    if lo >= pat.ranks then []
    else (if Wants(pat, me, lo) then [lo] else []) + Senders(pat, me, lo + 1)
  }

  lemma {:induction false} SendersSpec(pat: Pattern, me: int, lo: nat)
    requires Valid(pat)
    ensures forall q :: q in Senders(pat, me, lo) <==> lo <= q && Wants(pat, me, q)
    ensures forall i, j :: 0 <= i < j < |Senders(pat, me, lo)| ==> Senders(pat, me, lo)[i] < Senders(pat, me, lo)[j]
    decreases pat.ranks - lo
  {
    if lo < pat.ranks {
      SendersSpec(pat, me, lo + 1);
      var rest := Senders(pat, me, lo + 1);
      assert forall j :: 0 <= j < |rest| ==> rest[j] in rest;
    }
  }

  // ---------------------------------------------------------------- record arrays of the pattern

  type Choice = (int, int) -> bool

  /** The wanted pairs (to, from) that `sel` picks, with their payloads. */
  ghost function Wanted(pat: Pattern, sel: Choice): Content
    requires Valid(pat)
  {
    map k: (int, int) | k in Grid(pat.ranks) && Wants(pat, k.0, k.1) && sel(k.0, k.1) :: Pay(pat, k.0, k.1)
  }

  ghost function Grid(n: nat): set<(int, int)> {
    set a: int, b: int | 0 <= a < n && 0 <= b < n :: (a, b)
  }

  lemma {:induction false} WantedKeys(pat: Pattern, sel: Choice, to: int, from: int)
    requires Valid(pat)
    ensures (to, from) in Wanted(pat, sel) <==> Wants(pat, to, from) && sel(to, from)
  {
    if Wants(pat, to, from) { WantsBounds(pat, to, from); assert (to, from) in Grid(pat.ranks); }
  }

  ghost function Row(pat: Pattern, to: int, lo: nat, sel: Choice): seq<Item>
    requires Valid(pat)
    decreases pat.ranks - lo
  {
    if lo >= pat.ranks then []
    else (if Wants(pat, to, lo) && sel(to, lo) then [Item(lo, Pay(pat, to, lo))] else []) + Row(pat, to, lo + 1, sel)
  }

  ghost function Rows(pat: Pattern, lo: nat, sel: Choice): seq<Record>
    requires Valid(pat)
    decreases pat.ranks - lo
  {
    if lo >= pat.ranks then []
    else
      var row := Row(pat, lo, 0, sel);
      (if row != [] then [Record(lo, row)] else []) + Rows(pat, lo + 1, sel)
  }

  /** The record array that holds exactly the wanted pairs of `sel`. */
  ghost function Table(pat: Pattern, sel: Choice): seq<Record>
    requires Valid(pat)
  {
    Rows(pat, 0, sel)
  }

  /** The pairs of row `to` from sender `lo` on, with their payload. */
  ghost predicate RowHas(pat: Pattern, to: nat, lo: nat, sel: Choice, m: Content)
    requires Valid(pat)
  {
    && (forall k :: k in m <==> k.0 == to && lo <= k.1 && Wants(pat, to, k.1) && sel(to, k.1))
    && (forall k :: k in m && Wants(pat, to, k.1) ==> m[k] == Pay(pat, to, k.1))
  }

  lemma {:induction false} RowGrows(pat: Pattern, to: nat, lo: nat, sel: Choice, was: Content, now: Content)
    requires Valid(pat) && RowHas(pat, to, lo + 1, sel, was)
    requires if Wants(pat, to, lo) && sel(to, lo) then now == was[(to, lo as int) := Pay(pat, to, lo)] else now == was
    ensures RowHas(pat, to, lo, sel, now)
  {
    forall k ensures k in now <==> k.0 == to && lo <= k.1 && Wants(pat, to, k.1) && sel(to, k.1) {
      assert k == (k.0, k.1);
    }
  }

  lemma {:induction false} RowCons(pat: Pattern, to: nat, lo: nat, sel: Choice, rest: seq<Item>, row: seq<Item>)
    requires Valid(pat) && to < pat.ranks && ItemsOk(rest, pat.npay)
    requires RowHas(pat, to, lo + 1, sel, ItemContent(to, rest))
    requires row == (if Wants(pat, to, lo) && sel(to, lo) then [Item(lo, Pay(pat, to, lo))] else []) + rest
    ensures ItemsOk(row, pat.npay) && RowHas(pat, to, lo, sel, ItemContent(to, row))
  {
    if Wants(pat, to, lo) && sel(to, lo) {
      WantsBounds(pat, to, lo);
      Prepend(Item(lo, Pay(pat, to, lo)), rest, to, pat.npay);
    } else {
      assert row == rest;
    }
    RowGrows(pat, to, lo, sel, ItemContent(to, rest), ItemContent(to, row));
  }

  lemma {:induction false} RowOk(pat: Pattern, to: nat, lo: nat, sel: Choice)
    requires Valid(pat) && to < pat.ranks
    ensures ItemsOk(Row(pat, to, lo, sel), pat.npay) && RowHas(pat, to, lo, sel, ItemContent(to, Row(pat, to, lo, sel)))
    decreases pat.ranks - lo
  {
    if lo < pat.ranks {
      RowOk(pat, to, lo + 1, sel);
      RowCons(pat, to, lo, sel, Row(pat, to, lo + 1, sel), Row(pat, to, lo, sel));
    }
  }

  /** m holds the wanted pairs of `sel` with destination in [lo, hi). */
  ghost predicate Holds(pat: Pattern, m: Content, lo: int, hi: int, sel: Choice)
    requires Valid(pat)
  {
    && (forall k :: k in m <==> lo <= k.0 < hi && Wants(pat, k.0, k.1) && sel(k.0, k.1))
    && (forall k :: k in m && Wants(pat, k.0, k.1) ==> m[k] == Pay(pat, k.0, k.1))
  }

  lemma {:induction false} HoldsUnion(pat: Pattern, a: Content, b: Content, lo: int, mid: int, hi: int, sel: Choice)
    requires Valid(pat) && lo <= mid <= hi && Holds(pat, a, mid, hi, sel) && Holds(pat, b, lo, mid, sel)
    ensures Holds(pat, a + b, lo, hi, sel)
  {
  }

  lemma {:induction false} RowHolds(pat: Pattern, to: nat, sel: Choice)
    requires Valid(pat) && to < pat.ranks
    ensures ItemsOk(Row(pat, to, 0, sel), pat.npay)
    ensures Holds(pat, ItemContent(to, Row(pat, to, 0, sel)), to, to + 1, sel)
  {
    RowOk(pat, to, 0, sel);
  }

  lemma {:induction false} NoItems(to: int, m: Content)
    ensures m + ItemContent(to, []) == m
  {
  }

  lemma {:induction false} AddRow(pat: Pattern, to: nat, row: seq<Item>, rest: seq<Record>, all: seq<Record>,
          sel: Choice)
    requires Valid(pat) && to < pat.ranks && ItemsOk(row, pat.npay) && Ok(rest, pat.npay)
    requires Holds(pat, ItemContent(to, row), to, to + 1, sel) && Holds(pat, Pairs(rest), to + 1, pat.ranks, sel)
    requires all == (if row != [] then [Record(to, row)] else []) + rest
    ensures Ok(all, pat.npay) && Holds(pat, Pairs(all), to, pat.ranks, sel)
  {
    HoldsUnion(pat, Pairs(rest), ItemContent(to, row), to, to + 1, pat.ranks, sel);
    if row != [] {
      PrependRecord(Record(to, row), rest, pat.npay);
    } else {
      assert all == rest;
      NoItems(to, Pairs(rest));
    }
  }

  /** The rows from lo on hold the selected pairs with those destinations. */
  ghost predicate RowsHold(pat: Pattern, lo: nat, sel: Choice)
    requires Valid(pat)
  {
    Ok(Rows(pat, lo, sel), pat.npay) && Holds(pat, Pairs(Rows(pat, lo, sel)), lo, pat.ranks, sel)
  }

  lemma {:induction false} NoRows(pat: Pattern, sel: Choice)
    requires Valid(pat)
    ensures RowsHold(pat, pat.ranks, sel)
  {
    assert Pairs([]) == map[];
  }

  lemma {:induction false} NextRow(pat: Pattern, lo: nat, sel: Choice)
    requires Valid(pat) && lo < pat.ranks
    requires RowsHold(pat, lo + 1, sel)
    ensures RowsHold(pat, lo, sel)
  {
    RowHolds(pat, lo, sel);
    AddRow(pat, lo, Row(pat, lo, 0, sel), Rows(pat, lo + 1, sel), Rows(pat, lo, sel), sel);
  }

  lemma {:induction false} RowsOk(pat: Pattern, lo: nat, sel: Choice)
    requires Valid(pat) && lo <= pat.ranks
    ensures RowsHold(pat, lo, sel)
    decreases pat.ranks - lo
  {
    if lo < pat.ranks {
      RowsOk(pat, lo + 1, sel);
      NextRow(pat, lo, sel);
    } else {
      NoRows(pat, sel);
    }
  }

  lemma {:induction false} TableOk(pat: Pattern, sel: Choice)
    requires Valid(pat)
    ensures Ok(Table(pat, sel), pat.npay) && Pairs(Table(pat, sel)) == Wanted(pat, sel)
  {
    RowsOk(pat, 0, sel);
    HoldsAll(pat, sel, Pairs(Table(pat, sel)));
  }

  lemma {:induction false} HoldsAll(pat: Pattern, sel: Choice, m: Content)
    requires Valid(pat) && Holds(pat, m, 0, pat.ranks, sel)
    ensures m == Wanted(pat, sel)
  {
    forall k ensures k in m <==> k in Wanted(pat, sel) {
      assert k == (k.0, k.1);
      WantedKeys(pat, sel, k.0, k.1);
      if Wants(pat, k.0, k.1) { WantsBounds(pat, k.0, k.1); }
    }
  }

  /** An ordered array is the table of `sel` if it holds just those pairs. */
  lemma {:induction false} TableUnique(pat: Pattern, rs: seq<Record>, sel: Choice)
    requires Valid(pat) && Ok(rs, pat.npay) && Holds(pat, Pairs(rs), 0, pat.ranks, sel)
    ensures rs == Table(pat, sel)
  {
    RowsOk(pat, 0, sel);
    HoldsUnique(pat, Pairs(rs), Pairs(Table(pat, sel)), sel);
    Unique(rs, Table(pat, sel), pat.npay);
  }

  lemma {:induction false} HoldsUnique(pat: Pattern, a: Content, b: Content, sel: Choice)
    requires Valid(pat) && Holds(pat, a, 0, pat.ranks, sel) && Holds(pat, b, 0, pat.ranks, sel)
    ensures a == b
  {
  }

  // ---------------------------------------------------------------- operations on them

  /** Selecting records by destination restricts the choice. */
  lemma {:induction false} FilterTable(pat: Pattern, sel: Choice, keep: int -> bool, both: Choice)
    requires Valid(pat)
    requires forall to, from :: Wants(pat, to, from) ==> (both(to, from) <==> sel(to, from) && keep(to))
    ensures Filter(Table(pat, sel), keep) == Table(pat, both)
  {
    TableOk(pat, sel);
    TableOk(pat, both);
    FilterOk(Table(pat, sel), keep, pat.npay);
    SelectWanted(pat, sel, keep, both);
    Unique(Filter(Table(pat, sel), keep), Table(pat, both), pat.npay);
  }

  lemma {:induction false} SelectWanted(pat: Pattern, sel: Choice, keep: int -> bool, both: Choice)
    requires Valid(pat)
    requires forall to, from :: Wants(pat, to, from) ==> (both(to, from) <==> sel(to, from) && keep(to))
    ensures Select(Wanted(pat, sel), keep) == Wanted(pat, both)
  {
    forall k ensures k in Select(Wanted(pat, sel), keep) <==> k in Wanted(pat, both) {
      assert k == (k.0, k.1);
      WantedKeys(pat, sel, k.0, k.1);
      WantedKeys(pat, both, k.0, k.1);
    }
  }

  /** Merging arrays of disjoint choices joins the choices. */
  lemma {:induction false} WantedUnion(pat: Pattern, a: Choice, b: Choice, either: Choice)
    requires Valid(pat)
    requires forall to, from :: Wants(pat, to, from) ==> !(a(to, from) && b(to, from))
    requires forall to, from :: Wants(pat, to, from) ==> (either(to, from) <==> a(to, from) || b(to, from))
    ensures Wanted(pat, a).Keys !! Wanted(pat, b).Keys && Wanted(pat, a) + Wanted(pat, b) == Wanted(pat, either)
  {
    forall k
      ensures k in Wanted(pat, either) <==> k in Wanted(pat, a) || k in Wanted(pat, b)
      ensures !(k in Wanted(pat, a) && k in Wanted(pat, b))
    {
      assert k == (k.0, k.1);
      WantedKeys(pat, a, k.0, k.1);
      WantedKeys(pat, b, k.0, k.1);
      WantedKeys(pat, either, k.0, k.1);
    }
  }

  lemma {:induction false} MergeTables(pat: Pattern, a: Choice, b: Choice, either: Choice)
    requires Valid(pat)
    requires forall to, from :: Wants(pat, to, from) ==> !(a(to, from) && b(to, from))
    requires forall to, from :: Wants(pat, to, from) ==> (either(to, from) <==> a(to, from) || b(to, from))
    ensures MergeRecs(Table(pat, a), Table(pat, b)) == Table(pat, either)
  {
    TableOk(pat, a);
    TableOk(pat, b);
    TableOk(pat, either);
    WantedUnion(pat, a, b, either);
    MergeOk(Table(pat, a), Table(pat, b), pat.npay);
    Unique(MergeRecs(Table(pat, a), Table(pat, b)), Table(pat, either), pat.npay);
  }

  lemma {:induction false} SameTable(pat: Pattern, a: Choice, b: Choice)
    requires Valid(pat)
    requires forall to, from :: Wants(pat, to, from) ==> (a(to, from) <==> b(to, from))
    ensures Table(pat, a) == Table(pat, b)
  {
    TableOk(pat, a);
    TableOk(pat, b);
    forall k ensures k in Wanted(pat, a) <==> k in Wanted(pat, b) {
      assert k == (k.0, k.1);
      WantedKeys(pat, a, k.0, k.1);
      WantedKeys(pat, b, k.0, k.1);
    }
    assert Wanted(pat, a) == Wanted(pat, b);
    Unique(Table(pat, a), Table(pat, b), pat.npay);
  }
}
