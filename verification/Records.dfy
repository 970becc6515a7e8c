/**
 Record arrays: for each destination rank, the ranks that want to reach it, each
 with its payload.  An array is ordered by destination and, within a record, by
 origin, so that it is determined by its content: the map from (to, from) to payload.
 */
module Records {

  datatype Item = Item(from: int, pay: seq<int>)
  datatype Record = Record(to: int, items: seq<Item>)

  type Content = map<(int, int), seq<int>>

  // ---------------------------------------------------------------- order and content

  ghost predicate ItemsOk(items: seq<Item>, npay: nat) {
    && (forall i :: 0 <= i < |items| ==> |items[i].pay| == npay)
    && (forall i, j :: 0 <= i < j < |items| ==> items[i].from < items[j].from)
  }

  ghost predicate Ok(rs: seq<Record>, npay: nat) {
    && (forall i :: 0 <= i < |rs| ==> 0 <= rs[i].to && rs[i].items != [] && ItemsOk(rs[i].items, npay))
    && (forall i, j :: 0 <= i < j < |rs| ==> rs[i].to < rs[j].to)
  }

  ghost function ItemContent(to: int, items: seq<Item>): Content {
    if items == [] then map[] else ItemContent(to, items[1..])[(to, items[0].from) := items[0].pay]
  }

  ghost function Pairs(rs: seq<Record>): Content {
    if rs == [] then map[] else Pairs(rs[1..]) + ItemContent(rs[0].to, rs[0].items)
  }

  lemma {:induction false} ItemKeys(to: int, items: seq<Item>, k: (int, int))
    ensures k in ItemContent(to, items) <==> k.0 == to && exists i :: 0 <= i < |items| && items[i].from == k.1
  {
    if items != [] {
      ItemKeys(to, items[1..], k);
      if k in ItemContent(to, items[1..]) {
        var i :| 0 <= i < |items[1..]| && items[1..][i].from == k.1;
        assert items[i + 1].from == k.1;
      }
      if i :| 0 <= i < |items| && items[i].from == k.1 && i > 0 { assert items[1..][i - 1].from == k.1; }
    }
  }

  lemma {:induction false} PairKeys(rs: seq<Record>, k: (int, int))
    requires k in Pairs(rs)
    ensures exists i :: 0 <= i < |rs| && rs[i].to == k.0
  {
    if rs != [] {
      ItemKeys(rs[0].to, rs[0].items, k);
      if k in Pairs(rs[1..]) {
        PairKeys(rs[1..], k);
        var i :| 0 <= i < |rs[1..]| && rs[1..][i].to == k.0;
        assert rs[i + 1].to == k.0;
      } else {
        assert rs[0].to == k.0;
      }
    }
  }

  /** The first item has the least origin of the content, and the rest holds the others. */
  lemma {:induction false} ItemHead(to: int, items: seq<Item>, npay: nat)
    requires items != [] && ItemsOk(items, npay)
    ensures ItemsOk(items[1..], npay)
    ensures (to, items[0].from) !in ItemContent(to, items[1..])
    ensures forall k :: k in ItemContent(to, items[1..]) ==> k.0 == to && k.1 > items[0].from
    ensures forall k :: k in ItemContent(to, items) ==> k.0 == to && k.1 >= items[0].from
    ensures ItemContent(to, items[1..]) == ItemContent(to, items) - {(to, items[0].from)}
  {
    forall k | k in ItemContent(to, items[1..]) ensures k.0 == to && k.1 > items[0].from {
      ItemKeys(to, items[1..], k);
    }
  }

  lemma {:induction false} ItemsUnique(to: int, a: seq<Item>, b: seq<Item>, npay: nat)
    requires ItemsOk(a, npay) && ItemsOk(b, npay) && ItemContent(to, a) == ItemContent(to, b)
    ensures a == b
  {
    assert b != [] ==> (to, b[0].from) in ItemContent(to, b);
    assert a != [] ==> (to, a[0].from) in ItemContent(to, a);
    if a != [] {
      ItemHead(to, a, npay);
      ItemHead(to, b, npay);
      assert a[0] == b[0];
      ItemsUnique(to, a[1..], b[1..], npay);
      assert a == [a[0]] + a[1..] && b == [b[0]] + b[1..];
    }
  }

  /** The first record has the least destination of the content, and the rest holds the others. */
  lemma {:induction false} RecordHead(rs: seq<Record>, npay: nat)
    requires rs != [] && Ok(rs, npay)
    ensures Ok(rs[1..], npay)
    ensures forall k :: k in Pairs(rs[1..]) ==> k.0 > rs[0].to
    ensures forall k :: k in ItemContent(rs[0].to, rs[0].items) ==> k.0 == rs[0].to
    ensures forall k :: k in Pairs(rs) ==> k.0 >= rs[0].to
    ensures (rs[0].to, rs[0].items[0].from) in Pairs(rs)
  {
    forall k | k in Pairs(rs[1..]) ensures k.0 > rs[0].to { PairKeys(rs[1..], k); }
    forall k | k in ItemContent(rs[0].to, rs[0].items) ensures k.0 == rs[0].to { ItemKeys(rs[0].to, rs[0].items, k); }
  }

  /** The pairs to one destination, and the others. */
  ghost function Here(m: Content, to: int): Content { map k | k in m && k.0 == to :: m[k] }
  ghost function Elsewhere(m: Content, to: int): Content { map k | k in m && k.0 != to :: m[k] }

  lemma {:induction false} HeadContent(a: seq<Record>, npay: nat)
    requires a != [] && Ok(a, npay)
    ensures ItemContent(a[0].to, a[0].items) == Here(Pairs(a), a[0].to) && Pairs(a[1..]) == Elsewhere(Pairs(a), a[0].to)
  {
    RecordHead(a, npay);
  }

  /** A record array is determined by its content. */
  lemma {:induction false} Unique(a: seq<Record>, b: seq<Record>, npay: nat)
    requires Ok(a, npay) && Ok(b, npay) && Pairs(a) == Pairs(b)
    ensures a == b
  {
    if a == [] || b == [] {
      if a != [] { RecordHead(a, npay); }
      if b != [] { RecordHead(b, npay); }
    } else {
      RecordHead(a, npay);
      RecordHead(b, npay);
      assert b[0].to == a[0].to;
      HeadContent(a, npay);
      HeadContent(b, npay);
      ItemsUnique(a[0].to, a[0].items, b[0].items, npay);
      Unique(a[1..], b[1..], npay);
      assert a == [a[0]] + a[1..] && b == [b[0]] + b[1..];
    }
  }

  // ---------------------------------------------------------------- selecting by destination

  function Filter(rs: seq<Record>, keep: int -> bool): seq<Record> {
    if rs == [] then [] else (if keep(rs[0].to) then [rs[0]] else []) + Filter(rs[1..], keep)
  }

  ghost function Select(m: Content, keep: int -> bool): Content {
    map k | k in m && keep(k.0) :: m[k]
  }

  lemma {:induction false} SelectUnion(m: Content, x: Content, to: int, keep: int -> bool)
    requires forall k :: k in x ==> k.0 == to
    requires x.Keys !! m.Keys
    ensures Select(m + x, keep) == if keep(to) then Select(m, keep) + x else Select(m, keep)
  {
  }

  lemma {:induction false} FilterOk(rs: seq<Record>, keep: int -> bool, npay: nat)
    requires Ok(rs, npay)
    ensures Ok(Filter(rs, keep), npay)
    ensures Pairs(Filter(rs, keep)) == Select(Pairs(rs), keep)
  {
    if rs != [] {
      RecordHead(rs, npay);
      FilterOk(rs[1..], keep, npay);
      SelectUnion(Pairs(rs[1..]), ItemContent(rs[0].to, rs[0].items), rs[0].to, keep);
      if keep(rs[0].to) {
        PrependRecord(rs[0], Filter(rs[1..], keep), npay);
      } else {
        assert Filter(rs, keep) == Filter(rs[1..], keep);
      }
    }
  }

  // ---------------------------------------------------------------- merging

  function MergeItems(a: seq<Item>, b: seq<Item>): seq<Item> {
    if a == [] then b
    else if b == [] then a
    else if a[0].from < b[0].from then [a[0]] + MergeItems(a[1..], b)
    else [b[0]] + MergeItems(a, b[1..])
  }

  function MergeRecs(a: seq<Record>, b: seq<Record>): seq<Record> {
    if a == [] then b
    else if b == [] then a
    else if a[0].to < b[0].to then [a[0]] + MergeRecs(a[1..], b)
    else if a[0].to > b[0].to then [b[0]] + MergeRecs(a, b[1..])
    else [Record(a[0].to, MergeItems(a[0].items, b[0].items))] + MergeRecs(a[1..], b[1..])
  }

  lemma {:induction false} Prepend(x: Item, rest: seq<Item>, to: int, npay: nat)
    requires |x.pay| == npay && ItemsOk(rest, npay)
    requires forall k :: k in ItemContent(to, rest) ==> k.1 > x.from
    ensures ItemsOk([x] + rest, npay)
    ensures ItemContent(to, [x] + rest) == ItemContent(to, rest)[(to, x.from) := x.pay]
  {
    assert ([x] + rest)[1..] == rest;
    forall i | 0 <= i < |rest| ensures rest[i].from > x.from { ItemKeys(to, rest, (to, rest[i].from)); }
  }

  lemma {:induction false} PutLeft<K, V>(a: map<K, V>, b: map<K, V>, k: K, v: V)
    requires k !in b
    ensures (a + b)[k := v] == a[k := v] + b
  {
  }

  lemma {:induction false} PutRight<K, V>(a: map<K, V>, b: map<K, V>, k: K, v: V)
    ensures (a + b)[k := v] == a + b[k := v]
  {
  }

  /** a, without its head, merged with b: the head goes in front. */
  lemma {:induction false} TakeItem(to: int, a: seq<Item>, m: seq<Item>, other: Content, npay: nat)
    requires a != [] && ItemsOk(a, npay) && ItemsOk(m, npay)
    requires ItemContent(to, m).Keys == ItemContent(to, a[1..]).Keys + other.Keys
    requires forall k :: k in other ==> k.1 > a[0].from
    ensures ItemsOk([a[0]] + m, npay)
    ensures ItemContent(to, [a[0]] + m) == ItemContent(to, m)[(to, a[0].from) := a[0].pay]
    ensures (to, a[0].from) !in other
    ensures ItemContent(to, a) == ItemContent(to, a[1..])[(to, a[0].from) := a[0].pay]
  {
    ItemHead(to, a, npay);
    Prepend(a[0], m, to, npay);
  }

  lemma {:induction false} MergeItemsOk(to: int, a: seq<Item>, b: seq<Item>, npay: nat)
    requires ItemsOk(a, npay) && ItemsOk(b, npay) && ItemContent(to, a).Keys !! ItemContent(to, b).Keys
    ensures ItemsOk(MergeItems(a, b), npay)
    ensures ItemContent(to, MergeItems(a, b)) == ItemContent(to, a) + ItemContent(to, b)
  {
    var ca, cb := ItemContent(to, a), ItemContent(to, b);
    if a == [] {
      assert ca + cb == cb;
    } else if b == [] {
      assert ca + cb == ca;
    } else {
      assert (to, a[0].from) in ca && (to, b[0].from) in cb;
      assert a[0].from != b[0].from;
      if a[0].from < b[0].from {
        assert ItemsOk(a[1..], npay) && forall k :: k in cb ==> k.1 > a[0].from by {
          ItemHead(to, a, npay);
          ItemHead(to, b, npay);
        }
        MergeItemsOk(to, a[1..], b, npay);
        TakeItem(to, a, MergeItems(a[1..], b), cb, npay);
        PutLeft(ItemContent(to, a[1..]), cb, (to, a[0].from), a[0].pay);
      } else {
        assert ItemsOk(b[1..], npay) && forall k :: k in ca ==> k.1 > b[0].from by {
          ItemHead(to, a, npay);
          ItemHead(to, b, npay);
        }
        MergeItemsOk(to, a, b[1..], npay);
        TakeItem(to, b, MergeItems(a, b[1..]), ca, npay);
        PutRight(ca, ItemContent(to, b[1..]), (to, b[0].from), b[0].pay);
      }
    }
  }

  lemma {:induction false} PrependRecord(x: Record, rest: seq<Record>, npay: nat)
    requires 0 <= x.to && x.items != [] && ItemsOk(x.items, npay) && Ok(rest, npay)
    requires forall k :: k in Pairs(rest) ==> k.0 > x.to
    ensures Ok([x] + rest, npay)
    ensures Pairs([x] + rest) == Pairs(rest) + ItemContent(x.to, x.items)
  {
    assert ([x] + rest)[1..] == rest;
    if rest != [] { RecordHead(rest, npay); }
  }

  lemma {:induction false} UnionSwap<K, V>(a: map<K, V>, x: map<K, V>, b: map<K, V>, y: map<K, V>)
    requires x.Keys !! b.Keys
    ensures (a + b) + (x + y) == (a + x) + (b + y)
  {
  }

  lemma {:induction false} UnionRotate<K, V>(a: map<K, V>, x: map<K, V>, b: map<K, V>)
    requires x.Keys !! b.Keys
    ensures (a + b) + x == (a + x) + b
  {
  }

  lemma {:induction false} MergeLeft(a: seq<Record>, b: seq<Record>, m: seq<Record>, npay: nat)
    requires a != [] && b != [] && Ok(a, npay) && Ok(b, npay) && Pairs(a).Keys !! Pairs(b).Keys && a[0].to < b[0].to
    requires Ok(m, npay) && Pairs(m) == Pairs(a[1..]) + Pairs(b)
    ensures Ok([a[0]] + m, npay) && Pairs([a[0]] + m) == Pairs(a) + Pairs(b)
  {
    RecordHead(a, npay);
    RecordHead(b, npay);
    PrependRecord(a[0], m, npay);
    UnionRotate(Pairs(a[1..]), ItemContent(a[0].to, a[0].items), Pairs(b));
  }

  lemma {:induction false} MergeBoth(a: seq<Record>, b: seq<Record>, m: seq<Record>, npay: nat)
    requires a != [] && b != [] && Ok(a, npay) && Ok(b, npay) && Pairs(a).Keys !! Pairs(b).Keys && a[0].to == b[0].to
    requires Ok(m, npay) && Pairs(m) == Pairs(a[1..]) + Pairs(b[1..])
    ensures var r := Record(a[0].to, MergeItems(a[0].items, b[0].items));
            Ok([r] + m, npay) && Pairs([r] + m) == Pairs(a) + Pairs(b)
  {
    var to, x, y := a[0].to, a[0].items, b[0].items;
    RecordHead(a, npay);
    RecordHead(b, npay);
    assert ItemContent(to, x).Keys !! ItemContent(to, y).Keys;
    MergeItemsOk(to, x, y, npay);
    PrependRecord(Record(to, MergeItems(x, y)), m, npay);
    UnionSwap(Pairs(a[1..]), ItemContent(to, x), Pairs(b[1..]), ItemContent(to, y));
  }

  lemma {:induction false} Disjoint(a: seq<Record>, b: seq<Record>)
    requires a != [] && b != [] && Pairs(a).Keys !! Pairs(b).Keys
    ensures Pairs(a[1..]).Keys !! Pairs(b).Keys
    ensures Pairs(a).Keys !! Pairs(b[1..]).Keys
  {
  }

  /** Merging is union: nothing is lost, invented, reordered or parted from its payload. */
  lemma {:induction false} MergeOk(a: seq<Record>, b: seq<Record>, npay: nat)
    requires Ok(a, npay) && Ok(b, npay) && Pairs(a).Keys !! Pairs(b).Keys
    ensures Ok(MergeRecs(a, b), npay)
    ensures Pairs(MergeRecs(a, b)) == Pairs(a) + Pairs(b)
  {
    if a == [] || b == [] {
      assert Pairs([]) == map[];
    } else {
      Disjoint(a, b);
      if a[0].to < b[0].to {
        MergeOk(a[1..], b, npay);
        MergeLeft(a, b, MergeRecs(a[1..], b), npay);
      } else if a[0].to > b[0].to {
        MergeOk(a, b[1..], npay);
        MergeRight(a, b, MergeRecs(a, b[1..]), npay);
      } else {
        assert Pairs(a[1..]).Keys !! Pairs(b[1..]).Keys;
        MergeOk(a[1..], b[1..], npay);
        MergeBoth(a, b, MergeRecs(a[1..], b[1..]), npay);
      }
    }
  }

  lemma {:induction false} MergeRight(a: seq<Record>, b: seq<Record>, m: seq<Record>, npay: nat)
    requires a != [] && b != [] && Ok(a, npay) && Ok(b, npay) && Pairs(a).Keys !! Pairs(b).Keys && a[0].to > b[0].to
    requires Ok(m, npay) && Pairs(m) == Pairs(a) + Pairs(b[1..])
    ensures Ok([b[0]] + m, npay) && Pairs([b[0]] + m) == Pairs(a) + Pairs(b)
  {
    Disjoint(b, a);
    UnionCommutes(Pairs(a), Pairs(b[1..]));
    UnionCommutes(Pairs(a), Pairs(b));
    MergeLeft(b, a, m, npay);
  }

  lemma {:induction false} UnionCommutes<K, V>(a: map<K, V>, b: map<K, V>)
    requires a.Keys !! b.Keys
    ensures a + b == b + a
  {
  }

  lemma {:induction false} MergeCommutes(a: seq<Record>, b: seq<Record>, npay: nat)
    requires Ok(a, npay) && Ok(b, npay) && Pairs(a).Keys !! Pairs(b).Keys
    ensures MergeRecs(a, b) == MergeRecs(b, a)
  {
    MergeOk(a, b, npay);
    MergeOk(b, a, npay);
    UnionCommutes(Pairs(a), Pairs(b));
    Unique(MergeRecs(a, b), MergeRecs(b, a), npay);
  }

  lemma {:induction false} UnionAssociates<K, V>(a: map<K, V>, b: map<K, V>, c: map<K, V>)
    ensures (a + b) + c == a + (b + c)
  {
  }

  lemma {:induction false} MergeAssociates(a: seq<Record>, b: seq<Record>, c: seq<Record>, npay: nat)
    requires Ok(a, npay) && Ok(b, npay) && Ok(c, npay)
    requires Pairs(a).Keys !! Pairs(b).Keys !! Pairs(c).Keys
    ensures MergeRecs(MergeRecs(a, b), c) == MergeRecs(a, MergeRecs(b, c))
  {
    MergeOk(a, b, npay);
    MergeOk(b, c, npay);
    UnionAssociates(Pairs(a), Pairs(b), Pairs(c));
    MergeOk(MergeRecs(a, b), c, npay);
    MergeOk(a, MergeRecs(b, c), npay);
    Unique(MergeRecs(MergeRecs(a, b), c), MergeRecs(a, MergeRecs(b, c)), npay);
  }
}
