/**
 Balance by subtree sizes.  The bit lengths of the sizes of two sibling subtrees may differ
 by at most one; src/sc_avl.c tests this with shifts.
 */
module AvlBalance {
  import opened AvlShape
  import opened Powers

  /** The number of binary digits, 0 for 0. */
  function BitLen(u: nat): nat { if u == 0 then 0 else 1 + BitLen(u / 2) }

  lemma {:induction false} BitLenBounds(u: nat)
    ensures u < Pow2(BitLen(u)) && (u > 0 ==> BitLen(u) > 0 && u >= Pow2(BitLen(u) - 1))
  {
    if u > 0 {
      BitLenBounds(u / 2);
      if u / 2 > 0 {
        assert Pow2(BitLen(u) - 1) == 2 * Pow2(BitLen(u / 2) - 1);
      }
    }
  }

  /** The bit length is the k with 2^(k-1) <= u < 2^k. */
  lemma {:induction false} BitLenIs(u: nat, k: nat)
    ensures u < Pow2(k) <==> BitLen(u) <= k
  {
    BitLenBounds(u);
    if BitLen(u) <= k {
      Pow2Mono(BitLen(u), k);
    } else {
      Pow2Mono(k, BitLen(u) - 1);
    }
  }

  /** The binary search of lg, test by test. */
  function Lg(u: nat): nat {
    if u == 0 then 0 else if u / 65536 != 0 then Lg16(u / 65536, 17) else Lg16(u, 1)
  }
  function Lg16(u: nat, r: nat): nat { if u / 256 % 256 != 0 then Lg8(u / 256, r + 8) else Lg8(u, r) }
  function Lg8(u: nat, r: nat): nat { if u / 16 % 16 != 0 then Lg4(u / 16, r + 4) else Lg4(u, r) }
  function Lg4(u: nat, r: nat): nat { if u / 4 % 4 != 0 then Lg2(u / 4, r + 2) else Lg2(u, r) }
  function Lg2(u: nat, r: nat): nat { if u / 2 % 2 != 0 then r + 1 else r }

  lemma {:induction false} BitLenDouble(u: nat)
    requires u >= 4
    ensures BitLen(u) == 2 + BitLen(u / 4)
  {
    assert u / 2 / 2 == u / 4;
  }

  lemma {:induction false} BitLenShift(u: nat)
    ensures u >= 4 ==> BitLen(u) == 2 + BitLen(u / 4)
    ensures u >= 16 ==> BitLen(u) == 4 + BitLen(u / 16)
    ensures u >= 256 ==> BitLen(u) == 8 + BitLen(u / 256)
    ensures u >= 65536 ==> BitLen(u) == 16 + BitLen(u / 65536)
  {
    if u >= 4 { BitLenDouble(u); }
    if u >= 16 { Shift16(u); }
    if u >= 256 { Shift256(u); }
    if u >= 65536 {
      Shift256(u);
      Shift256(u / 256);
      assert u / 256 / 256 == u / 65536;
    }
  }

  lemma {:induction false} Shift16(u: nat)
    requires u >= 16
    ensures BitLen(u) == 4 + BitLen(u / 16)
  {
    BitLenDouble(u);
    BitLenDouble(u / 4);
    assert u / 4 / 4 == u / 16;
  }

  lemma {:induction false} Shift256(u: nat)
    requires u >= 256
    ensures BitLen(u) == 8 + BitLen(u / 256)
  {
    Shift16(u);
    Shift16(u / 16);
    assert u / 16 / 16 == u / 256;
  }

  lemma {:induction false} Lg4Is(u: nat, r: nat)
    requires 0 < u < 16 && r > 0
    ensures Lg4(u, r) == r - 1 + BitLen(u)
  {
    BitLenShift(u);
    var v := if u >= 4 then u / 4 else u;
    assert BitLen(1) == 1 + BitLen(0) == 1;
    assert v / 2 == 0 || v / 2 == 1;
  }

  lemma {:induction false} Lg8Is(u: nat, r: nat)
    requires 0 < u < 256 && r > 0
    ensures Lg8(u, r) == r - 1 + BitLen(u)
  {
    if u >= 16 {
      Shift16(u);
      Lg4Is(u / 16, r + 4);
    } else {
      Lg4Is(u, r);
    }
  }

  lemma {:induction false} Lg16Is(u: nat, r: nat)
    requires 0 < u < 65536 && r > 0
    ensures Lg16(u, r) == r - 1 + BitLen(u)
  {
    HighByte(u);
    if u >= 256 {
      Shift256(u);
      Lg8Is(u / 256, r + 8);
    } else {
      Lg8Is(u, r);
    }
  }

  lemma {:induction false} HighByte(u: nat)
    requires u < 65536
    ensures u / 256 % 256 != 0 <==> u >= 256
    ensures u / 256 < 256
  {
  }

  /** On 32-bit numbers lg gives the bit length. */
  lemma {:induction false} LgIsBitLen(u: nat)
    requires u < 0x1_0000_0000
    ensures Lg(u) == BitLen(u)
  {
    if u > 0 {
      BitLenShift(u);
      if u >= 65536 { Lg16Is(u / 65536, 17); } else { Lg16Is(u, 1); }
    }
  }

  /** avl_check_balance for subtrees of sizes l and r. */
  function CheckBalance(l: nat, r: nat): int {
    var pl := Lg(l);
    Pow2Positive(pl + 1);
    if r / Pow2(pl + 1) != 0 then 1
    else if pl < 2 then 0
    else
      Pow2Positive(pl - 2);
      if r / Pow2(pl - 2) != 0 then 0 else -1
  }

  lemma {:induction false} DivZero(r: nat, p: nat)
    requires p > 0
    ensures r / p == 0 <==> r < p
  {
    var q := r / p;
    assert r == p * q + r % p;
    assert q >= 1 ==> p * q >= p;
  }

  /** The shift tests compare bit lengths. */
  lemma {:induction false} CheckBalanceIs(l: nat, r: nat)
    requires l < 0x1_0000_0000
    ensures CheckBalance(l, r) ==
            if BitLen(r) > BitLen(l) + 1 then 1 else if BitLen(l) > BitLen(r) + 1 then -1 else 0
  {
    LgIsBitLen(l);
    var pl := BitLen(l);
    Pow2Positive(pl + 1);
    DivZero(r, Pow2(pl + 1));
    BitLenIs(r, pl + 1);
    if pl >= 2 {
      Pow2Positive(pl - 2);
      DivZero(r, Pow2(pl - 2));
      BitLenIs(r, pl - 2);
    }
  }

  // ---------------------------------------------------------------- rotations

  ghost function Bits(s: Shape): nat { BitLen(Size(s)) }

  /** The balance rule on sizes. */
  ghost predicate Close(l: nat, r: nat) {
    BitLen(l) <= BitLen(r) + 1 && BitLen(r) <= BitLen(l) + 1
  }

  /** The balance rule at one node. */
  ghost predicate Even(l: Shape, r: Shape) {
    Close(Size(l), Size(r))
  }

  ghost predicate Balanced(s: Shape) {
    s.Branch? ==> Even(s.l, s.r) && Balanced(s.l) && Balanced(s.r)
  }

  /** The rotation when the left subtree is too heavy: single if its outer half is no smaller. */
  ghost function TurnRight(l: Shape, n: nat, r: Shape): Shape
    requires l.Branch?
  {
    if Size(l.l) >= Size(l.r) then
      Branch(l.l, l.n, Branch(l.r, n, r))
    else
      var g := l.r;
      Branch(Branch(l.l, l.n, g.l), g.n, Branch(g.r, n, r))
  }

  ghost function TurnLeft(l: Shape, n: nat, r: Shape): Shape
    requires r.Branch?
  {
    if Size(r.r) >= Size(r.l) then
      Branch(Branch(l, n, r.l), r.n, r.r)
    else
      var g := r.l;
      Branch(Branch(l, n, g.l), g.n, Branch(g.r, r.n, r.r))
  }

  /** What one turn of avl_rebalance makes of a subtree. */
  ghost function Fix(s: Shape): Shape
    requires s.Branch?
  {
    var b := CheckBalance(Size(s.l), Size(s.r));
    if b == -1 && s.l.Branch? then TurnRight(s.l, s.n, s.r)
    else if b == 1 && s.r.Branch? then TurnLeft(s.l, s.n, s.r)
    else s
  }

  /** The turn in terms of bit lengths. */
  lemma {:induction false} FixIs(s: Shape)
    requires s.Branch? && Size(s.l) < 0x1_0000_0000
    ensures Even(s.l, s.r) ==> Fix(s) == s
    ensures Bits(s.l) > Bits(s.r) + 1 ==> s.l.Branch? && Fix(s) == TurnRight(s.l, s.n, s.r)
    ensures Bits(s.r) > Bits(s.l) + 1 ==> s.r.Branch? && Fix(s) == TurnLeft(s.l, s.n, s.r)
  {
    CheckBalanceIs(Size(s.l), Size(s.r));
  }

  lemma {:induction false} Regroup(a: seq<nat>, x: nat, b: seq<nat>, y: nat, c: seq<nat>, z: nat, d: seq<nat>)
    ensures (a + [x] + (b + [y] + c)) + [z] + d == (a + [x] + b) + [y] + (c + [z] + d)
    ensures a + [x] + ((b + [y] + c) + [z] + d) == (a + [x] + b) + [y] + (c + [z] + d)
    ensures (a + [x] + b) + [y] + c == a + [x] + (b + [y] + c)
  {
  }

  /** A rotation keeps the traversal, and with it elements and size. */
  lemma {:induction false} FixKeeps(s: Shape)
    requires s.Branch?
    ensures Fix(s).Branch? && Order(Fix(s)) == Order(s)
    ensures Elems(Fix(s)) == Elems(s) && Size(Fix(s)) == Size(s) && (Apart(s) <==> Apart(Fix(s)))
  {
    if Fix(s) != s {
      if s.l.Branch? && CheckBalance(Size(s.l), Size(s.r)) == -1 {
        var child := s.l;
        if Size(child.l) >= Size(child.r) {
          Regroup(Order(child.l), child.n, Order(child.r), s.n, Order(s.r), 0, []);
        } else {
          var g := child.r;
          Regroup(Order(child.l), child.n, Order(g.l), g.n, Order(g.r), s.n, Order(s.r));
        }
      } else {
        var child := s.r;
        if Size(child.r) >= Size(child.l) {
          Regroup(Order(s.l), s.n, Order(child.l), child.n, Order(child.r), 0, []);
        } else {
          var g := child.l;
          Regroup(Order(s.l), s.n, Order(g.l), g.n, Order(g.r), child.n, Order(child.r));
        }
      }
    }
    SameOrder(s, Fix(s));
  }
}
