/**
 The zlib container without compression, for builds without zlib (src/sc_io.c): stored
 blocks of section 3.2.4 of RFC 1951 inside the framing of RFC 1950.
 */
module Zlib {
  import opened Base64

  const NONCOMP_BLOCK: nat := 65531
  const PRIME: nat := 65521
  const WORD: nat := 0x1_0000_0000

  // ---------------------------------------------------------------- checksum

  /** The two sums of section 2.2 of RFC 1950, reduced after every byte. */
  datatype Sums = Sums(s1: nat, s2: nat)

  const Unit := Sums(1, 0)

  function Adler(s: Sums, data: seq<byte>): Sums
    decreases |data|
  {
    if data == [] then s else Adler(AddOne(s, data[0]), data[1..])
  }

  function AddOne(s: Sums, b: byte): Sums {
    var s1 := (s.s1 + b) % PRIME;
    Sums(s1, (s.s2 + s1) % PRIME)
  }

  ghost predicate Reduced(s: Sums) { s.s1 < PRIME && s.s2 < PRIME }

  lemma {:induction false} AdlerAppend(s: Sums, a: seq<byte>, b: seq<byte>)
    ensures Adler(s, a + b) == Adler(Adler(s, a), b)
    decreases |a|
  {
    if a == [] {
      assert a + b == b;
    } else {
      assert (a + b)[1..] == a[1..] + b;
      AdlerAppend(AddOne(s, a[0]), a[1..], b);
    }
  }

  lemma {:induction false} AdlerReduced(s: Sums, data: seq<byte>)
    requires Reduced(s)
    ensures Reduced(Adler(s, data))
    decreases |data|
  {
    if data != [] { AdlerReduced(AddOne(s, data[0]), data[1..]); }
  }

  function Pack(s: Sums): nat { s.s2 * 65536 + s.s1 }

  /** Twice the largest second sum after cn unreduced additions. */
  ghost function Limit(cn: nat): nat {
    if cn == 0 then 2 * 65520 else Limit(cn - 1) + 2 * (65520 + 255 * cn)
  }

  lemma {:induction false} LimitClosed(cn: nat)
    ensures Limit(cn) == 131040 * (cn + 1) + 255 * (cn * (cn + 1))
  {
    if cn > 0 {
      LimitClosed(cn - 1);
      assert cn * (cn + 1) == (cn - 1) * cn + 2 * cn;
    }
  }

  lemma {:induction false} LimitGrows(cn: nat, m: nat)
    requires cn <= m
    ensures Limit(cn) <= Limit(m)
    decreases m - cn
  {
    if cn < m { LimitGrows(cn + 1, m); }
  }

  /** 5000 additions without reduction fit into 32 bits. */
  lemma {:induction false} LimitFits(cn: nat)
    requires cn <= 5000
    ensures Limit(cn) < 2 * WORD && 65520 + 255 * cn < WORD
  {
    LimitGrows(cn, 5000);
    LimitClosed(5000);
  }

  lemma {:induction false} SameSum(a: nat, b: nat, c: nat, d: nat)
    requires a % PRIME == b % PRIME && c % PRIME == d % PRIME
    ensures (a + c) % PRIME == (b + d) % PRIME
  {
    var k, l, q, r := a / PRIME - b / PRIME, c / PRIME - d / PRIME, (b + d) / PRIME, (b + d) % PRIME;
    assert a == b + k * PRIME && c == d + l * PRIME && b + d == q * PRIME + r;
    assert a + c == (q + k + l) * PRIME + r;
  }

  /** Unsigned 32-bit addition. */
  function Add32(x: nat, y: nat): nat {
    (x + y) % WORD
  }

  /** The sums of the loop agree with the reduced ones and are small enough after cn additions. */
  ghost predicate Tracks(s1: nat, s2: nat, cn: nat, t: Sums) {
    && cn <= 5000 && Reduced(t) && s1 % PRIME == t.s1 && s2 % PRIME == t.s2
    && s1 <= 65520 + 255 * cn && 2 * s2 <= Limit(cn)
  }

  lemma {:induction false} TrackReduce(s1: nat, s2: nat, cn: nat, t: Sums)
    requires Tracks(s1, s2, cn, t)
    ensures Tracks(s1 % PRIME, s2 % PRIME, 0, t)
  {
  }

  lemma {:induction false} TrackAdd(s1: nat, s2: nat, cn: nat, t: Sums, uc: byte)
    requires Tracks(s1, s2, cn, t) && cn < 5000
    ensures var n1 := Add32(s1, uc); Tracks(n1, Add32(s2, n1), cn + 1, AddOne(t, uc))
    ensures Add32(s1, uc) == s1 + uc && Add32(s2, s1 + uc) == s2 + s1 + uc
  {
    TrackBound(s1, s2, cn, uc);
    NoWrap(s1, uc);
    NoWrap(s2, s1 + uc);
    TrackSums(s1, s2, t, uc);
  }

  lemma {:induction false} TrackBound(s1: nat, s2: nat, cn: nat, uc: byte)
    requires cn < 5000 && s1 <= 65520 + 255 * cn && 2 * s2 <= Limit(cn)
    ensures s1 + uc <= 65520 + 255 * (cn + 1) < WORD && 2 * (s2 + (s1 + uc)) <= Limit(cn + 1) < 2 * WORD
  {
    LimitFits(cn + 1);
    assert Limit(cn + 1) == Limit(cn) + 2 * (65520 + 255 * (cn + 1));
  }

  lemma {:induction false} TrackSums(s1: nat, s2: nat, t: Sums, uc: byte)
    requires Reduced(t) && s1 % PRIME == t.s1 && s2 % PRIME == t.s2
    ensures (s1 + uc) % PRIME == AddOne(t, uc).s1 && (s2 + (s1 + uc)) % PRIME == AddOne(t, uc).s2
    ensures Reduced(AddOne(t, uc))
  {
    SameSum(s1, t.s1, uc, uc);
    SameSum(s2, t.s2, s1 + uc, (t.s1 + uc) % PRIME);
  }

  lemma {:induction false} NoWrap(x: nat, y: nat)
    requires x + y < WORD
    ensures Add32(x, y) == x + y
  {
  }

  lemma {:induction false} Unpack(s: Sums)
    requires Reduced(s)
    ensures Pack(s) % 65536 == s.s1 && Pack(s) / 65536 == s.s2 && s.s2 * 65536 < WORD && Pack(s) < WORD
  {
  }

  lemma {:induction false} PackFits(s: Sums)
    requires Reduced(s)
    ensures (s.s2 * 65536) % WORD + s.s1 == Pack(s) < WORD
  {
    Unpack(s);
  }

  lemma {:induction false} PackIs(s1: nat, s2: nat, cn: nat, t: Sums)
    requires Tracks(s1, s2, cn, t)
    ensures ((s2 % PRIME) * 65536) % WORD + s1 % PRIME == Pack(t) < WORD
  {
    PackFits(Sums(s1 % PRIME, s2 % PRIME));
  }

  lemma {:induction false} AdlerStep(t: Sums, buffer: seq<byte>, i: nat)
    requires i < |buffer|
    ensures Adler(t, buffer[i..]) == Adler(AddOne(t, buffer[i]), buffer[i + 1..])
  {
    assert buffer[i..][1..] == buffer[i + 1..];
  }

  /**
   sc_io_adler32_update: the sums are reduced only every 5000 bytes.  All additions are
   modulo 2^32; none of them wraps.
   */
  method AdlerUpdate(adler: nat, buffer: seq<byte>, ghost s: Sums) returns (out: nat)
    requires Reduced(s) && adler == Pack(s)
    ensures out == Pack(Adler(s, buffer)) && out < WORD
  {
    Unpack(s);
    var s1: nat, s2: nat := adler % 65536, adler / 65536;
    var cn: nat := 0;
    ghost var t := s;
    for iz := 0 to |buffer|
      invariant Tracks(s1, s2, cn, t)
      invariant Adler(t, buffer[iz..]) == Adler(s, buffer)
    {
      if cn == 5000 {
        TrackReduce(s1, s2, cn, t);
        s1, s2, cn := s1 % PRIME, s2 % PRIME, 0;
      }
      TrackAdd(s1, s2, cn, t, buffer[iz]);
      AdlerStep(t, buffer, iz);
      s1 := Add32(s1, buffer[iz]);
      s2 := Add32(s2, s1);
      cn := cn + 1;
      t := AddOne(t, buffer[iz]);
    }
    PackIs(s1, s2, cn, t);
    out := s2 % PRIME;
    out := (out * 65536) % WORD + s1 % PRIME;
  }

  // ---------------------------------------------------------------- the checksum in closed form

  function Sum(data: seq<byte>): nat {
    if data == [] then 0 else data[0] + Sum(data[1..])
  }

  /** The sum of the sums of all nonempty prefixes. */
  function Weighted(data: seq<byte>): nat {
    if data == [] then 0 else |data| * data[0] + Weighted(data[1..])
  }

  lemma {:induction false} SameMultiple(n: nat, a: nat)
    ensures (n * (a % PRIME)) % PRIME == (n * a) % PRIME
  {
    if n > 0 {
      SameMultiple(n - 1, a);
      SameSum((n - 1) * (a % PRIME), (n - 1) * a, a % PRIME, a);
      assert n * (a % PRIME) == (n - 1) * (a % PRIME) + a % PRIME && n * a == (n - 1) * a + a;
    }
  }

  /** s2 + a' + (n - 1) a' + w for a' = a mod p, without the inner reductions. */
  lemma {:induction false} SecondSum(s2: nat, a: nat, n: nat, w: nat)
    requires n > 0
    ensures ((s2 + a % PRIME) % PRIME + (n - 1) * (a % PRIME) + w) % PRIME == (s2 + n * a + w) % PRIME
  {
    var r := a % PRIME;
    SameSum((s2 + r) % PRIME, s2 + r, (n - 1) * r + w, (n - 1) * r + w);
    SameMultiple(n, a);
    SameSum(n * r, n * a, s2 + w, s2 + w);
    assert (s2 + r) + ((n - 1) * r + w) == n * r + (s2 + w);
  }

  lemma {:induction false} AdlerClosed(s: Sums, data: seq<byte>)
    requires Reduced(s)
    ensures Adler(s, data).s1 == (s.s1 + Sum(data)) % PRIME
    ensures Adler(s, data).s2 == (s.s2 + |data| * s.s1 + Weighted(data)) % PRIME
    decreases |data|
  {
    if data != [] {
      var rest := data[1..];
      AdlerClosed(AddOne(s, data[0]), rest);
      ClosedStep(s, data[0], |data|, Sum(rest), Weighted(rest));
    }
  }

  lemma {:induction false} ClosedStep(s: Sums, d: byte, n: nat, sum: nat, w: nat)
    requires n > 0
    ensures (AddOne(s, d).s1 + sum) % PRIME == (s.s1 + (d + sum)) % PRIME
    ensures (AddOne(s, d).s2 + (n - 1) * AddOne(s, d).s1 + w) % PRIME == (s.s2 + n * s.s1 + (n * d + w)) % PRIME
  {
    var a: nat := s.s1 + d;
    SameSum(a % PRIME, a, sum, sum);
    SecondSum(s.s2, a, n, w);
    assert n * a == n * s.s1 + n * d;
  }

  /**
   The checksum of section 2.2 of RFC 1950 from the sums alone: one plus the sum of the
   bytes, and the sum of these numbers over all nonempty prefixes, both modulo 65521.
   */
  lemma {:induction false} ChecksumIs(data: seq<byte>)
    ensures Checksum(data) == (|data| + Weighted(data)) % 65521 * 65536 + (1 + Sum(data)) % 65521
  {
    AdlerClosed(Unit, data);
  }

  // ---------------------------------------------------------------- compress

  function Header(final: bool, size: nat): seq<byte>
    requires size < 65536
  {
    var nsize := 65535 - size;
    [if final then 1 else 0, size % 256, size / 256, nsize % 256, nsize / 256]
  }

  /** The stored blocks of the data; there is always a last one, perhaps empty. */
  function Stored(data: seq<byte>): seq<byte>
    decreases |data|
  {
    if |data| > NONCOMP_BLOCK then
      Header(false, NONCOMP_BLOCK) + data[..NONCOMP_BLOCK] + Stored(data[NONCOMP_BLOCK..])
    else Header(true, |data|) + data
  }

  /** Four bytes that spell x, the highest first. */
  function BigEndian(x: nat): (b: seq<byte>)
    requires x < WORD
    ensures |b| == 4 && ((b[0] as int * 256 + b[1]) * 256 + b[2]) * 256 + b[3] == x
  {
    FourBytes(x);
    [x / 16777216, x / 65536 % 256, x / 256 % 256, x % 256]
  }

  lemma {:induction false} FourBytes(x: nat)
    requires x < WORD
    ensures x / 16777216 < 256
    ensures ((x / 16777216 * 256 + x / 65536 % 256) * 256 + x / 256 % 256) * 256 + x % 256 == x
  {
    var h, m := x / 65536, x / 256;
    assert m / 256 == h && h / 256 == x / 16777216;
    assert h == h / 256 * 256 + h % 256 && m == h * 256 + m % 256;
  }

  function Checksum(data: seq<byte>): nat { Pack(Adler(Unit, data)) }

  lemma {:induction false} ChecksumFits(data: seq<byte>)
    ensures Checksum(data) < WORD
  {
    AdlerReduced(Unit, data);
  }

  /** The whole zlib stream. */
  function Stream(data: seq<byte>): seq<byte> {
    ChecksumFits(data);
    [120, 1] + Stored(data) + BigEndian(Checksum(data))
  }

  function NoncompressBound(length: nat): nat {
    var blocks := (length + (NONCOMP_BLOCK - 1)) / NONCOMP_BLOCK;
    2 + 5 * (if blocks > 1 then blocks else 1) + length + 4
  }

  lemma {:induction false} StoredLength(data: seq<byte>)
    ensures |Stored(data)| + 6 == NoncompressBound(|data|)
    decreases |data|
  {
    if |data| > NONCOMP_BLOCK { StoredLength(data[NONCOMP_BLOCK..]); }
  }

  lemma {:induction false} StoredStep(dest: seq<byte>, rest: seq<byte>, goal: seq<byte>)
    requires dest + Stored(rest) == goal
    ensures |rest| > NONCOMP_BLOCK ==>
              dest + Header(false, NONCOMP_BLOCK) + rest[..NONCOMP_BLOCK] + Stored(rest[NONCOMP_BLOCK..]) == goal
    ensures |rest| <= NONCOMP_BLOCK ==> dest + Header(true, |rest|) + rest == goal
  {
  }

  /** Block k of the data stands in s at byte 65536 k: a header of 5 bytes and up to 65531 bytes of data. */
  ghost predicate BlockAt(s: seq<byte>, data: seq<byte>, k: nat) {
    var at, last := 65536 * k, |data| <= 65531 * (k + 1);
    var len := if last then |data| - 65531 * k else 65531;
    && 0 <= len && at + 5 + len <= |s| && (last ==> |s| == at + 5 + len)
    && s[at] == (if last then 1 else 0)
    && s[at + 1] as int + 256 * (s[at + 2] as int) == len
    && s[at + 3] as int + 256 * (s[at + 4] as int) == 65535 - len
    && s[at + 5..at + 5 + len] == data[65531 * k..65531 * k + len]
  }

  lemma {:induction false} StoredBlock(data: seq<byte>, k: nat)
    requires k == 0 || 65531 * k < |data|
    ensures BlockAt(Stored(data), data, k)
  {
    if k > 0 {
      StoredBlock(data[65531..], k - 1);
      StoredLater(data, k);
    } else {
      StoredFirst(data, Stored(data));
    }
  }

  lemma {:induction false} StoredLater(data: seq<byte>, k: nat)
    requires k > 0 && 65531 * k < |data| && BlockAt(Stored(data[65531..]), data[65531..], k - 1)
    ensures BlockAt(Stored(data), data, k)
  {
    StoredRest(data);
    BlockLater(Stored(data), data, k);
  }

  lemma {:induction false} StoredRest(data: seq<byte>)
    requires |data| > 65531
    ensures |Stored(data)| >= 65536 && Stored(data)[65536..] == Stored(data[65531..])
  {
    var head := Header(false, 65531) + data[..65531];
    assert |head| == 65536 && Stored(data) == head + Stored(data[65531..]);
  }

  lemma {:induction false} StoredFirst(data: seq<byte>, s: seq<byte>)
    requires s == Stored(data)
    ensures BlockAt(s, data, 0)
  {
    if |data| > 65531 {
      HeaderRead(false, 65531, s);
      assert s[5..65536] == data[..65531];
    } else {
      HeaderRead(true, |data|, s);
      assert s[5..5 + |data|] == data;
    }
  }

  lemma {:induction false} BlockLater(s: seq<byte>, data: seq<byte>, k: nat)
    requires k > 0 && 65531 * k < |data| && |s| >= 65536 && BlockAt(s[65536..], data[65531..], k - 1)
    ensures BlockAt(s, data, k)
  {
    var len := if |data| <= 65531 * (k + 1) then |data| - 65531 * k else 65531;
    SliceLater(data, data[65531..], 65531, 65531 * (k - 1), len);
    SliceLater(s, s[65536..], 65536, 65536 * (k - 1), 5);
    SliceLater(s, s[65536..], 65536, 65536 * (k - 1) + 5, len);
  }

  lemma {:induction false} SliceLater(s: seq<byte>, rest: seq<byte>, n: nat, at: nat, len: nat)
    requires n <= |s| && rest == s[n..] && at + len <= |rest|
    ensures s[n + at..n + at + len] == rest[at..at + len]
  {
  }

  /** The frame: CMF 0x78, FLG 0x01, the blocks, and the checksum with its highest byte first. */
  lemma {:induction false} StreamFrame(data: seq<byte>)
    ensures var s := Stream(data); var n := |s| - 4;
      && n >= 7 && s[0] == 0x78 && s[1] == 0x01 && s[2..n] == Stored(data)
      && ((s[n] as int * 256 + s[n + 1]) * 256 + s[n + 2]) * 256 + s[n + 3] == Checksum(data)
  {
    ChecksumFits(data);
    var s, b := Stream(data), BigEndian(Checksum(data));
    var n := |s| - 4;
    assert s[n..] == b;
    assert s[n] == b[0] && s[n + 1] == b[1] && s[n + 2] == b[2] && s[n + 3] == b[3];
  }

  /** sc_io_noncompress */
  method Noncompress(src: seq<byte>) returns (dest: seq<byte>)
    ensures dest == Stream(src) && |dest| == NoncompressBound(|src|)
  {
    dest := [120, 1];
    var adler := 1;
    var rest := src;
    ghost var done: seq<byte>, goal := [], [120, 1] + Stored(src);
    var more := true;
    while more
      invariant done + rest == src && adler == Checksum(done)
      invariant more ==> dest + Stored(rest) == goal
      invariant !more ==> dest == goal && rest == []
      decreases more, |rest|
    {
      StoredStep(dest, rest, goal);
      var final := |rest| <= NONCOMP_BLOCK;
      var bsize := if final then |rest| else NONCOMP_BLOCK;
      var block := rest[..bsize];
      assert final ==> block == rest;
      dest := dest + Header(final, bsize) + block;
      adler := Extend(adler, done, block);
      assert done + block + rest[bsize..] == done + rest;
      done := done + block;
      rest := rest[bsize..];
      more := |rest| > 0;
    }
    assert done == src;
    ChecksumFits(src);
    StoredLength(src);
    dest := dest + BigEndian(adler);
  }

  /** The running checksum of `done` extended by a block. */
  method Extend(adler: nat, ghost done: seq<byte>, block: seq<byte>) returns (out: nat)
    requires adler == Checksum(done)
    ensures out == Checksum(done + block)
  {
    AdlerReduced(Unit, done);
    AdlerAppend(Unit, done, block);
    out := AdlerUpdate(adler, block, Adler(Unit, done));
  }

  // ---------------------------------------------------------------- uncompress

  datatype Result<T> = Ok(value: T) | Error

  /** The blocks of `src` into `room` bytes; on success also what follows the last block. */
  function Blocks(src: seq<byte>, room: nat): Result<(seq<byte>, seq<byte>)>
    decreases |src|
  {
    if |src| < 5 || src[0] > 1 then Error
    else
      var final := src[0] == 1;
      var bsize: int := src[2] as int * 256 + src[1];
      var nsize: int := src[4] as int * 256 + src[3];
      if (final && bsize < room) || bsize + nsize != 65535 then Error
      else if bsize > room || bsize > |src| - 5 then Error
      else
        var block, rest := src[5..5 + bsize], src[5 + bsize..];
        if final then Ok((block, rest))
        else
          match Blocks(rest, room - bsize)
          case Error => Error
          case Ok((more, tail)) => Ok((block + more, tail))
  }

  /** sc_io_nonuncompress as a function: the data, or an error. */
  function Uncompress(src: seq<byte>, size: nat): Result<seq<byte>> {
    if |src| < 2 || !HeaderFits(src[0], src[1]) then Error
    else Trailed(Blocks(src[2..], size), size)
  }

  function Trailed(blocks: Result<(seq<byte>, seq<byte>)>, size: nat): Result<seq<byte>> {
    match blocks
    case Error => Error
    case Ok((data, tail)) => TrailerFits(data, tail, size)
  }

  /**
   Section 2.2 of RFC 1950: method 8 with a window of at most 32K, the check bits right, and
   no preset dictionary.
   */
  lemma {:induction false} HeaderFitsIff(cmf: byte, flg: byte)
    ensures HeaderFits(cmf, flg) <==> exists cinfo, flevel, fcheck :: HeaderFields(cmf, flg, cinfo, flevel, fcheck)
  {
    if HeaderFits(cmf, flg) { FitsFields(cmf, flg); }
    if cinfo, flevel, fcheck :| HeaderFields(cmf, flg, cinfo, flevel, fcheck) {
      FieldsFit(cmf, flg, cinfo, flevel, fcheck);
    }
  }

  lemma {:induction false} FitsFields(cmf: byte, flg: byte)
    requires HeaderFits(cmf, flg)
    ensures HeaderFields(cmf, flg, cmf / 16, flg / 64, flg % 32)
  {
    FieldsRead(cmf, flg);
  }

  lemma {:induction false} FieldsFit(cmf: byte, flg: byte, cinfo: int, flevel: int, fcheck: int)
    requires HeaderFields(cmf, flg, cinfo, flevel, fcheck)
    ensures HeaderFits(cmf, flg)
  {
    FieldsWritten(cmf, flg, cinfo, flevel, fcheck);
  }

  lemma {:induction false} FieldsRead(cmf: int, flg: int)
    requires 0 <= cmf < 128 && cmf % 16 == 8 && 0 <= flg < 256 && flg / 32 % 2 == 0
    ensures 0 <= cmf / 16 <= 7 && cmf == 16 * (cmf / 16) + 8
    ensures 0 <= flg / 64 <= 3 && flg == 64 * (flg / 64) + flg % 32
  {
  }

  lemma {:induction false} FieldsWritten(cmf: int, flg: int, cinfo: int, flevel: int, fcheck: int)
    requires 0 <= cinfo <= 7 && 0 <= flevel <= 3 && 0 <= fcheck <= 31
    requires cmf == 16 * cinfo + 8 && flg == 64 * flevel + fcheck
    ensures 0 <= cmf < 128 && cmf % 16 == 8 && flg / 32 % 2 == 0
  {
  }

  /** The fields of the two header bytes; no bit is set for a dictionary. */
  ghost predicate HeaderFields(cmf: byte, flg: byte, cinfo: int, flevel: int, fcheck: int) {
    && 0 <= cinfo <= 7 && 0 <= flevel <= 3 && 0 <= fcheck <= 31
    && cmf == 16 * cinfo + 8 && flg == 64 * flevel + fcheck && (cmf as int * 256 + flg) % 31 == 0
  }

  lemma {:induction false} HeaderIs(cmf: byte, flg: byte)
    requires cmf == 120 && flg == 1
    ensures HeaderFits(cmf, flg)
  {
  }

  predicate HeaderFits(cmf: byte, flg: byte) {
    cmf / 128 == 0 && cmf % 16 == 8 && (cmf as int * 256 + flg) % 31 == 0 && flg / 32 % 2 == 0
  }

  function TrailerFits(data: seq<byte>, tail: seq<byte>, size: nat): Result<seq<byte>> {
    ChecksumFits(data);
    if |tail| != 4 || |data| != size then Error
    else if tail != BigEndian(Checksum(data)) then Error
    else Ok(data)
  }

  lemma {:induction false} TrailerFitting(data: seq<byte>, tail: seq<byte>)
    requires Checksum(data) < WORD && tail == BigEndian(Checksum(data))
    ensures TrailerFits(data, tail, |data|) == Ok(data)
  {
  }

  lemma {:induction false} BlocksInverse(data: seq<byte>, tail: seq<byte>)
    ensures Blocks(Stored(data) + tail, |data|) == Ok((data, tail))
    decreases |data|
  {
    if |data| > NONCOMP_BLOCK {
      var head, rest := data[..NONCOMP_BLOCK], data[NONCOMP_BLOCK..];
      BlocksInverse(rest, tail);
      StoredMore(data, tail);
      FirstBlock(head, Stored(rest) + tail, |data|, Stored(data) + tail, rest, tail);
      assert data == head + rest;
    } else {
      StoredLast(data, tail);
      LastBlock(data, tail, Stored(data) + tail);
    }
  }

  lemma {:induction false} StoredMore(data: seq<byte>, tail: seq<byte>)
    requires |data| > NONCOMP_BLOCK
    ensures Stored(data) + tail
            == Header(false, NONCOMP_BLOCK) + data[..NONCOMP_BLOCK] + (Stored(data[NONCOMP_BLOCK..]) + tail)
  {
    JoinRight(Header(false, NONCOMP_BLOCK) + data[..NONCOMP_BLOCK], Stored(data[NONCOMP_BLOCK..]), tail);
  }

  lemma {:induction false} StoredLast(data: seq<byte>, tail: seq<byte>)
    requires |data| <= NONCOMP_BLOCK
    ensures Stored(data) + tail == Header(true, |data|) + data + tail
  {
  }

  lemma {:induction false} JoinRight(a: seq<byte>, b: seq<byte>, c: seq<byte>)
    ensures a + b + c == a + (b + c)
  {
  }

  /** Reading one stored block off the front. */
  lemma {:induction false} FirstBlock(head: seq<byte>, more: seq<byte>, room: nat, s: seq<byte>, d: seq<byte>,
          t: seq<byte>)
    requires |head| < 65536 && |head| <= room && s == Header(false, |head|) + head + more
    requires Blocks(more, room - |head|) == Ok((d, t))
    ensures Blocks(s, room) == Ok((head + d, t))
  {
    CutBlock(Header(false, |head|), head, more, s);
    HeaderRead(false, |head|, s);
  }

  lemma {:induction false} CutBlock(header: seq<byte>, block: seq<byte>, more: seq<byte>, s: seq<byte>)
    requires |header| == 5 && s == header + block + more
    ensures s[..5] == header && s[5..5 + |block|] == block && s[5 + |block|..] == more
  {
  }

  /** The five bytes of a block header as they are read. */
  lemma {:induction false} HeaderRead(final: bool, size: nat, s: seq<byte>)
    requires size < 65536 && |s| >= 5 && s[..5] == Header(final, size)
    ensures s[0] == (if final then 1 else 0)
    ensures s[2] as int * 256 + s[1] == size && s[4] as int * 256 + s[3] == 65535 - size
  {
    SizeBytes(size);
    SizeBytes(65535 - size);
    assert s[..5][0] == s[0] && s[..5][1] == s[1] && s[..5][2] == s[2] && s[..5][3] == s[3] && s[..5][4] == s[4];
  }

  lemma {:induction false} LastBlock(data: seq<byte>, tail: seq<byte>, s: seq<byte>)
    requires |data| < 65536 && s == Header(true, |data|) + data + tail
    ensures Blocks(s, |data|) == Ok((data, tail))
  {
    CutBlock(Header(true, |data|), data, tail, s);
    HeaderRead(true, |data|, s);
  }

  lemma {:induction false} SizeBytes(size: nat)
    ensures size / 256 * 256 + size % 256 == size
  {
  }

  lemma {:induction false} UncompressParts(s: seq<byte>, data: seq<byte>, tail: seq<byte>)
    requires |s| >= 2 && s[0] == 120 && s[1] == 1 && Blocks(s[2..], |data|) == Ok((data, tail))
    requires Checksum(data) < WORD && tail == BigEndian(Checksum(data))
    ensures Uncompress(s, |data|) == Ok(data)
  {
    TrailerFitting(data, tail);
    HeaderIs(s[0], s[1]);
    assert Trailed(Blocks(s[2..], |data|), |data|) == Ok(data);
  }

  /** Uncompressing undoes compressing. */
  lemma {:induction false} StreamInverse(data: seq<byte>)
    ensures Uncompress(Stream(data), |data|) == Ok(data)
  {
    ChecksumFits(data);
    var tail := BigEndian(Checksum(data));
    BlocksInverse(data, tail);
    var s := Stream(data);
    assert s == [120, 1] + (Stored(data) + tail);
    assert s[2..] == Stored(data) + tail;
    UncompressParts(s, data, tail);
  }

  // ---------------------------------------------------------------- what is accepted

  ghost predicate Framable(chunks: seq<seq<byte>>) {
    chunks != [] && forall i :: 0 <= i < |chunks| ==> |chunks[i]| < 65536
  }

  /** Stored blocks of any sizes, the last one marked. */
  ghost function Framed(chunks: seq<seq<byte>>): seq<byte>
    requires Framable(chunks)
  {
    if |chunks| == 1 then Header(true, |chunks[0]|) + chunks[0]
    else Header(false, |chunks[0]|) + chunks[0] + Framed(chunks[1..])
  }

  lemma {:induction false} FramedRead(chunks: seq<seq<byte>>, tail: seq<byte>)
    requires Framable(chunks)
    ensures Blocks(Framed(chunks) + tail, |Join(chunks)|) == Ok((Join(chunks), tail))
  {
    var s := Framed(chunks) + tail;
    if |chunks| == 1 {
      assert Join(chunks) == chunks[0] by { assert Join(chunks[1..]) == []; }
      LastBlock(chunks[0], tail, s);
    } else {
      var rest := chunks[1..];
      FramedRead(rest, tail);
      JoinRight(Header(false, |chunks[0]|) + chunks[0], Framed(rest), tail);
      FirstBlock(chunks[0], Framed(rest) + tail, |Join(chunks)|, s, Join(rest), tail);
    }
  }

  /** The bytes of a header are determined by what is read from them. */
  lemma {:induction false} HeaderBack(s: seq<byte>)
    requires |s| >= 5 && s[0] <= 1
    requires (s[2] as int * 256 + s[1]) + (s[4] as int * 256 + s[3]) == 65535
    ensures var size := s[2] as int * 256 + s[1]; size < 65536 && s[..5] == Header(s[0] == 1, size)
  {
    var size := s[2] as int * 256 + s[1];
    var nsize := s[4] as int * 256 + s[3];
    assert size % 256 == s[1] && size / 256 == s[2] && nsize % 256 == s[3] && nsize / 256 == s[4];
  }

  lemma {:induction false} ReadFramed(src: seq<byte>, room: nat) returns (chunks: seq<seq<byte>>)
    requires Blocks(src, room).Ok?
    ensures Framable(chunks) && Join(chunks) == Blocks(src, room).value.0 && |Join(chunks)| == room
    ensures src == Framed(chunks) + Blocks(src, room).value.1
    decreases |src|
  {
    var bsize: nat := src[2] as int * 256 + src[1];
    var block, rest := src[5..5 + bsize], src[5 + bsize..];
    FirstFramed(src, bsize);
    if src[0] == 1 {
      chunks := [block];
      assert Join(chunks) == block by { assert Join(chunks[1..]) == []; }
    } else {
      var more := ReadFramed(rest, room - bsize);
      chunks := [block] + more;
      OneMoreFramed(block, more, Blocks(rest, room - bsize).value.1);
    }
  }

  lemma {:induction false} FirstFramed(src: seq<byte>, bsize: nat)
    requires |src| >= 5 && src[0] <= 1 && bsize == src[2] as int * 256 + src[1] && 5 + bsize <= |src|
    requires bsize + (src[4] as int * 256 + src[3]) == 65535
    ensures bsize < 65536 && src == Header(src[0] == 1, bsize) + src[5..5 + bsize] + src[5 + bsize..]
  {
    HeaderBack(src);
    assert src == src[..5] + src[5..5 + bsize] + src[5 + bsize..];
  }

  lemma {:induction false} OneMoreFramed(block: seq<byte>, more: seq<seq<byte>>, tail: seq<byte>)
    requires |block| < 65536 && Framable(more)
    ensures var chunks := [block] + more;
      && Framable(chunks) && Join(chunks) == block + Join(more)
      && Framed(chunks) + tail == Header(false, |block|) + block + (Framed(more) + tail)
  {
    var chunks := [block] + more;
    assert chunks[1..] == more;
    JoinRight(Header(false, |block|) + block, Framed(more), tail);
  }

  /** A stream with stored blocks `chunks` for the data. */
  ghost predicate IsStream(src: seq<byte>, cmf: byte, flg: byte, chunks: seq<seq<byte>>) {
    && HeaderFits(cmf, flg) && Framable(chunks) && Checksum(Join(chunks)) < WORD
    && src == [cmf, flg] + Framed(chunks) + BigEndian(Checksum(Join(chunks)))
  }

  /** Exactly the streams of stored blocks of that total size are accepted, and give their data. */
  lemma {:induction false} AcceptedIff(src: seq<byte>, size: nat, data: seq<byte>)
    ensures Uncompress(src, size) == Ok(data) <==>
            |data| == size && exists cmf, flg, chunks :: IsStream(src, cmf, flg, chunks) && Join(chunks) == data
  {
    if Uncompress(src, size) == Ok(data) {
      var chunks := ReadStream(src, size, data);
    }
    if |data| == size && exists cmf, flg, chunks :: IsStream(src, cmf, flg, chunks) && Join(chunks) == data {
      var cmf, flg, chunks :| IsStream(src, cmf, flg, chunks) && Join(chunks) == data;
      StreamRead(src, cmf, flg, chunks);
    }
  }

  lemma {:induction false} ReadStream(src: seq<byte>, size: nat, data: seq<byte>) returns (chunks: seq<seq<byte>>)
    requires Uncompress(src, size) == Ok(data)
    ensures |src| >= 2 && IsStream(src, src[0], src[1], chunks) && Join(chunks) == data && |data| == size
  {
    ChecksumFits(data);
    chunks := ReadFramed(src[2..], size);
    TrailerIs(Blocks(src[2..], size).value.0, Blocks(src[2..], size).value.1, size);
    assert src == [src[0], src[1]] + (Framed(chunks) + BigEndian(Checksum(data)));
  }

  lemma {:induction false} TrailerIs(data: seq<byte>, tail: seq<byte>, size: nat)
    requires TrailerFits(data, tail, size).Ok?
    ensures TrailerFits(data, tail, size) == Ok(data) && Checksum(data) < WORD && tail == BigEndian(Checksum(data))
  {
    ChecksumFits(data);
  }

  lemma {:induction false} StreamRead(src: seq<byte>, cmf: byte, flg: byte, chunks: seq<seq<byte>>)
    requires IsStream(src, cmf, flg, chunks)
    ensures Uncompress(src, |Join(chunks)|) == Ok(Join(chunks))
  {
    var data, tail := Join(chunks), BigEndian(Checksum(Join(chunks)));
    FramedRead(chunks, tail);
    assert src == [cmf, flg] + (Framed(chunks) + tail);
    assert src[0] == cmf && src[1] == flg && src[2..] == Framed(chunks) + tail;
    TrailerFitting(data, tail);
  }

  /** What is accepted has the announced size and carries its own checksum. */
  lemma {:induction false} Accepted(src: seq<byte>, size: nat)
    requires Uncompress(src, size).Ok?
    ensures var data := Uncompress(src, size).value;
      && |data| == size && |src| >= 6 && Checksum(data) < WORD
      && src[|src| - 4..] == BigEndian(Checksum(data))
  {
    var data := Uncompress(src, size).value;
    ChecksumFits(data);
    BlocksTail(src[2..], size);
  }

  lemma {:induction false} BlocksTail(src: seq<byte>, room: nat)
    requires Blocks(src, room).Ok?
    ensures var tail := Blocks(src, room).value.1; |tail| <= |src| && src[|src| - |tail|..] == tail
    decreases |src|
  {
    var bsize: int := src[2] as int * 256 + src[1];
    if src[0] == 0 { BlocksTail(src[5 + bsize..], room - bsize); }
  }

  function Prefixed(dest: seq<byte>, r: Result<(seq<byte>, seq<byte>)>): Result<(seq<byte>, seq<byte>)> {
    match r
    case Error => Error
    case Ok((more, tail)) => Ok((dest + more, tail))
  }

  lemma {:induction false} BlockStep(dest: seq<byte>, src: seq<byte>, room: nat)
    requires |src| >= 5 && src[0] <= 1
    ensures var bsize, nsize := src[2] as int * 256 + src[1], src[4] as int * 256 + src[3];
      if (src[0] == 1 && bsize < room) || bsize + nsize != 65535 || bsize > room || bsize > |src| - 5 then
        Blocks(src, room).Error?
      else
        var block, rest := src[5..][..bsize], src[5..][bsize..];
        Prefixed(dest, Blocks(src, room)) ==
          if src[0] == 1 then Ok((dest + block, rest)) else Prefixed(dest + block, Blocks(rest, room - bsize))
  {
    var bsize: int := src[2] as int * 256 + src[1];
    if bsize <= |src| - 5 {
      assert src[5..][..bsize] == src[5..5 + bsize] && src[5..][bsize..] == src[5 + bsize..];
      if bsize <= room && Blocks(src[5 + bsize..], room - bsize).Ok? {
        var more := Blocks(src[5 + bsize..], room - bsize).value.0;
        assert dest + (src[5..5 + bsize] + more) == dest + src[5..5 + bsize] + more;
      }
    }
  }

  /** sc_io_nonuncompress, the branch for stored blocks. */
  method Nonuncompress(src0: seq<byte>, size: nat) returns (r: Result<seq<byte>>)
    ensures r == Uncompress(src0, size)
  {
    if |src0| < 2 || !HeaderFits(src0[0], src0[1]) {
      return Error;
    }
    var src := src0[2..];
    var room: nat := size;
    var dest: seq<byte> := [];
    var adler := 1;
    var final := false;
    ghost var all := Blocks(src, size);
    assert Prefixed([], all) == all by { if all.Ok? { assert [] + all.value.0 == all.value.0; } }
    while !final
      invariant room + |dest| == size && adler == Checksum(dest)
      invariant !final ==> all == Prefixed(dest, Blocks(src, room))
      invariant final ==> all == Ok((dest, src))
      decreases !final, |src|
    {
      if |src| < 5 || src[0] > 1 {
        return Error;
      }
      BlockStep(dest, src, room);
      final := src[0] == 1;
      var bsize: int := src[2] as int * 256 + src[1];
      var nsize: int := src[4] as int * 256 + src[3];
      if (final && bsize < room) || bsize + nsize != 65535 {
        return Error;
      }
      src := src[5..];
      if bsize > room || bsize > |src| {
        return Error;
      }
      var block := src[..bsize];
      src := src[bsize..];
      adler := Extend(adler, dest, block);
      dest := dest + block;
      room := room - bsize;
    }
    ChecksumFits(dest);
    assert Uncompress(src0, size) == TrailerFits(dest, src, size);
    if |src| != 4 || room != 0 || src != BigEndian(adler) {
      return Error;
    }
    r := Ok(dest);
  }
}
