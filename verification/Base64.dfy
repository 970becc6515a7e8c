/**
 The base64 coroutines of libb64: an encoder with three and a decoder with four places at
 which it can be suspended.  Bit fields that do not overlap are joined by addition.
 */
module Base64 {

  type byte = b: int | 0 <= b < 256

  const EQUALS: byte := 61      // '='

  /** The digit of a value below 64, and '=' beyond. */
  function EncodeValue(v: int): byte
    requires 0 <= v
  {
    if v > 63 then EQUALS
    else if v < 26 then v + 65          // A-Z
    else if v < 52 then v + 71          // a-z
    else if v < 62 then v - 4           // 0-9
    else if v == 62 then 43 else 47     // + and /
  }

  /** The position in the alphabet, negative for '=' and for every other byte. */
  function DecodeValue(c: byte): int {
    if 65 <= c <= 90 then c - 65
    else if 97 <= c <= 122 then c - 71
    else if 48 <= c <= 57 then c + 4
    else if c == 43 then 62
    else if c == 47 then 63
    else if c == EQUALS then -2
    else -1
  }

  lemma {:induction false} ValueInverse(v: int)
    requires 0 <= v < 64
    ensures DecodeValue(EncodeValue(v)) == v
  {
  }

  // ---------------------------------------------------------------- the alphabet

  const UPPER: string := "ABCDEFGHIJKLMNOPQRSTUVWXYZ"
  const LOWER: string := "abcdefghijklmnopqrstuvwxyz"
  const FIGURES: string := "0123456789"

  /** Table 1 in section 4 of RFC 4648. */
  const ALPHABET: string := UPPER + LOWER + FIGURES + "+/"

  ghost predicate IsDigit(c: byte) { exists v :: 0 <= v < 64 && EncodeValue(v) == c }

  lemma {:induction false} Capital(v: nat)
    requires v < 26
    ensures UPPER[v] as int == 'A' as int + v
  {
  }

  lemma {:induction false} Small(v: nat)
    requires v < 26
    ensures LOWER[v] as int == 'a' as int + v
  {
  }

  lemma {:induction false} Figure(v: nat)
    requires v < 10
    ensures FIGURES[v] as int == '0' as int + v
  {
  }

  /** The encoder's digits are those of the standard. */
  lemma {:induction false} AlphabetIs(v: nat)
    requires v < 64
    ensures |ALPHABET| == 64 && ALPHABET[v] as int == EncodeValue(v)
  {
    if v < 26 {
      Capital(v);
    } else if v < 52 {
      Small(v - 26);
    } else if v < 62 {
      Figure(v - 52);
    }
  }

  /** The decoder takes exactly the digits. */
  lemma {:induction false} DecodedDigits(c: byte)
    ensures DecodeValue(c) >= 0 <==> IsDigit(c)
    ensures IsDigit(c) ==> DecodeValue(c) < 64 && EncodeValue(DecodeValue(c)) == c
  {
    if DecodeValue(c) >= 0 { assert EncodeValue(DecodeValue(c)) == c; }
  }

  /** The digits are the characters of the table, and '=' is none of them. */
  lemma {:induction false} DigitsAre(c: byte)
    ensures IsDigit(c) <==> c as char in ALPHABET
    ensures IsDigit(c) ==> c != '=' as int
  {
    if v :| 0 <= v < 64 && EncodeValue(v) == c { AlphabetIs(v); }
    if c as char in ALPHABET {
      var v :| 0 <= v < |ALPHABET| && ALPHABET[v] == c as char;
      AlphabetIs(v);
    }
  }

  // ---------------------------------------------------------------- encoder

  datatype EncodeStep = StepA | StepB | StepC
  datatype EncodeState = EncodeState(step: EncodeStep, result: int)

  ghost predicate EncodeOk(st: EncodeState) {
    0 <= st.result < 64
  }

  const EncodeStart := EncodeState(StepA, 0)

  /** The state after one input byte. */
  function EncodeNext(st: EncodeState, b: byte): EncodeState {
    match st.step
    case StepA => EncodeState(StepB, (b % 4) * 16)
    case StepB => EncodeState(StepC, (b % 16) * 4)
    case StepC => EncodeState(StepA, b % 64)
  }

  /** The characters that one input byte completes. */
  function EncodePut(st: EncodeState, b: byte): seq<byte>
    requires EncodeOk(st)
  {
    match st.step
    case StepA => [EncodeValue(b / 4)]
    case StepB => [EncodeValue(st.result + b / 16)]
    case StepC => [EncodeValue(st.result + b / 64), EncodeValue(b % 64)]
  }

  function EncodeAfter(st: EncodeState, plain: seq<byte>): (r: EncodeState)
    requires EncodeOk(st)
    ensures EncodeOk(r)
    decreases |plain|
  {
    if plain == [] then st else EncodeAfter(EncodeNext(st, plain[0]), plain[1..])
  }

  function Encode(st: EncodeState, plain: seq<byte>): seq<byte>
    requires EncodeOk(st)
    decreases |plain|
  {
    if plain == [] then [] else EncodePut(st, plain[0]) + Encode(EncodeNext(st, plain[0]), plain[1..])
  }

  function EncodeEnd(st: EncodeState): seq<byte>
    requires EncodeOk(st)
  {
    match st.step
    case StepA => []
    case StepB => [EncodeValue(st.result), EQUALS, EQUALS]
    case StepC => [EncodeValue(st.result), EQUALS]
  }

  lemma {:induction false} EncodeAppend(st: EncodeState, a: seq<byte>, b: seq<byte>)
    requires EncodeOk(st)
    ensures EncodeAfter(st, a + b) == EncodeAfter(EncodeAfter(st, a), b)
    ensures Encode(st, a + b) == Encode(st, a) + Encode(EncodeAfter(st, a), b)
    decreases |a|
  {
    if a == [] {
      assert a + b == b;
    } else {
      assert (a + b)[1..] == a[1..] + b;
      EncodeAppend(EncodeNext(st, a[0]), a[1..], b);
    }
  }

  // ---------------------------------------------------------------- the standard

  /** Section 4 of RFC 4648: three bytes become four digits, what is missing at the end is padded. */
  function Rfc4648(plain: seq<byte>): (code: seq<byte>)
    ensures |code| == 4 * ((|plain| + 2) / 3)
  {
    if |plain| == 0 then []
    else if |plain| == 1 then Group(plain[0], 0, 0)[..2] + [EQUALS, EQUALS]
    else if |plain| == 2 then Group(plain[0], plain[1], 0)[..3] + [EQUALS]
    else Group(plain[0], plain[1], plain[2]) + Rfc4648(plain[3..])
  }

  function Group(x: byte, y: byte, z: byte): (code: seq<byte>)
    ensures |code| == 4
  {
    [EncodeValue(x / 4), EncodeValue((x % 4) * 16 + y / 16), EncodeValue((y % 16) * 4 + z / 64), EncodeValue(z % 64)]
  }

  /** The digits of a group are the four times six bits of its 24 bits. */
  lemma {:induction false} GroupIs24Bits(x: byte, y: byte, z: byte)
    ensures exists p, q, u, v ::
      && 0 <= p < 64 && 0 <= q < 64 && 0 <= u < 64 && 0 <= v < 64
      && ((p * 64 + q) * 64 + u) * 64 + v == (x as int * 256 + y) * 256 + z
      && Group(x, y, z) == [EncodeValue(p), EncodeValue(q), EncodeValue(u), EncodeValue(v)]
  {
    var p, q, u, v := x / 4, (x % 4) * 16 + y / 16, (y % 16) * 4 + z / 64, z % 64;
    assert ((p * 64 + q) * 64 + u) * 64 + v == (x as int * 256 + y) * 256 + z;
    assert Group(x, y, z) == [EncodeValue(p), EncodeValue(q), EncodeValue(u), EncodeValue(v)];
  }

  function TextByte(plain: seq<byte>, j: nat): int {
    if j < |plain| then plain[j] else 0
  }

  /** Group k of the text as a number of 24 bits, what is missing being zero. */
  function Bits24(plain: seq<byte>, k: nat): nat {
    (TextByte(plain, 3 * k) * 256 + TextByte(plain, 3 * k + 1)) * 256 + TextByte(plain, 3 * k + 2)
  }

  /** Digit j of a number of 24 bits, six bits each. */
  function Six(bits: nat, j: nat): nat {
    bits / (if j == 0 then 262144 else if j == 1 then 4096 else if j == 2 then 64 else 1) % 64
  }

  /** Bits 6 i to 6 i + 5 of the text. */
  function SixBits(plain: seq<byte>, i: nat): nat { Six(Bits24(plain, i / 4), i % 4) }

  lemma {:induction false} FourSixes(p: nat, q: nat, u: nat, v: nat)
    requires p < 64 && q < 64 && u < 64 && v < 64
    ensures var bits := ((p * 64 + q) * 64 + u) * 64 + v;
            Six(bits, 0) == p && Six(bits, 1) == q && Six(bits, 2) == u && Six(bits, 3) == v
  {
  }

  lemma {:induction false} ThreeBytes(x: int, y: int, z: int)
    requires 0 <= x < 256 && 0 <= y < 256 && 0 <= z < 256
    ensures var p, q, u, v := x / 4, (x % 4) * 16 + y / 16, (y % 16) * 4 + z / 64, z % 64;
      && 0 <= p < 64 && 0 <= q < 64 && 0 <= u < 64 && 0 <= v < 64
      && ((p * 64 + q) * 64 + u) * 64 + v == (x * 256 + y) * 256 + z
  {
  }

  lemma {:induction false} GroupBits(plain: seq<byte>, i: nat)
    requires plain != [] && i < 4
    ensures Group(plain[0], TextByte(plain, 1), TextByte(plain, 2))[i] == EncodeValue(SixBits(plain, i))
  {
    var x: int, y, z := plain[0], TextByte(plain, 1), TextByte(plain, 2);
    ThreeBytes(x, y, z);
    FourSixes(x / 4, (x % 4) * 16 + y / 16, (y % 16) * 4 + z / 64, z % 64);
    assert i / 4 == 0 && i % 4 == i;
    assert Bits24(plain, 0) == (x * 256 + y) * 256 + z;
  }

  lemma {:induction false} LaterGroup(plain: seq<byte>, i: nat)
    requires i >= 4 && |plain| >= 3
    ensures SixBits(plain, i) == SixBits(plain[3..], i - 4)
  {
    assert i / 4 == (i - 4) / 4 + 1 && i % 4 == (i - 4) % 4;
  }

  /**
   The standard encoding without its groups: character i stands for bits 6 i to 6 i + 5 in the
   alphabet of the standard, and is '=' where the text has ended.
   */
  lemma {:induction false} RfcDigits(plain: seq<byte>, i: nat)
    requires i < |Rfc4648(plain)|
    ensures |ALPHABET| == 64
    ensures Rfc4648(plain)[i] as char == if 6 * i >= 8 * |plain| then '=' else ALPHABET[SixBits(plain, i)]
  {
    AlphabetIs(SixBits(plain, i));
    RfcValues(plain, i);
  }

  lemma {:induction false} RfcValues(plain: seq<byte>, i: nat)
    requires i < |Rfc4648(plain)|
    ensures Rfc4648(plain)[i] == if 6 * i >= 8 * |plain| then '=' as int else EncodeValue(SixBits(plain, i))
    decreases |plain|
  {
    if i < 4 {
      GroupBits(plain, i);
    } else {
      LaterGroup(plain, i);
      RfcValues(plain[3..], i - 4);
    }
  }

  /** The three bytes of the four digits. */
  lemma {:induction false} Regroup(x: byte, y: byte, z: byte)
    ensures var p, q, u, v := x / 4, (x % 4) * 16 + y / 16, (y % 16) * 4 + z / 64, z % 64;
      && 0 <= p < 64 && 0 <= q < 64 && 0 <= u < 64 && 0 <= v < 64
      && p * 4 + q / 16 == x && (q % 16) * 16 + u / 4 == y && (u % 4) * 64 + v == z
  {
    var q, u := (x % 4) * 16 + y / 16, (y % 16) * 4 + z / 64;
    assert q / 16 == x % 4 && q % 16 == y / 16;
    assert u / 4 == y % 16 && u % 4 == z / 64;
  }

  lemma {:induction false} EncodeGroup(st: EncodeState, x: byte, y: byte, z: byte)
    requires EncodeOk(st) && st.step == StepA
    ensures Encode(st, [x, y, z]) == Group(x, y, z) && EncodeAfter(st, [x, y, z]) == EncodeState(StepA, z % 64)
  {
    var b, c, e := EncodeState(StepB, (x % 4) * 16), EncodeState(StepC, (y % 16) * 4), EncodeState(StepA, z % 64);
    assert [x, y, z][1..] == [y, z] && [y, z][1..] == [z];
    OneByte(c, z);
    assert Encode(b, [y, z]) == EncodePut(b, y) + Encode(c, [z]);
    assert Encode(st, [x, y, z]) == EncodePut(st, x) + Encode(b, [y, z]);
    assert EncodeAfter(b, [y, z]) == EncodeAfter(c, [z]);
  }

  lemma {:induction false} OneByte(st: EncodeState, x: byte)
    requires EncodeOk(st)
    ensures Encode(st, [x]) == EncodePut(st, x) && EncodeAfter(st, [x]) == EncodeNext(st, x)
  {
    assert [x][1..] == [];
  }

  lemma {:induction false} EncodeTail(st: EncodeState, plain: seq<byte>)
    requires EncodeOk(st) && st.step == StepA && 1 <= |plain| <= 2
    ensures Encode(st, plain) + EncodeEnd(EncodeAfter(st, plain)) == Rfc4648(plain)
  {
    var b := EncodeNext(st, plain[0]);
    if |plain| == 1 {
      assert plain == [plain[0]];
      OneByte(st, plain[0]);
    } else {
      assert plain[1..] == [plain[1]];
      OneByte(b, plain[1]);
      assert Encode(st, plain) == EncodePut(st, plain[0]) + Encode(b, [plain[1]]);
    }
  }

  /** Run to the end, the encoder gives the standard encoding. */
  lemma {:induction false} EncodeIsRfc(st: EncodeState, plain: seq<byte>)
    requires EncodeOk(st) && st.step == StepA
    ensures Encode(st, plain) + EncodeEnd(EncodeAfter(st, plain)) == Rfc4648(plain)
    decreases |plain|
  {
    if |plain| == 0 {
    } else if |plain| <= 2 {
      EncodeTail(st, plain);
    } else {
      var head := [plain[0], plain[1], plain[2]];
      assert plain == head + plain[3..];
      EncodeGroup(st, plain[0], plain[1], plain[2]);
      EncodeAppend(st, head, plain[3..]);
      EncodeIsRfc(EncodeAfter(st, head), plain[3..]);
    }
  }

  // ---------------------------------------------------------------- decoder

  datatype DecodeStep = Stepa | Stepb | Stepc | Stepd
  datatype DecodeState = DecodeState(step: DecodeStep, plainchar: int)

  ghost predicate DecodeOk(st: DecodeState) {
    && 0 <= st.plainchar < 256
    && match st.step
       case Stepa => true
       case Stepb => st.plainchar % 4 == 0
       case Stepc => st.plainchar % 16 == 0
       case Stepd => st.plainchar % 64 == 0
  }

  const DecodeStart := DecodeState(Stepa, 0)

  /** The state after one input character; bytes outside the alphabet are passed over. */
  function DecodeNext(st: DecodeState, c: byte): (r: DecodeState)
    ensures DecodeOk(st) ==> DecodeOk(r)
  {
    var v := DecodeValue(c);
    if v < 0 then st
    else
      match st.step
      case Stepa => DecodeState(Stepb, v * 4)
      case Stepb => DecodeState(Stepc, (v % 16) * 16)
      case Stepc => DecodeState(Stepd, (v % 4) * 64)
      case Stepd => DecodeState(Stepa, 0)
  }

  function DecodePut(st: DecodeState, c: byte): seq<byte>
    requires DecodeOk(st)
  {
    var v := DecodeValue(c);
    if v < 0 then []
    else
      match st.step
      case Stepa => []
      case Stepb => [st.plainchar + v / 16]
      case Stepc => [st.plainchar + v / 4]
      case Stepd => [st.plainchar + v]
  }

  function DecodeAfter(st: DecodeState, code: seq<byte>): (r: DecodeState)
    ensures DecodeOk(st) ==> DecodeOk(r)
    decreases |code|
  {
    if code == [] then st else DecodeAfter(DecodeNext(st, code[0]), code[1..])
  }

  function Decode(st: DecodeState, code: seq<byte>): seq<byte>
    requires DecodeOk(st)
    decreases |code|
  {
    if code == [] then [] else DecodePut(st, code[0]) + Decode(DecodeNext(st, code[0]), code[1..])
  }

  lemma {:induction false} DecodeAppend(st: DecodeState, a: seq<byte>, b: seq<byte>)
    requires DecodeOk(st)
    ensures DecodeAfter(st, a + b) == DecodeAfter(DecodeAfter(st, a), b)
    ensures Decode(st, a + b) == Decode(st, a) + Decode(DecodeAfter(st, a), b)
    decreases |a|
  {
    if a == [] {
      assert a + b == b;
    } else {
      assert (a + b)[1..] == a[1..] + b;
      DecodeAppend(DecodeNext(st, a[0]), a[1..], b);
    }
  }

  /** The digits of the standard among the bytes. */
  ghost function InAlphabet(code: seq<byte>): seq<byte> {
    if code == [] then [] else (if IsDigit(code[0]) then [code[0]] else []) + InAlphabet(code[1..])
  }

  /** Bytes outside the alphabet make no difference, wherever they are. */
  lemma {:induction false} DecodeIgnores(st: DecodeState, code: seq<byte>)
    requires DecodeOk(st)
    ensures Decode(st, code) == Decode(st, InAlphabet(code))
    ensures DecodeAfter(st, code) == DecodeAfter(st, InAlphabet(code))
    decreases |code|
  {
    if code != [] {
      var rest, next := InAlphabet(code[1..]), DecodeNext(st, code[0]);
      DecodeIgnores(next, code[1..]);
      DecodedDigits(code[0]);
      if IsDigit(code[0]) {
        assert InAlphabet(code)[1..] == rest;
      } else {
        assert InAlphabet(code) == [] + rest == rest;
        assert Decode(st, code) == [] + Decode(next, code[1..]) == Decode(next, code[1..]);
      }
    }
  }

  // ---------------------------------------------------------------- lengths

  function Rank(step: DecodeStep): nat {
    match step
    case Stepa => 0
    case Stepb => 1
    case Stepc => 2
    case Stepd => 3
  }

  /** n digits from state number s complete this many bytes. */
  function Bytes(s: nat, n: nat): nat { 3 * (s + n) / 4 - 3 * s / 4 }

  lemma {:induction false} OneDigitMore(s: nat, n: nat)
    requires s < 4
    ensures Bytes(s, n + 1) == (if s == 0 then 0 else 1) + Bytes((s + 1) % 4, n)
    ensures (s + (n + 1)) % 4 == ((s + 1) % 4 + n) % 4
  {
  }

  /** Four digits make three bytes, and other bytes nothing. */
  lemma {:induction false} DecodedLength(st: DecodeState, code: seq<byte>)
    requires DecodeOk(st)
    ensures |Decode(st, code)| == Bytes(Rank(st.step), |InAlphabet(code)|)
    ensures Rank(DecodeAfter(st, code).step) == (Rank(st.step) + |InAlphabet(code)|) % 4
    decreases |code|
  {
    if code != [] {
      DecodedLength(DecodeNext(st, code[0]), code[1..]);
      FirstCounted(code);
      OneTaken(st, code[0], |InAlphabet(code[1..])|);
    }
  }

  lemma {:induction false} OneTaken(st: DecodeState, c: byte, n: nat)
    requires DecodeOk(st)
    ensures var s, s', k := Rank(st.step), Rank(DecodeNext(st, c).step), if DecodeValue(c) >= 0 then 1 else 0;
      Bytes(s, k + n) == |DecodePut(st, c)| + Bytes(s', n) && (s + (k + n)) % 4 == (s' + n) % 4
  {
    OneDigitMore(Rank(st.step), n);
  }

  lemma {:induction false} FirstCounted(code: seq<byte>)
    requires code != []
    ensures |InAlphabet(code)| == (if DecodeValue(code[0]) >= 0 then 1 else 0) + |InAlphabet(code[1..])|
  {
    DecodedDigits(code[0]);
  }

  lemma {:induction false} AllDigits(code: seq<byte>)
    ensures |InAlphabet(code)| <= |code|
    ensures |InAlphabet(code)| == |code| <==> forall i :: 0 <= i < |code| ==> IsDigit(code[i])
  {
    if code != [] {
      AllDigits(code[1..]);
      if |InAlphabet(code)| == |code| {
        forall i | 0 <= i < |code| ensures IsDigit(code[i]) {
          if i > 0 { assert code[i] == code[1..][i - 1]; }
        }
      } else if IsDigit(code[0]) {
        var i :| 0 <= i < |code[1..]| && !IsDigit(code[1..][i]);
        assert !IsDigit(code[i + 1]);
      }
    }
  }

  // ---------------------------------------------------------------- round trip

  lemma {:induction false} OneChar(st: DecodeState, c: byte)
    requires DecodeOk(st)
    ensures Decode(st, [c]) == DecodePut(st, c) && DecodeAfter(st, [c]) == DecodeNext(st, c)
  {
    assert [c][1..] == [];
  }

  /** Two characters from the start give the first byte and half of the second. */
  lemma {:induction false} FirstPair(st: DecodeState, p: int, q: int)
    requires DecodeOk(st) && st.step == Stepa && 0 <= p < 64 && 0 <= q < 64
    ensures var code := [EncodeValue(p), EncodeValue(q)];
            Decode(st, code) == [p * 4 + q / 16] && DecodeAfter(st, code) == DecodeState(Stepc, (q % 16) * 16)
  {
    var c, d := EncodeValue(p), EncodeValue(q);
    ValueInverse(p);
    ValueInverse(q);
    OneChar(st, c);
    OneChar(DecodeNext(st, c), d);
    assert [c, d] == [c] + [d];
    DecodeAppend(st, [c], [d]);
  }

  lemma {:induction false} SecondPair(st: DecodeState, u: int, v: int)
    requires DecodeOk(st) && st.step == Stepc && 0 <= u < 64 && 0 <= v < 64
    ensures var code := [EncodeValue(u), EncodeValue(v)];
            && st.plainchar + u / 4 < 256 && Decode(st, code) == [st.plainchar + u / 4, (u % 4) * 64 + v]
            && DecodeAfter(st, code) == DecodeStart
  {
    var c, d := EncodeValue(u), EncodeValue(v);
    ValueInverse(u);
    ValueInverse(v);
    OneChar(st, c);
    OneChar(DecodeNext(st, c), d);
    assert [c, d] == [c] + [d];
    DecodeAppend(st, [c], [d]);
  }

  lemma {:induction false} ThirdDigit(st: DecodeState, u: int)
    requires DecodeOk(st) && st.step == Stepc && 0 <= u < 64
    ensures st.plainchar + u / 4 < 256 && Decode(st, [EncodeValue(u)]) == [st.plainchar + u / 4]
  {
    ValueInverse(u);
    OneChar(st, EncodeValue(u));
  }

  lemma {:induction false} FourDigits(st: DecodeState, p: int, q: int, u: int, v: int, code: seq<byte>)
    requires DecodeOk(st) && st.step == Stepa && 0 <= p < 64 && 0 <= q < 64 && 0 <= u < 64 && 0 <= v < 64
    requires code == [EncodeValue(p), EncodeValue(q)] + [EncodeValue(u), EncodeValue(v)]
    ensures Decode(st, code) == [p * 4 + q / 16, (q % 16) * 16 + u / 4, (u % 4) * 64 + v]
    ensures DecodeAfter(st, code) == DecodeStart
  {
    var a, b := [EncodeValue(p), EncodeValue(q)], [EncodeValue(u), EncodeValue(v)];
    FirstPair(st, p, q);
    SecondPair(DecodeAfter(st, a), u, v);
    DecodeAppend(st, a, b);
  }

  lemma {:induction false} ThreeDigits(st: DecodeState, p: int, q: int, u: int, code: seq<byte>)
    requires DecodeOk(st) && st.step == Stepa && 0 <= p < 64 && 0 <= q < 64 && 0 <= u < 64
    requires code == [EncodeValue(p), EncodeValue(q)] + [EncodeValue(u)]
    ensures Decode(st, code) == [p * 4 + q / 16, (q % 16) * 16 + u / 4]
  {
    var a, b := [EncodeValue(p), EncodeValue(q)], [EncodeValue(u)];
    FirstPair(st, p, q);
    ThirdDigit(DecodeAfter(st, a), u);
    DecodeAppend(st, a, b);
  }

  lemma {:induction false} DecodeGroup(st: DecodeState, x: byte, y: byte, z: byte)
    requires DecodeOk(st) && st.step == Stepa
    ensures Decode(st, Group(x, y, z)) == [x, y, z] && DecodeAfter(st, Group(x, y, z)) == DecodeStart
  {
    Regroup(x, y, z);
    GroupBack(st, x, y, z, x / 4, (x % 4) * 16 + y / 16, (y % 16) * 4 + z / 64, z % 64);
  }

  lemma {:induction false} GroupBack(st: DecodeState, x: byte, y: byte, z: byte, p: int, q: int, u: int, v: int)
    requires DecodeOk(st) && st.step == Stepa && 0 <= p < 64 && 0 <= q < 64 && 0 <= u < 64 && 0 <= v < 64
    requires p * 4 + q / 16 == x && (q % 16) * 16 + u / 4 == y && (u % 4) * 64 + v == z
    requires Group(x, y, z) == [EncodeValue(p), EncodeValue(q), EncodeValue(u), EncodeValue(v)]
    ensures Decode(st, Group(x, y, z)) == [x, y, z] && DecodeAfter(st, Group(x, y, z)) == DecodeStart
  {
    FourDigits(st, p, q, u, v, Group(x, y, z));
  }

  lemma {:induction false} PadIgnored(st: DecodeState, code: seq<byte>, pad: seq<byte>)
    requires DecodeOk(st) && (pad == [EQUALS] || pad == [EQUALS, EQUALS])
    ensures Decode(st, code + pad) == Decode(st, code)
  {
    var mid := DecodeAfter(st, code);
    DecodeAppend(st, code, pad);
    OneChar(mid, EQUALS);
    if |pad| == 2 {
      assert pad == [EQUALS] + [EQUALS];
      DecodeAppend(mid, [EQUALS], [EQUALS]);
    }
  }

  lemma {:induction false} DecodeLastByte(st: DecodeState, x: byte)
    requires DecodeOk(st) && st.step == Stepa
    ensures Decode(st, Rfc4648([x])) == [x]
  {
    Regroup(x, 0, 0);
    var p, q := x / 4, (x % 4) * 16;
    var a := [EncodeValue(p), EncodeValue(q)];
    assert Rfc4648([x]) == a + [EQUALS, EQUALS];
    FirstPair(st, p, q);
    PadIgnored(st, a, [EQUALS, EQUALS]);
  }

  lemma {:induction false} TwoBytes(x: byte, y: byte)
    ensures Rfc4648([x, y])
            == [EncodeValue(x / 4), EncodeValue((x % 4) * 16 + y / 16)] + [EncodeValue((y % 16) * 4)] + [EQUALS]
  {
  }

  lemma {:induction false} TwoBack(st: DecodeState, x: byte, y: byte, p: int, q: int, u: int)
    requires DecodeOk(st) && st.step == Stepa && 0 <= p < 64 && 0 <= q < 64 && 0 <= u < 64
    requires p * 4 + q / 16 == x && (q % 16) * 16 + u / 4 == y
    requires Rfc4648([x, y]) == [EncodeValue(p), EncodeValue(q)] + [EncodeValue(u)] + [EQUALS]
    ensures Decode(st, Rfc4648([x, y])) == [x, y]
  {
    var ab := [EncodeValue(p), EncodeValue(q)] + [EncodeValue(u)];
    ThreeDigits(st, p, q, u, ab);
    PadIgnored(st, ab, [EQUALS]);
  }

  lemma {:induction false} DecodeLastTwo(st: DecodeState, x: byte, y: byte)
    requires DecodeOk(st) && st.step == Stepa
    ensures Decode(st, Rfc4648([x, y])) == [x, y]
  {
    Regroup(x, y, 0);
    TwoBytes(x, y);
    TwoBack(st, x, y, x / 4, (x % 4) * 16 + y / 16, (y % 16) * 4);
  }

  /** Decoding inverts the standard encoding. */
  lemma {:induction false} RoundTrip(st: DecodeState, plain: seq<byte>)
    requires DecodeOk(st) && st.step == Stepa
    ensures Decode(st, Rfc4648(plain)) == plain
    decreases |plain|
  {
    if |plain| == 0 {
    } else if |plain| == 1 {
      assert plain == [plain[0]];
      DecodeLastByte(st, plain[0]);
    } else if |plain| == 2 {
      assert plain == [plain[0], plain[1]];
      DecodeLastTwo(st, plain[0], plain[1]);
    } else {
      DecodeGroup(st, plain[0], plain[1], plain[2]);
      DecodeAppend(st, Group(plain[0], plain[1], plain[2]), Rfc4648(plain[3..]));
      RoundTrip(DecodeStart, plain[3..]);
    }
  }

  // ---------------------------------------------------------------- in pieces

  function Join(chunks: seq<seq<byte>>): seq<byte> {
    if chunks == [] then [] else chunks[0] + Join(chunks[1..])
  }

  /** One call after the other, the state carried along, and the end at last. */
  function EncodeChunks(st: EncodeState, chunks: seq<seq<byte>>): seq<byte>
    requires EncodeOk(st)
    decreases |chunks|
  {
    if chunks == [] then EncodeEnd(st)
    else Encode(st, chunks[0]) + EncodeChunks(EncodeAfter(st, chunks[0]), chunks[1..])
  }

  function DecodeChunks(st: DecodeState, chunks: seq<seq<byte>>): seq<byte>
    requires DecodeOk(st)
    decreases |chunks|
  {
    if chunks == [] then [] else Decode(st, chunks[0]) + DecodeChunks(DecodeAfter(st, chunks[0]), chunks[1..])
  }

  lemma {:induction false} EncodeInPieces(st: EncodeState, chunks: seq<seq<byte>>)
    requires EncodeOk(st)
    ensures EncodeChunks(st, chunks) == Encode(st, Join(chunks)) + EncodeEnd(EncodeAfter(st, Join(chunks)))
    decreases |chunks|
  {
    if chunks != [] {
      EncodeInPieces(EncodeAfter(st, chunks[0]), chunks[1..]);
      EncodeAppend(st, chunks[0], Join(chunks[1..]));
    }
  }

  lemma {:induction false} DecodeInPieces(st: DecodeState, chunks: seq<seq<byte>>)
    requires DecodeOk(st)
    ensures DecodeChunks(st, chunks) == Decode(st, Join(chunks))
    decreases |chunks|
  {
    if chunks != [] {
      DecodeInPieces(DecodeAfter(st, chunks[0]), chunks[1..]);
      DecodeAppend(st, chunks[0], Join(chunks[1..]));
    }
  }

  /** The encoder gives the standard encoding, whatever the pieces. */
  lemma {:induction false} PiecewiseEncode(plain: seq<seq<byte>>)
    ensures EncodeChunks(EncodeStart, plain) == Rfc4648(Join(plain))
  {
    EncodeInPieces(EncodeStart, plain);
    EncodeIsRfc(EncodeStart, Join(plain));
  }

  /**
   Encode in any pieces, add any bytes outside the alphabet, cut anew into any pieces and
   decode those: the plain text is back.
   */
  lemma {:induction false} PiecewiseRoundTrip(plain: seq<seq<byte>>, code: seq<seq<byte>>)
    requires InAlphabet(Join(code)) == InAlphabet(EncodeChunks(EncodeStart, plain))
    ensures DecodeChunks(DecodeStart, code) == Join(plain)
  {
    PiecewiseEncode(plain);
    DecodeInPieces(DecodeStart, code);
    DecodeIgnores(DecodeStart, Join(code));
    DecodeIgnores(DecodeStart, Rfc4648(Join(plain)));
    RoundTrip(DecodeStart, Join(plain));
  }

  // ---------------------------------------------------------------- the calls

  lemma {:induction false} EncodeOne(st: EncodeState, plain: seq<byte>, i: nat, code: seq<byte>, all: seq<byte>)
    requires EncodeOk(st) && i < |plain| && code + Encode(st, plain[i..]) == all
    ensures code + EncodePut(st, plain[i]) + Encode(EncodeNext(st, plain[i]), plain[i + 1..]) == all
    ensures EncodeAfter(st, plain[i..]) == EncodeAfter(EncodeNext(st, plain[i]), plain[i + 1..])
  {
    assert plain[i..][1..] == plain[i + 1..];
  }

  class Encoder {
    var step: EncodeStep
    var result: int

    ghost function State(): EncodeState
      reads this
    {
      EncodeState(step, result)
    }

    constructor ()
      ensures State() == EncodeStart
    {
      step, result := StepA, 0;
    }

    /** One byte: what it adds to the output. */
    method Take(fragment: byte) returns (put: seq<byte>)
      requires EncodeOk(State())
      modifies this
      ensures State() == old(EncodeNext(State(), fragment)) && put == old(EncodePut(State(), fragment))
      ensures EncodeOk(State())
    {
      match step {
        case StepA =>
          put := [EncodeValue(fragment / 4)];
          step, result := StepB, (fragment % 4) * 16;
        case StepB =>
          put := [EncodeValue(result + fragment / 16)];
          step, result := StepC, (fragment % 16) * 4;
        case StepC =>
          put := [EncodeValue(result + fragment / 64), EncodeValue(fragment % 64)];
          step, result := StepA, fragment % 64;
      }
    }

    /** base64_encode_block */
    method Block(plain: seq<byte>) returns (code: seq<byte>)
      requires EncodeOk(State())
      modifies this
      ensures EncodeOk(State()) && State() == old(EncodeAfter(State(), plain)) && code == old(Encode(State(), plain))
    {
      code := [];
      ghost var st := State();
      for i := 0 to |plain|
        invariant EncodeOk(State())
        invariant EncodeAfter(State(), plain[i..]) == EncodeAfter(st, plain)
        invariant code + Encode(State(), plain[i..]) == Encode(st, plain)
      {
        EncodeOne(State(), plain, i, code, Encode(st, plain));
        var put := Take(plain[i]);
        code := code + put;
      }
      assert plain[|plain|..] == [];
    }

    /** base64_encode_blockend */
    method BlockEnd() returns (code: seq<byte>)
      requires EncodeOk(State())
      ensures code == EncodeEnd(State())
    {
      code := [];
      match step {
        case StepB => code := code + [EncodeValue(result), EQUALS, EQUALS];
        case StepC => code := code + [EncodeValue(result), EQUALS];
        case StepA =>
      }
    }
  }

  lemma {:induction false} DecodeOne(st: DecodeState, code: seq<byte>, i: nat, plain: seq<byte>, all: seq<byte>)
    requires DecodeOk(st) && i < |code| && plain + Decode(st, code[i..]) == all
    ensures plain + DecodePut(st, code[i]) + Decode(DecodeNext(st, code[i]), code[i + 1..]) == all
    ensures DecodeAfter(st, code[i..]) == DecodeAfter(DecodeNext(st, code[i]), code[i + 1..])
  {
    assert code[i..][1..] == code[i + 1..];
  }

  class Decoder {
    var step: DecodeStep
    var plainchar: int

    ghost function State(): DecodeState
      reads this
    {
      DecodeState(step, plainchar)
    }

    constructor ()
      ensures State() == DecodeStart
    {
      step, plainchar := Stepa, 0;
    }

    /** One character: what it adds to the output. */
    method Take(c: byte) returns (put: seq<byte>)
      requires DecodeOk(State())
      modifies this
      ensures State() == old(DecodeNext(State(), c)) && put == old(DecodePut(State(), c)) && DecodeOk(State())
    {
      put := [];
      var fragment := DecodeValue(c);
      if fragment >= 0 {
        match step {
          case Stepa =>
            step, plainchar := Stepb, fragment * 4;
          case Stepb =>
            put := [plainchar + fragment / 16];
            step, plainchar := Stepc, (fragment % 16) * 16;
          case Stepc =>
            put := [plainchar + fragment / 4];
            step, plainchar := Stepd, (fragment % 4) * 64;
          case Stepd =>
            put := [plainchar + fragment];
            step, plainchar := Stepa, 0;
        }
      }
    }

    /** base64_decode_block; the byte in progress is kept in the state, not in the output. */
    method Block(code: seq<byte>) returns (plain: seq<byte>)
      requires DecodeOk(State())
      modifies this
      ensures DecodeOk(State()) && State() == old(DecodeAfter(State(), code)) && plain == old(Decode(State(), code))
    {
      plain := [];
      ghost var st := State();
      for i := 0 to |code|
        invariant DecodeOk(State())
        invariant DecodeAfter(State(), code[i..]) == DecodeAfter(st, code)
        invariant plain + Decode(State(), code[i..]) == Decode(st, code)
      {
        DecodeOne(State(), code, i, plain, Decode(st, code));
        var put := Take(code[i]);
        plain := plain + put;
      }
      assert code[|code|..] == [];
    }
  }
}
