/**
 The ASCII container of src/sc_io.c: size and format character in front of a zlib stream,
 base64 encoded in lines of 76 characters, each followed by a line break byte of the
 caller's choice and a newline, and a NUL at the end.
 */
module Armour {
  import opened Base64
  import opened Zlib
  import Radix

  const DBC: nat := 57          // bytes of data in a line
  const LBC: nat := 76          // characters of a line
  const LBE: nat := 78          // with its two line break bytes
  const INFO_LEN: nat := 9
  const FORMAT: byte := 122     // 'z'
  const SIZE_T: nat := 0x1_0000_0000_0000_0000

  // ---------------------------------------------------------------- base64 in lines

  function Phase(n: nat): EncodeStep {
    if n % 3 == 0 then StepA else if n % 3 == 1 then StepB else StepC
  }

  lemma {:induction false} StepAfter(st: EncodeState, plain: seq<byte>)
    requires EncodeOk(st) && st.step == StepA
    ensures EncodeAfter(st, plain).step == Phase(|plain|)
    decreases |plain|
  {
    StepFrom(st, plain);
  }

  function Turn(step: EncodeStep): nat { if step == StepA then 0 else if step == StepB then 1 else 2 }

  lemma {:induction false} StepFrom(st: EncodeState, plain: seq<byte>)
    requires EncodeOk(st)
    ensures Turn(EncodeAfter(st, plain).step) == (Turn(st.step) + |plain|) % 3
    decreases |plain|
  {
    if plain != [] {
      var next := EncodeNext(st, plain[0]);
      assert EncodeAfter(st, plain) == EncodeAfter(next, plain[1..]);
      assert Turn(next.step) == (Turn(st.step) + 1) % 3;
      StepFrom(next, plain[1..]);
      OneTurn(Turn(st.step), |plain| - 1);
    }
  }

  lemma {:induction false} OneTurn(k: nat, n: nat)
    ensures ((k + 1) % 3 + n) % 3 == (k + (n + 1)) % 3
  {
  }

  /** After whole groups the encoder holds nothing back. */
  lemma {:induction false} WholeGroups(st: EncodeState, plain: seq<byte>)
    requires EncodeOk(st) && st.step == StepA && |plain| % 3 == 0
    ensures EncodeAfter(st, plain).step == StepA && Encode(st, plain) == Rfc4648(plain)
  {
    StepAfter(st, plain);
    EncodeIsRfc(st, plain);
  }

  lemma {:induction false} DecodeWholeGroups(st: DecodeState, plain: seq<byte>)
    requires DecodeOk(st) && st.step == Stepa && |plain| % 3 == 0
    ensures DecodeAfter(st, Rfc4648(plain)).step == Stepa
    decreases |plain|
  {
    if |plain| > 2 {
      DecodeWholeGroups(DecodeStart, plain[3..]);
      FirstGroup(st, plain, Rfc4648(plain[3..]));
    } else {
      assert plain == [] && Rfc4648(plain) == [];
    }
  }

  lemma {:induction false} FirstGroup(st: DecodeState, plain: seq<byte>, rest: seq<byte>)
    requires DecodeOk(st) && st.step == Stepa && |plain| > 2 && rest == Rfc4648(plain[3..])
    ensures DecodeAfter(st, Rfc4648(plain)) == DecodeAfter(DecodeStart, rest)
  {
    var g := Group(plain[0], plain[1], plain[2]);
    DecodeGroup(st, plain[0], plain[1], plain[2]);
    DecodeAppend(st, g, rest);
    assert Rfc4648(plain) == g + rest;
  }

  function LineCount(n: nat): nat { (n + DBC - 1) / DBC }

  function EncodedSize(n: nat): nat { 4 * ((n + 2) / 3) + 2 * LineCount(n) + 1 }

  /** The lines of a nonempty payload. */
  function Lines(payload: seq<byte>, lb: byte): seq<byte>
    decreases |payload|
  {
    if |payload| <= DBC then Rfc4648(payload) + [lb, 10]
    else Rfc4648(payload[..DBC]) + [lb, 10] + Lines(payload[DBC..], lb)
  }

  lemma {:induction false} OneLineLess(n: nat)
    requires n > DBC
    ensures 4 * ((n + 2) / 3) == LBC + 4 * ((n - DBC + 2) / 3)
    ensures LineCount(n) == 1 + LineCount(n - DBC) && LineCount(n - DBC) >= 1
    ensures EncodedSize(n) == LBE + EncodedSize(n - DBC)
  {
  }

  lemma {:induction false} LinesLength(payload: seq<byte>, lb: byte)
    requires payload != []
    ensures |Lines(payload, lb)| + 1 == EncodedSize(|payload|)
    decreases |payload|
  {
    if |payload| > DBC {
      OneLineLess(|payload|);
      LinesLength(payload[DBC..], lb);
      LongLength(payload, lb);
    } else {
      OneLine(|payload|);
      ShortLength(payload, lb);
    }
  }

  lemma {:induction false} LongLength(payload: seq<byte>, lb: byte)
    requires |payload| > DBC
    ensures |Lines(payload, lb)| == LBE + |Lines(payload[DBC..], lb)|
  {
    FullLength(payload[..DBC]);
  }

  lemma {:induction false} ShortLength(payload: seq<byte>, lb: byte)
    requires |payload| <= DBC
    ensures |Lines(payload, lb)| == 4 * ((|payload| + 2) / 3) + 2
  {
  }

  lemma {:induction false} OneLine(n: nat)
    requires 0 < n <= DBC
    ensures EncodedSize(n) == 4 * ((n + 2) / 3) + 3
  {
  }

  // ---------------------------------------------------------------- where the characters are

  /** Character i of the encoding is in line i / 76, and a line takes 78 bytes. */
  function Place(i: nat): nat { 78 * (i / 76) + i % 76 }

  lemma {:induction false} PlaceLater(i: nat)
    requires i >= 76
    ensures Place(i) == 78 + Place(i - 76)
  {
  }

  lemma {:induction false} RfcJoin(plain: seq<byte>, k: nat)
    requires 3 * k <= |plain|
    ensures Rfc4648(plain) == Rfc4648(plain[..3 * k]) + Rfc4648(plain[3 * k..])
    decreases k
  {
    if k > 0 {
      RfcJoin(plain[3..], k - 1);
      RfcFirst(plain, k);
    } else {
      assert plain[..0] == [] && plain[0..] == plain;
    }
  }

  lemma {:induction false} RfcFirst(plain: seq<byte>, k: nat)
    requires 0 < 3 * k <= |plain|
    ensures var g := Group(plain[0], plain[1], plain[2]);
      Rfc4648(plain) == g + Rfc4648(plain[3..]) && Rfc4648(plain[..3 * k]) == g + Rfc4648(plain[3..][..3 * (k - 1)])
    ensures plain[3..][3 * (k - 1)..] == plain[3 * k..]
  {
    assert plain[..3 * k][3..] == plain[3..][..3 * (k - 1)];
  }

  /** The characters of the lines are those of the encoding. */
  lemma {:induction false} LinesPlaced(payload: seq<byte>, lb: byte, i: nat)
    requires i < |Rfc4648(payload)|
    ensures Place(i) < |Lines(payload, lb)| && Lines(payload, lb)[Place(i)] == Rfc4648(payload)[i]
    decreases |payload|
  {
    if i < 76 {
      assert Place(i) == i;
      FirstPlaced(payload, lb, i);
    } else {
      PlaceLater(i);
      RfcRest(payload);
      LinesPlaced(payload[57..], lb, i - 76);
      LaterPlaced(payload, lb, Place(i - 76));
    }
  }

  lemma {:induction false} LaterPlaced(payload: seq<byte>, lb: byte, p: nat)
    requires |payload| > 57 && p < |Lines(payload[57..], lb)|
    ensures 78 + p < |Lines(payload, lb)| && Lines(payload, lb)[78 + p] == Lines(payload[57..], lb)[p]
  {
    LineParts(payload, lb);
  }

  lemma {:induction false} RfcRest(payload: seq<byte>)
    requires |Rfc4648(payload)| > 76
    ensures |payload| > 57 && |Rfc4648(payload[..57])| == 76
    ensures Rfc4648(payload) == Rfc4648(payload[..57]) + Rfc4648(payload[57..])
  {
    LongText(|payload|);
    RfcJoin(payload, 19);
    FullLength(payload[..57]);
  }

  lemma {:induction false} LongText(n: nat)
    requires 4 * ((n + 2) / 3) > 76
    ensures n > 57
  {
  }

  lemma {:induction false} FirstPlaced(payload: seq<byte>, lb: byte, i: nat)
    requires i < |Rfc4648(payload)| && i < 76
    ensures i < |Lines(payload, lb)| && Lines(payload, lb)[i] == Rfc4648(payload)[i]
  {
    if |payload| > 57 {
      RfcRest(payload);
      LineParts(payload, lb);
    }
  }

  /** Between the lines and at the end are the line break byte and a newline. */
  lemma {:induction false} LineBreaks(payload: seq<byte>, lb: byte, k: nat)
    requires 57 * k < |payload|
    ensures var s, last := Lines(payload, lb), |payload| <= 57 * (k + 1);
      var at := if last then |s| - 2 else 78 * k + 76;
      && 78 * k <= at < |s| - 1 && s[at] == lb && s[at + 1] == '\n' as int
    decreases |payload|
  {
    if |payload| > 57 {
      LineParts(payload, lb);
      if k > 0 { LineBreaks(payload[57..], lb, k - 1); }
    }
  }

  // ---------------------------------------------------------------- payload

  function Power256(i: nat): nat { if i == 0 then 1 else 256 * Power256(i - 1) }

  /** The k low bytes of a size, the highest first. */
  function SizeBytes(size: nat, k: nat): seq<byte> {
    if k == 0 then [] else SizeBytes(size / 256, k - 1) + [size % 256]
  }

  function SizeOf(bytes: seq<byte>): nat {
    if bytes == [] then 0 else SizeOf(bytes[..|bytes| - 1]) * 256 + bytes[|bytes| - 1]
  }

  lemma {:induction false} SizeInverse(size: nat, k: nat)
    requires size < Power256(k)
    ensures |SizeBytes(size, k)| == k && SizeOf(SizeBytes(size, k)) == size
  {
    if k > 0 {
      SizeInverse(size / 256, k - 1);
      var s := SizeBytes(size, k);
      assert s[..k - 1] == SizeBytes(size / 256, k - 1);
    }
  }

  lemma {:induction false} EightBytes()
    ensures Power256(8) == SIZE_T
  {
    assert Power256(2) == 65536;
    assert Power256(4) == 65536 * 65536;
    assert Power256(6) == 65536 * 65536 * 65536;
  }

  /** Size, format character and zlib stream. */
  function Payload(data: seq<byte>): seq<byte> {
    SizeBytes(|data|, 8) + [FORMAT] + Stream(data)
  }

  /** What sc_io_encode_zlib puts out. */
  function Armoured(data: seq<byte>, lb: byte): seq<byte> {
    Lines(Payload(data), lb) + [0]
  }

  lemma {:induction false} PayloadLength(data: seq<byte>)
    requires |data| < SIZE_T
    ensures |Payload(data)| == INFO_LEN + NoncompressBound(|data|) && |Payload(data)| >= 20
  {
    EightBytes();
    SizeInverse(|data|, 8);
    StoredLength(data);
  }

  // ---------------------------------------------------------------- encode

  /** One line of the encoder, and what remains. */
  lemma {:induction false} LineStep(out: seq<byte>, rest: seq<byte>, lb: byte, goal: seq<byte>)
    requires out + Lines(rest, lb) == goal
    ensures |rest| <= DBC ==> out + Rfc4648(rest) + [lb, 10] == goal
    ensures |rest| > DBC ==> out + (Rfc4648(rest[..DBC]) + [lb, 10]) + Lines(rest[DBC..], lb) == goal
  {
  }

  method EncodeLines(payload: seq<byte>, lb: byte) returns (out: seq<byte>)
    requires payload != []
    ensures out == Lines(payload, lb)
  {
    var lines := LineCount(|payload|);
    var enc := new Encoder();
    out := [];
    var rest := payload;
    ghost var goal := Lines(payload, lb);
    for zlin := 0 to lines
      invariant EncodeOk(enc.State())
      invariant zlin < lines ==> enc.step == StepA && LineCount(|rest|) == lines - zlin && rest != []
      invariant zlin < lines ==> out + Lines(rest, lb) == goal
      invariant zlin == lines ==> out == goal
    {
      LineStep(out, rest, lb, goal);
      if zlin < lines - 1 {
        var line := FullLine(enc, rest[..DBC]);
        out := out + (line + [lb, 10]);
        rest := rest[DBC..];
      } else {
        var line := LastLine(enc, rest);
        out := out + line + [lb, 10];
      }
    }
  }

  method FullLine(enc: Encoder, plain: seq<byte>) returns (line: seq<byte>)
    requires EncodeOk(enc.State()) && enc.step == StepA && |plain| == DBC
    modifies enc
    ensures EncodeOk(enc.State()) && enc.step == StepA && line == Rfc4648(plain)
  {
    WholeGroups(enc.State(), plain);
    line := enc.Block(plain);
  }

  method LastLine(enc: Encoder, plain: seq<byte>) returns (line: seq<byte>)
    requires EncodeOk(enc.State()) && enc.step == StepA
    modifies enc
    ensures EncodeOk(enc.State()) && line == Rfc4648(plain)
  {
    EncodeIsRfc(enc.State(), plain);
    line := enc.Block(plain);
    var end := enc.BlockEnd();
    line := line + end;
  }

  /** sc_io_encode_zlib: the output fills exactly the size computed beforehand. */
  method EncodeZlib(data: seq<byte>, lb: byte) returns (out: seq<byte>)
    requires |data| < SIZE_T
    ensures out == Armoured(data, lb)
    ensures |out| == EncodedSize(INFO_LEN + NoncompressBound(|data|))
  {
    var size := SizePrefix(|data|);
    var stream := Noncompress(data);
    PayloadLength(data);
    LinesLength(Payload(data), lb);
    out := EncodeLines(size + [FORMAT] + stream, lb);
    out := out + [0];
  }

  lemma {:induction false} DivTwice(x: nat, p: nat)
    requires p > 0
    ensures x / (256 * p) == (x / 256) / p
  {
    var y, b := x / 256, x % 256;
    var q, c := y / p, y % p;
    Radix.Divided(y, p);
    TimesBoth(q, p, y, c, x, b);
    Radix.Quotient(x, 256 * p, q, 256 * c + b);
  }

  lemma {:induction false} TimesBoth(q: nat, p: nat, y: nat, c: nat, x: nat, b: nat)
    requires y == q * p + c && x == 256 * y + b && c < p && b < 256
    ensures x == q * (256 * p) + (256 * c + b) && 256 * c + b < 256 * p
  {
    assert q * (256 * p) == 256 * (q * p);
  }

  lemma {:induction false} ByteAt(size: nat, k: nat, i: nat)
    requires i < k
    ensures Power256(k - 1 - i) > 0 && |SizeBytes(size, k)| == k
    ensures SizeBytes(size, k)[i] == size / Power256(k - 1 - i) % 256
  {
    if i < k - 1 {
      ByteAt(size / 256, k - 1, i);
      DivTwice(size, Power256(k - 2 - i));
    } else {
      SizeLength(size / 256, k - 1);
    }
  }

  lemma {:induction false} SizeLength(size: nat, k: nat)
    ensures |SizeBytes(size, k)| == k
  {
    if k > 0 { SizeLength(size / 256, k - 1); }
  }

  /** The eight bytes of the size, each by a shift. */
  method SizePrefix(size: nat) returns (bytes: seq<byte>)
    ensures bytes == SizeBytes(size, 8)
  {
    bytes := [];
    SizeLength(size, 8);
    for i := 0 to 8
      invariant bytes == SizeBytes(size, 8)[..i]
    {
      ByteAt(size, 8, i);
      bytes := bytes + [(size / Power256(7 - i)) % 256];
    }
  }

  // ---------------------------------------------------------------- decode

  /** The lines decoded one after the other; line breaks are skipped by position. */
  function Unline(st: DecodeState, code: seq<byte>, irem: nat, lines: nat): Result<seq<byte>>
    requires DecodeOk(st)
    decreases lines
  {
    if lines == 0 then Ok([])
    else
      var lein := if irem < LBC then irem else LBC;
      if lein > |code| then Error
      else
        var out := Decode(st, code[..lein]);
        if out == [] then Error
        else if lines == 1 then Ok(out)
        else if |out| != DBC || lein != LBC || |code| < LBE then Error
        else
          match Unline(DecodeAfter(st, code[..lein]), code[LBE..], irem - LBC, lines - 1)
          case Error => Error
          case Ok(more) => Ok(out + more)
  }

  /** The number of lines and of characters that a size stands for. */
  function DecodedLines(size: nat): nat
    requires size > 0
  {
    (size - 1 + (LBE - 1)) / LBE
  }

  /** From the text to the payload. */
  function Unarmour(code: seq<byte>): Result<seq<byte>> {
    if code == [] || code[|code| - 1] != 0 then Error
    else
      var lines := DecodedLines(|code|);
      if |code| - 1 < 2 * lines then Error
      else Unline(DecodeStart, code, |code| - 1 - 2 * lines, lines)
  }

  /** The caller's output array: its element size, the largest size allowed (0 for any), and the room of a view. */
  datatype Target = Target(elemSize: nat, max: nat, view: bool, room: nat)

  predicate Fits(t: Target, size: nat)
    requires t.elemSize > 0
  {
    size % t.elemSize == 0 && (t.max > 0 ==> size <= t.max) && (t.view ==> size <= t.room)
  }

  /** sc_io_decode as a function. */
  function DecodeArmour(code: seq<byte>, t: Target): Result<seq<byte>>
    requires t.elemSize > 0
  {
    match Unarmour(code)
    case Error => Error
    case Ok(payload) =>
      if |payload| < INFO_LEN || payload[INFO_LEN - 1] != FORMAT then Error
      else
        var size := SizeOf(payload[..8]);
        if !Fits(t, size) then Error else Uncompress(payload[INFO_LEN..], size)
  }

  lemma {:induction false} FullLineBack(st: DecodeState, plain: seq<byte>)
    requires DecodeOk(st) && st.step == Stepa && |plain| == DBC
    ensures |Rfc4648(plain)| == LBC && Decode(st, Rfc4648(plain)) == plain
    ensures DecodeAfter(st, Rfc4648(plain)).step == Stepa
  {
    RoundTrip(st, plain);
    DecodeWholeGroups(st, plain);
  }

  lemma {:induction false} UnlineMore(st: DecodeState, code: seq<byte>, irem: nat, lines: nat, plain: seq<byte>,
          more: seq<byte>)
    requires DecodeOk(st) && lines > 1 && irem >= LBC && |code| >= LBE && |plain| == DBC
    requires Decode(st, code[..LBC]) == plain
    requires Unline(DecodeAfter(st, code[..LBC]), code[LBE..], irem - LBC, lines - 1) == Ok(more)
    ensures Unline(st, code, irem, lines) == Ok(plain + more)
  {
  }

  lemma {:induction false} UnlineLast(st: DecodeState, line: seq<byte>, lineBreak: seq<byte>, tail: seq<byte>,
          plain: seq<byte>)
    requires DecodeOk(st) && |line| <= LBC && plain != [] && Decode(st, line) == plain
    ensures Unline(st, line + lineBreak + tail, |line|, 1) == Ok(plain)
  {
    var code := line + lineBreak + tail;
    assert code == line + (lineBreak + tail);
    assert code[..|line|] == line;
  }

  /** Unlining undoes lining, whatever the line break byte. */
  lemma {:induction false} LinesBack(st: DecodeState, payload: seq<byte>, lb: byte, tail: seq<byte>)
    requires DecodeOk(st) && st.step == Stepa && payload != []
    ensures Unline(st, Lines(payload, lb) + tail, 4 * ((|payload| + 2) / 3), LineCount(|payload|)) == Ok(payload)
  {
    LinesBackBy(st, payload, lb, tail, 4 * ((|payload| + 2) / 3), LineCount(|payload|));
  }

  /** The number of characters and of lines for n bytes. */
  ghost predicate Counted(n: nat, irem: nat, lines: nat) {
    irem == 4 * ((n + 2) / 3) && lines == LineCount(n)
  }

  lemma {:induction false} CountedLess(n: nat, irem: nat, lines: nat)
    requires n > DBC && Counted(n, irem, lines)
    ensures irem >= LBC && lines > 1 && Counted(n - DBC, irem - LBC, lines - 1)
  {
    OneLineLess(n);
  }

  lemma {:induction false} LinesBackBy(st: DecodeState, payload: seq<byte>, lb: byte, tail: seq<byte>, irem: nat,
          lines: nat)
    requires DecodeOk(st) && st.step == Stepa && payload != [] && Counted(|payload|, irem, lines)
    ensures Unline(st, Lines(payload, lb) + tail, irem, lines) == Ok(payload)
    decreases |payload|
  {
    if |payload| <= DBC {
      LastLineBack(st, payload, lb, tail);
    } else {
      var head, rest := payload[..DBC], payload[DBC..];
      FullLineBack(st, head);
      CountedLess(|payload|, irem, lines);
      LinesBackBy(DecodeAfter(st, Rfc4648(head)), rest, lb, tail, irem - LBC, lines - 1);
      MoreBack(st, payload, lb, tail, irem, lines);
    }
  }

  lemma {:induction false} MoreBack(st: DecodeState, payload: seq<byte>, lb: byte, tail: seq<byte>, irem: nat,
          lines: nat)
    requires DecodeOk(st) && st.step == Stepa && |payload| > DBC && irem >= LBC && lines > 1
    requires DecodeOk(DecodeAfter(st, Rfc4648(payload[..DBC])))
    requires Unline(DecodeAfter(st, Rfc4648(payload[..DBC])), Lines(payload[DBC..], lb) + tail, irem - LBC,
               lines - 1) == Ok(payload[DBC..])
    ensures Unline(st, Lines(payload, lb) + tail, irem, lines) == Ok(payload)
  {
    var head, rest := payload[..DBC], payload[DBC..];
    FullLineBack(st, head);
    FirstLine(payload, lb, tail);
    UnlineMore(st, Lines(payload, lb) + tail, irem, lines, head, rest);
    assert payload == head + rest;
  }

  lemma {:induction false} LastLineBack(st: DecodeState, payload: seq<byte>, lb: byte, tail: seq<byte>)
    requires DecodeOk(st) && st.step == Stepa && 0 < |payload| <= DBC
    ensures LineCount(|payload|) == 1
    ensures Unline(st, Lines(payload, lb) + tail, 4 * ((|payload| + 2) / 3), 1) == Ok(payload)
  {
    RoundTrip(st, payload);
    UnlineLast(st, Rfc4648(payload), [lb, 10], tail, payload);
  }

  lemma {:induction false} FirstLine(payload: seq<byte>, lb: byte, tail: seq<byte>)
    requires |payload| > DBC
    ensures var code := Lines(payload, lb) + tail;
      |code| >= LBE && code[..LBC] == Rfc4648(payload[..DBC]) && code[LBE..] == Lines(payload[DBC..], lb) + tail
  {
    LineParts(payload, lb);
    CutLine(Rfc4648(payload[..DBC]), [lb, 10], Lines(payload[DBC..], lb), tail, Lines(payload, lb) + tail);
  }

  lemma {:induction false} LineParts(payload: seq<byte>, lb: byte)
    requires |payload| > DBC
    ensures |Rfc4648(payload[..DBC])| == LBC
    ensures Lines(payload, lb) == Rfc4648(payload[..DBC]) + [lb, 10] + Lines(payload[DBC..], lb)
  {
    FullLength(payload[..DBC]);
  }

  lemma {:induction false} FullLength(line: seq<byte>)
    requires |line| == DBC
    ensures |Rfc4648(line)| == LBC
  {
    assert (DBC + 2) / 3 == 19;
  }

  lemma {:induction false} CutLine(line: seq<byte>, lineBreak: seq<byte>, more: seq<byte>, tail: seq<byte>,
          code: seq<byte>)
    requires |line| == LBC && |lineBreak| == 2 && code == line + lineBreak + more + tail
    ensures |code| >= LBE && code[..LBC] == line && code[LBE..] == more + tail
  {
    assert code == line + (lineBreak + more + tail);
    assert code == (line + lineBreak) + (more + tail);
  }

  lemma {:induction false} LineCounts(n: nat)
    requires n > 0
    ensures DecodedLines(EncodedSize(n)) == LineCount(n)
    ensures EncodedSize(n) - 1 - 2 * LineCount(n) == 4 * ((n + 2) / 3)
  {
    var lines := LineCount(n);
    var c := 4 * ((n + 2) / 3);
    assert n == DBC * (lines - 1) + (n - DBC * (lines - 1)) && 1 <= n - DBC * (lines - 1) <= DBC;
  }

  lemma {:induction false} UnarmourBack(data: seq<byte>, lb: byte)
    requires |data| < SIZE_T
    ensures Unarmour(Armoured(data, lb)) == Ok(Payload(data))
  {
    PayloadLength(data);
    LinesLength(Payload(data), lb);
    UnlinedBack(Payload(data), lb, Armoured(data, lb));
  }

  lemma {:induction false} UnlinedBack(payload: seq<byte>, lb: byte, code: seq<byte>)
    requires payload != [] && code == Lines(payload, lb) + [0] && |code| == EncodedSize(|payload|)
    ensures Unarmour(code) == Ok(payload)
  {
    LineCounts(|payload|);
    UnlinedWith(payload, lb, code, 4 * ((|payload| + 2) / 3), LineCount(|payload|));
  }

  lemma {:induction false} UnlinedWith(payload: seq<byte>, lb: byte, code: seq<byte>, irem: nat, lines: nat)
    requires payload != [] && code == Lines(payload, lb) + [0] && Counted(|payload|, irem, lines)
    requires DecodedLines(|code|) == lines && |code| - 1 - 2 * lines == irem
    ensures Unarmour(code) == Ok(payload)
  {
    LinesBackBy(DecodeStart, payload, lb, [0], irem, lines);
  }

  // ---------------------------------------------------------------- what is decoded

  /** The characters of a text without its line breaks. */
  ghost function Text(code: seq<byte>, irem: nat, lines: nat): seq<byte>
    requires irem <= 76 * lines && irem + 2 * lines <= |code|
  {
    seq(irem, i requires 0 <= i < irem => PlaceInside(i, irem, lines); code[Place(i)])
  }

  lemma {:induction false} PlaceInside(i: nat, irem: nat, lines: nat)
    requires i < irem <= 76 * lines
    ensures Place(i) < irem + 2 * lines
  {
    assert i / 76 <= lines - 1;
    assert Place(i) == i + 2 * (i / 76);
  }

  /** All lines but the last are full of digits, and the last one has enough for a byte. */
  ghost predicate Readable(text: seq<byte>, lines: nat) {
    && lines > 0 && |text| >= 76 * (lines - 1)
    && (forall i :: 0 <= i < 76 * (lines - 1) ==> IsDigit(text[i]))
    && |InAlphabet(text[76 * (lines - 1)..])| >= 2
  }

  lemma {:induction false} FullLineIff(st: DecodeState, line: seq<byte>)
    requires DecodeOk(st) && st.step == Stepa && |line| == 76
    ensures |Decode(st, line)| == 57 <==> forall i :: 0 <= i < 76 ==> IsDigit(line[i])
    ensures |Decode(st, line)| == 57 ==> DecodeAfter(st, line).step == Stepa
  {
    DecodedLength(st, line);
    AllDigits(line);
  }

  lemma {:induction false} TextMore(code: seq<byte>, irem: nat, lines: nat)
    requires lines > 1 && 76 <= irem <= 76 * lines && irem + 2 * lines <= |code|
    ensures Text(code, irem, lines) == code[..76] + Text(code[78..], irem - 76, lines - 1)
  {
    var text, more := Text(code, irem, lines), Text(code[78..], irem - 76, lines - 1);
    forall i | 0 <= i < irem ensures text[i] == (code[..76] + more)[i] {
      if i < 76 { assert Place(i) == i; } else { PlaceLater(i); }
    }
  }

  lemma {:induction false} ReadableMore(line: seq<byte>, more: seq<byte>, lines: nat)
    requires |line| == 76 && lines > 1
    ensures Readable(line + more, lines) <==>
            (forall i :: 0 <= i < 76 ==> IsDigit(line[i])) && Readable(more, lines - 1)
  {
    var text := line + more;
    if |text| >= 76 * (lines - 1) {
      assert text[76 * (lines - 1)..] == more[76 * (lines - 2)..];
    }
    if Readable(text, lines) {
      forall i | 0 <= i < 76 * (lines - 2) ensures IsDigit(more[i]) { assert text[76 + i] == more[i]; }
      forall i | 0 <= i < 76 ensures IsDigit(line[i]) { assert text[i] == line[i]; }
    }
  }

  /** The lines are read exactly if they are readable, and give the decoding of all characters. */
  lemma {:induction false} UnlineIff(st: DecodeState, code: seq<byte>, irem: nat, lines: nat)
    requires DecodeOk(st) && st.step == Stepa && lines > 0
    requires irem <= 76 * lines && irem + 2 * lines <= |code|
    ensures var text := Text(code, irem, lines);
      Unline(st, code, irem, lines) == if Readable(text, lines) then Ok(Decode(st, text)) else Error
    decreases lines
  {
    if lines == 1 {
      LastLineIff(st, code, irem);
    } else if irem >= 76 {
      var line := code[..76];
      FullLineIff(st, line);
      if |Decode(st, line)| == 57 { UnlineIff(DecodeAfter(st, line), code[78..], irem - 76, lines - 1); }
      LongLineIff(st, code, irem, lines);
    } else {
      assert Unline(st, code, irem, lines) == Error;
    }
  }

  lemma {:induction false} LongLineIff(st: DecodeState, code: seq<byte>, irem: nat, lines: nat)
    requires DecodeOk(st) && st.step == Stepa && lines > 1
    requires 76 <= irem <= 76 * lines && irem + 2 * lines <= |code|
    requires |Decode(st, code[..76])| == 57 ==>
               var after, more := DecodeAfter(st, code[..76]), Text(code[78..], irem - 76, lines - 1);
               Unline(after, code[78..], irem - 76, lines - 1) ==
                 if Readable(more, lines - 1) then Ok(Decode(after, more)) else Error
    ensures var text := Text(code, irem, lines);
      Unline(st, code, irem, lines) == if Readable(text, lines) then Ok(Decode(st, text)) else Error
  {
    var line, more := code[..76], Text(code[78..], irem - 76, lines - 1);
    TextMore(code, irem, lines);
    FullLineIff(st, line);
    ReadableMore(line, more, lines);
    UnlineLong(st, code, irem, lines);
    DecodeAppend(st, line, more);
  }

  lemma {:induction false} UnlineLong(st: DecodeState, code: seq<byte>, irem: nat, lines: nat)
    requires DecodeOk(st) && lines > 1 && irem >= 76 && |code| >= 78
    ensures var out := Decode(st, code[..76]);
      Unline(st, code, irem, lines) ==
        if |out| != 57 then Error
        else Behind(out, Unline(DecodeAfter(st, code[..76]), code[78..], irem - 76, lines - 1))
  {
  }

  lemma {:induction false} LastLineIff(st: DecodeState, code: seq<byte>, irem: nat)
    requires DecodeOk(st) && st.step == Stepa && irem <= 76 && irem + 2 <= |code|
    ensures var text := Text(code, irem, 1);
      Unline(st, code, irem, 1) == if Readable(text, 1) then Ok(Decode(st, text)) else Error
  {
    var text := Text(code, irem, 1);
    forall i | 0 <= i < irem ensures text[i] == code[..irem][i] { assert Place(i) == i; }
    assert text == code[..irem] && text[0..] == text;
    DecodedLength(st, text);
  }

  /**
   A text is read exactly if it ends with a NUL and its lines, of 78 bytes with their breaks, are
   readable; then all characters outside the breaks are decoded.
   */
  lemma {:induction false} UnarmourIff(code: seq<byte>, payload: seq<byte>)
    requires payload != []
    ensures Unarmour(code) == Ok(payload) <==>
            && |code| > 1 && code[|code| - 1] == 0
            && var lines := (|code| - 1 + 77) / 78;
            && |code| - 1 >= 2 * lines
            && var text := Text(code, |code| - 1 - 2 * lines, lines);
            && Readable(text, lines) && payload == Decode(DecodeStart, text)
  {
    if |code| > 1 && code[|code| - 1] == 0 {
      var lines := DecodedLines(|code|);
      if |code| - 1 >= 2 * lines { UnlineIff(DecodeStart, code, |code| - 1 - 2 * lines, lines); }
    }
  }

  /** Exactly which texts are decoded into which target, and to what. */
  lemma {:induction false} DecodedIff(code: seq<byte>, t: Target, out: seq<byte>)
    requires t.elemSize > 0
    ensures DecodeArmour(code, t) == Ok(out) <==>
            && |out| % t.elemSize == 0 && (t.max > 0 ==> |out| <= t.max) && (t.view ==> |out| <= t.room)
            && exists payload :: Unarmour(code) == Ok(payload) && IsPayload(payload, out)
  {
    if DecodeArmour(code, t) == Ok(out) {
      var payload := Unarmour(code).value;
      Accepted(payload[9..], SizeOf(payload[..8]));
      assert IsPayload(payload, out);
    }
  }

  /** Eight bytes of size, 'z' and a stream that gives `out`. */
  ghost predicate IsPayload(payload: seq<byte>, out: seq<byte>) {
    && |payload| >= 9 && SizeOf(payload[..8]) == |out| && payload[8] as char == 'z'
    && Uncompress(payload[9..], |out|) == Ok(out)
  }

  /**
   Every byte string comes back, for every line break byte, unless the caller's array
   cannot take it; then there is an error.
   */
  lemma {:induction false} ArmourRoundTrip(data: seq<byte>, lb: byte, t: Target)
    requires |data| < SIZE_T && t.elemSize > 0
    ensures DecodeArmour(Armoured(data, lb), t) == if Fits(t, |data|) then Ok(data) else Error
  {
    UnarmourBack(data, lb);
    PayloadLength(data);
    EightBytes();
    SizeInverse(|data|, 8);
    StreamInverse(data);
    var payload := Payload(data);
    assert payload[..8] == SizeBytes(|data|, 8) && payload[8] == FORMAT && payload[INFO_LEN..] == Stream(data);
  }

  // ---------------------------------------------------------------- the calls

  lemma {:induction false} UnlineStep(st: DecodeState, code: seq<byte>, irem: nat, lines: nat, done: seq<byte>)
    requires DecodeOk(st) && lines > 0
    ensures var lein := if irem < LBC then irem else LBC;
      if lein > |code| then Unline(st, code, irem, lines) == Error
      else
        var out := Decode(st, code[..lein]);
        if out == [] || (lines > 1 && (|out| != DBC || lein != LBC || |code| < LBE)) then
          Unline(st, code, irem, lines) == Error
        else if lines == 1 then Behind(done, Unline(st, code, irem, lines)) == Ok(done + out)
        else Behind(done, Unline(st, code, irem, lines)) ==
             Behind(done + out, Unline(DecodeAfter(st, code[..lein]), code[LBE..], irem - LBC, lines - 1))
  {
    var lein := if irem < LBC then irem else LBC;
    if lein == LBC && |code| >= LBE && lines > 1 {
      var out := Decode(st, code[..lein]);
      var r := Unline(DecodeAfter(st, code[..lein]), code[LBE..], irem - LBC, lines - 1);
      if r.Ok? { assert done + (out + r.value) == done + out + r.value; }
    }
  }

  function Behind(done: seq<byte>, r: Result<seq<byte>>): Result<seq<byte>> {
    match r
    case Error => Error
    case Ok(more) => Ok(done + more)
  }

  /** The line loop of sc_io_decode. */
  method DecodeLines(code: seq<byte>) returns (r: Result<seq<byte>>)
    ensures r == Unarmour(code)
  {
    if |code| == 0 || code[|code| - 1] != 0 {
      return Error;
    }
    var lines := DecodedLines(|code|);
    if |code| - 1 < 2 * lines {
      return Error;
    }
    var irem: nat := |code| - 1 - 2 * lines;
    var dec := new Decoder();
    var rest := code;
    var done: seq<byte> := [];
    ghost var goal := Unline(DecodeStart, code, irem, lines);
    assert Behind([], goal) == goal by { if goal.Ok? { assert [] + goal.value == goal.value; } }
    for zlin := 0 to lines
      invariant DecodeOk(dec.State())
      invariant zlin < lines ==> goal == Behind(done, Unline(dec.State(), rest, irem, lines - zlin))
      invariant zlin == lines ==> goal == Ok(done)
    {
      UnlineStep(dec.State(), rest, irem, lines - zlin, done);
      var lein := if irem < LBC then irem else LBC;
      if lein > |rest| {
        return Error;
      }
      var out := dec.Block(rest[..lein]);
      if |out| == 0 {
        return Error;
      }
      if zlin < lines - 1 {
        if |out| != DBC || lein != LBC || |rest| < LBE {
          return Error;
        }
        rest := rest[LBE..];
        irem := irem - LBC;
      }
      done := done + out;
    }
    r := Ok(done);
  }

  /** sc_io_decode */
  method DecodeZlib(code: seq<byte>, t: Target) returns (r: Result<seq<byte>>)
    requires t.elemSize > 0
    ensures r == DecodeArmour(code, t)
    ensures r.Ok? ==> |r.value| % t.elemSize == 0 && (t.max > 0 ==> |r.value| <= t.max)
    ensures r.Ok? && t.view ==> |r.value| <= t.room
  {
    var p := DecodeLines(code);
    if p.Error? || |p.value| < INFO_LEN || p.value[INFO_LEN - 1] != FORMAT {
      return Error;
    }
    var size := ReadSize(p.value[..8]);
    if size % t.elemSize != 0 || (t.max > 0 && size > t.max) || (t.view && size > t.room) {
      return Error;
    }
    r := Nonuncompress(p.value[INFO_LEN..], size);
    if r.Ok? { DecodedIff(code, t, r.value); }
  }

  /** The size from its bytes, each shifted into place. */
  lemma {:induction false} SizeGrows(bytes: seq<byte>, i: nat, p: nat)
    requires i < |bytes|
    ensures SizeOf(bytes[..i + 1]) * p == SizeOf(bytes[..i]) * (256 * p) + bytes[i] * p
  {
    assert bytes[..i + 1][..i] == bytes[..i];
    TimesByte(SizeOf(bytes[..i]), bytes[i], p);
  }

  lemma {:induction false} TimesByte(x: nat, b: nat, p: nat)
    ensures (x * 256 + b) * p == x * (256 * p) + b * p
  {
  }

  method ReadSize(bytes: seq<byte>) returns (size: nat)
    ensures size == SizeOf(bytes)
  {
    size := 0;
    var n := |bytes|;
    for i := 0 to n
      invariant size == SizeOf(bytes[..i]) * Power256(n - i)
    {
      var p := Power256(n - 1 - i);
      SizeGrows(bytes, i, p);
      size := size + bytes[i] * p;
    }
    assert bytes[..n] == bytes;
  }

  // ---------------------------------------------------------------- the head alone

  /** sc_io_decode_info: original size and format character from the first 12 characters. */
  method DecodeInfo(code: seq<byte>) returns (r: Result<(nat, byte)>)
    ensures |code| < 12 ==> r == Error
    ensures |code| >= 12 ==>
      var head := Decode(DecodeStart, code[..12]);
      r == if |head| != INFO_LEN then Error else Ok((SizeOf(head[..8]), head[8]))
  {
    if |code| < 12 {
      return Error;
    }
    var dec := new Decoder();
    var head := dec.Block(code[..12]);
    if |head| != INFO_LEN {
      return Error;
    }
    var size := ReadSize(head[..8]);
    r := Ok((size, head[8]));
  }

  lemma {:induction false} RfcPrefix(plain: seq<byte>, k: nat)
    requires 3 * k <= |plain|
    ensures 4 * k <= |Rfc4648(plain)| && Rfc4648(plain)[..4 * k] == Rfc4648(plain[..3 * k])
    decreases k
  {
    if k > 0 {
      RfcPrefix(plain[3..], k - 1);
      assert plain[..3 * k][3..] == plain[3..][..3 * (k - 1)];
    }
  }

  /** The head of an encoded text gives size and format character. */
  lemma {:induction false} InfoBack(data: seq<byte>, lb: byte)
    requires |data| < SIZE_T
    ensures var code := Armoured(data, lb);
      && |code| >= 12
      && var head := Decode(DecodeStart, code[..12]);
      && |head| == 9 && SizeOf(head[..8]) == |data| && head[8] as char == 'z'
  {
    var payload := Payload(data);
    PayloadLength(data);
    var line := if |payload| <= DBC then payload else payload[..DBC];
    RfcPrefix(line, 3);
    assert line[..9] == payload[..9];
    assert Armoured(data, lb)[..12] == Rfc4648(line)[..12];
    RoundTrip(DecodeStart, payload[..9]);
    EightBytes();
    SizeInverse(|data|, 8);
    assert payload[..9] == SizeBytes(|data|, 8) + [FORMAT];
    assert payload[..9][..8] == SizeBytes(|data|, 8);
  }
}
