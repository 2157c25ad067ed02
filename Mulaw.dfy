/** The G.711 µ-law codec of src/audio/codecs/Mulaw.ts.

    Encode and Decode follow the source statement by statement, with every
    JavaScript bitwise operator taken from JsBits.  Encode returns the raw
    complement `~(sign | exponent << 4 | mantissa)`, a value in [-256, -1]; the
    µ-law byte is what a Uint8Array store makes of it (EncodeByte).  The lemmas
    compute both functions in closed form and prove the range, sign, silence,
    clipping, byte round-trip and quantisation properties of the codec. */
module Mulaw {
  import opened JsBits

  const BIAS: int := 0x84
  const CLIP: int := 32635

  /** Segment base magnitudes: 132 * (2^s - 1) for segment s. */
  const DecodeTable: seq<int> := [0, 132, 396, 924, 1980, 4092, 8316, 16764]

  /** The 256-entry segment table, indexed by bits 7..14 of the biased
      magnitude, split into the seven rows in which the source writes it. */
  const EncodeRow0: seq<int> := [0, 0, 1, 1, 2, 2, 2, 2, 3, 3, 3, 3, 3, 3, 3, 3, 4, 4, 4, 4, 4, 4, 4, 4, 4, 4, 4, 4, 4, 4, 4, 4, 5, 5, 5, 5, 5, 5, 5]
  const EncodeRow1: seq<int> := [5, 5, 5, 5, 5, 5, 5, 5, 5, 5, 5, 5, 5, 5, 5, 5, 5, 5, 5, 5, 5, 5, 5, 5, 5, 6, 6, 6, 6, 6, 6, 6, 6, 6, 6, 6, 6, 6, 6]
  const EncodeRow2: seq<int> := [6, 6, 6, 6, 6, 6, 6, 6, 6, 6, 6, 6, 6, 6, 6, 6, 6, 6, 6, 6, 6, 6, 6, 6, 6, 6, 6, 6, 6, 6, 6, 6, 6, 6, 6, 6, 6, 6, 6]
  const EncodeRow3: seq<int> := [6, 6, 6, 6, 6, 6, 6, 6, 6, 6, 6, 7, 7, 7, 7, 7, 7, 7, 7, 7, 7, 7, 7, 7, 7, 7, 7, 7, 7, 7, 7, 7, 7, 7, 7, 7, 7, 7, 7]
  const EncodeRow4: seq<int> := [7, 7, 7, 7, 7, 7, 7, 7, 7, 7, 7, 7, 7, 7, 7, 7, 7, 7, 7, 7, 7, 7, 7, 7, 7, 7, 7, 7, 7, 7, 7, 7, 7, 7, 7, 7, 7, 7, 7]
  const EncodeRow5: seq<int> := [7, 7, 7, 7, 7, 7, 7, 7, 7, 7, 7, 7, 7, 7, 7, 7, 7, 7, 7, 7, 7, 7, 7, 7, 7, 7, 7, 7, 7, 7, 7, 7, 7, 7, 7, 7, 7, 7, 7]
  const EncodeRow6: seq<int> := [7, 7, 7, 7, 7, 7, 7, 7, 7, 7, 7, 7, 7, 7, 7, 7, 7, 7, 7, 7, 7, 7]
  const EncodeTable: seq<int> := EncodeRow0 + EncodeRow1 + EncodeRow2 + EncodeRow3 + EncodeRow4 + EncodeRow5 + EncodeRow6

  /** `Mulaw.encode`: 16-bit PCM sample to the complemented µ-law code. */
  function Encode(sample16: int): int
  {
    var sign := SignBit(sample16);
    var magnitude := if sign != 0 then -sample16 else sample16;
    var biased := magnitude + BIAS;
    var clipped := if biased > CLIP then CLIP else biased;
    var exponent := ExponentOf(clipped);
    Pack(sign, exponent, MantissaOf(clipped, exponent))
  }

  /** `(sample16 >> 8) & 0x80` */
  function SignBit(sample16: int): int { And(Shr(sample16, 8), 0x80) }

  /** `encodeTable[(sample16 >> 7) & 0xFF]` */
  function ExponentOf(clipped: int): int { EncodeTable[And(Shr(clipped, 7), 0xFF)] }

  /** `(sample16 >> (exponent + 3)) & 0x0F` */
  function MantissaOf(clipped: int, exponent: int): int { And(Shr(clipped, exponent + 3), 0x0F) }

  /** `~(sign | (exponent << 4) | mantissa)` */
  function Pack(sign: int, exponent: int, mantissa: int): int
  {
    Not(Or(Or(sign, Shl(exponent, 4)), mantissa))
  }

  /** `Mulaw.decode`: µ-law code to a 16-bit PCM sample. */
  function Decode(sample8: int): int
  {
    var inverted := Not(sample8);
    var sign := And(inverted, 0x80);
    var exponent := And(Shr(inverted, 4), 0x07);
    var mantissa := And(inverted, 0x0F);
    var magnitude := DecodeTable[exponent] + Shl(mantissa, exponent + 3);
    if sign != 0 then -magnitude else magnitude
  }

  /** The byte that reaches the wire: Encode's result stored in a Uint8Array. */
  function EncodeByte(sample16: int): int
  {
    ToUint8(Encode(sample16))
  }

  // ---------------------------------------------------------------------------
  // Reference definitions

  /** Position of the highest set bit of a segment-table index (0 for 0 and 1). */
  function HighBit(i: int): int
  {
    if i < 2 then 0 else if i < 4 then 1 else if i < 8 then 2 else if i < 16 then 3
    else if i < 32 then 4 else if i < 64 then 5 else if i < 128 then 6 else 7
  }

  function HighBitRun(offset: int, n: nat): seq<int>
  {
    seq(n, j => HighBit(j + offset))
  }

  /** Magnitude of a biased sample after clipping, as the encoder sees it. */
  function Clipped(sample16: int): int
  {
    var magnitude := if sample16 < 0 then -sample16 else sample16;
    if magnitude + BIAS > CLIP then CLIP else magnitude + BIAS
  }

  /** The segment (exponent) G.711 assigns to an int16 sample. */
  function SegmentOf(sample16: int): int
  {
    HighBit(Clipped(sample16) / 128)
  }

  /** The uncomplemented µ-law code `sign | exponent << 4 | mantissa`, in arithmetic. */
  function Code(sample16: int): int
  {
    var e := SegmentOf(sample16);
    (if sample16 < 0 then 128 else 0) + 16 * e + (Clipped(sample16) / Pow2(e + 3)) % 16
  }

  /** What a code c = ~b & 0xFF decodes to, in arithmetic. */
  function CodeValue(c: int): int
  {
    var e := (c / 16) % 8;
    var magnitude := DecodeTable[e] + (c % 16) * Pow2(e + 3);
    if c >= 128 then -magnitude else magnitude
  }

  function Abs(x: int): int { if x < 0 then -x else x }

  // ---------------------------------------------------------------------------
  // The segment table

  lemma EncodeRow0IsRun()
    ensures EncodeRow0 == HighBitRun(0, 39)
  {
    forall j | 0 <= j < 39 ensures EncodeRow0[j] == HighBit(j + 0) { }
  }

  lemma EncodeRow1IsRun()
    ensures EncodeRow1 == HighBitRun(39, 39)
  {
    forall j | 0 <= j < 39 ensures EncodeRow1[j] == HighBit(j + 39) { }
  }

  lemma EncodeRow2IsRun()
    ensures EncodeRow2 == HighBitRun(78, 39)
  {
    forall j | 0 <= j < 39 ensures EncodeRow2[j] == HighBit(j + 78) { }
  }

  lemma EncodeRow3IsRun()
    ensures EncodeRow3 == HighBitRun(117, 39)
  {
    forall j | 0 <= j < 39 ensures EncodeRow3[j] == HighBit(j + 117) { }
  }

  lemma EncodeRow4IsRun()
    ensures EncodeRow4 == HighBitRun(156, 39)
  {
    forall j | 0 <= j < 39 ensures EncodeRow4[j] == HighBit(j + 156) { }
  }

  lemma EncodeRow5IsRun()
    ensures EncodeRow5 == HighBitRun(195, 39)
  {
    forall j | 0 <= j < 39 ensures EncodeRow5[j] == HighBit(j + 195) { }
  }

  lemma EncodeRow6IsRun()
    ensures EncodeRow6 == HighBitRun(234, 22)
  {
    forall j | 0 <= j < 22 ensures EncodeRow6[j] == HighBit(j + 234) { }
  }

  lemma EncodePrefix1()
    ensures EncodeRow0 == HighBitRun(0, 39)
  {
    EncodeRow0IsRun();
  }

  lemma EncodePrefix2()
    ensures EncodeRow0 + EncodeRow1 == HighBitRun(0, 78)
  {
    EncodePrefix1();
    EncodeRow1IsRun();
    HighBitRunsAppend(0, 39, 39);
  }

  lemma EncodePrefix3()
    ensures EncodeRow0 + EncodeRow1 + EncodeRow2 == HighBitRun(0, 117)
  {
    EncodePrefix2();
    EncodeRow2IsRun();
    HighBitRunsAppend(0, 78, 39);
  }

  lemma EncodePrefix4()
    ensures EncodeRow0 + EncodeRow1 + EncodeRow2 + EncodeRow3 == HighBitRun(0, 156)
  {
    EncodePrefix3();
    EncodeRow3IsRun();
    HighBitRunsAppend(0, 117, 39);
  }

  lemma EncodePrefix5()
    ensures EncodeRow0 + EncodeRow1 + EncodeRow2 + EncodeRow3 + EncodeRow4 == HighBitRun(0, 195)
  {
    EncodePrefix4();
    EncodeRow4IsRun();
    HighBitRunsAppend(0, 156, 39);
  }

  lemma EncodePrefix6()
    ensures EncodeRow0 + EncodeRow1 + EncodeRow2 + EncodeRow3 + EncodeRow4 + EncodeRow5 == HighBitRun(0, 234)
  {
    EncodePrefix5();
    EncodeRow5IsRun();
    HighBitRunsAppend(0, 195, 39);
  }

  lemma EncodePrefix7()
    ensures EncodeRow0 + EncodeRow1 + EncodeRow2 + EncodeRow3 + EncodeRow4 + EncodeRow5 + EncodeRow6 == HighBitRun(0, 256)
  {
    EncodePrefix6();
    EncodeRow6IsRun();
    HighBitRunsAppend(0, 234, 22);
  }

  lemma HighBitRunsAppend(a: int, n: nat, m: nat)
    ensures HighBitRun(a, n) + HighBitRun(a + n, m) == HighBitRun(a, n + m)
  {
    var r := HighBitRun(a, n) + HighBitRun(a + n, m);
    forall j | 0 <= j < n + m ensures r[j] == HighBitRun(a, n + m)[j] { }
  }

  /** Every entry of the segment table is the highest set bit of its index. */
  lemma EncodeTableIsHighBit(i: int)
    requires 0 <= i < 256
    ensures |EncodeTable| == 256
    ensures EncodeTable[i] == HighBit(i)
  {
    EncodePrefix7();
  }

  // ---------------------------------------------------------------------------
  // Closed forms

  /** Shifting a mantissa left by exponent + 3 multiplies it; it stays far below 2^31. */
  lemma ShlMantissa(m: int, e: int)
    requires 0 <= m < 16 && 0 <= e < 8
    ensures Shl(m, e + 3) == m * Pow2(e + 3)
    ensures 0 <= m * Pow2(e + 3) <= 15 * 1024
  {
    var p := Pow2(e + 3);
    StepBound(e);
    MantissaProduct(m, p);
    ShlBy(m, e + 3, p);
  }

  lemma MantissaProduct(m: int, p: int)
    requires 0 <= m < 16 && 8 <= p <= 1024
    ensures 0 <= m * p <= 15 * 1024
  {
    assert m * p <= 15 * p;
  }

  lemma StepBound(e: int)
    requires 0 <= e < 8
    ensures 8 <= Pow2(e + 3) <= 1024
  {
    Pow2Monotone(3, e + 3);
    Pow2Monotone(e + 3, 10);
    assert Pow2(3) == 8 && Pow2(10) == 1024;
  }

  /** The quantisation step of segment e, 2^(e+3), for each of the eight segments. */
  lemma StepSize(e: int)
    requires 0 <= e < 8
    ensures Pow2(e + 3) == [8, 16, 32, 64, 128, 256, 512, 1024][e]
  {
    assert Pow2(3) == 8 && Pow2(4) == 16 && Pow2(5) == 32 && Pow2(6) == 64;
    assert Pow2(7) == 128 && Pow2(8) == 256 && Pow2(9) == 512 && Pow2(10) == 1024;
  }

  /** `~b` of a byte b is its code 255 - b shifted down by 256. */
  lemma NotByte(b: int)
    requires IsByte(b)
    ensures Not(b) == (255 - b) - 256
  {
  }

  /** The three fields Decode extracts from ~b, for a byte b and its code c = 255 - b. */
  lemma DecodeSignField(b: int)
    requires IsByte(b)
    ensures And(Not(b), 0x80) == (if 255 - b >= 128 then 128 else 0)
  {
    var c := 255 - b;
    NotByte(b);
    AndBit7(c - 256);
    CodeBit7(c);
  }

  lemma CodeBit7(c: int)
    requires 0 <= c < 256
    ensures ((c - 256) / 128) % 2 == (if c >= 128 then 1 else 0)
  {
    assert (c - 256) / 128 == c / 128 - 2;
  }

  lemma DecodeExponentField(b: int)
    requires IsByte(b)
    ensures And(Shr(Not(b), 4), 0x07) == ((255 - b) / 16) % 8
  {
    var c := 255 - b;
    NotByte(b);
    ShrFour(c - 256);
    CodeHighNibble(c);
    AndLowMasks(c / 16 - 16);
  }

  lemma ShrFour(x: int)
    requires -TWO_31 <= x < TWO_31
    ensures Shr(x, 4) == x / 16
  {
    ShrBy(x, 4, 16);
  }

  lemma CodeHighNibble(c: int)
    requires 0 <= c < 256
    ensures (c - 256) / 16 == c / 16 - 16
    ensures (c / 16 - 16) % 8 == (c / 16) % 8
  {
  }

  lemma DecodeMantissaField(b: int)
    requires IsByte(b)
    ensures And(Not(b), 0x0F) == (255 - b) % 16
  {
    var c := 255 - b;
    NotByte(b);
    AndLowMasks(c - 256);
    CodeLowNibble(c);
  }

  lemma CodeLowNibble(c: int)
    requires 0 <= c < 256
    ensures (c - 256) % 16 == c % 16
  {
  }

  /** Decode in arithmetic: the code c = 255 - b carries the sign in bit 7,
      the segment in bits 4..6 and the mantissa in bits 0..3. */
  lemma DecodeFields(b: int)
    requires IsByte(b)
    ensures Decode(b) == CodeValue(255 - b)
  {
    var c := 255 - b;
    var sign, e, m := if c >= 128 then 128 else 0, (c / 16) % 8, c % 16;
    DecodeSignField(b);
    DecodeExponentField(b);
    DecodeMantissaField(b);
    DecodeSteps(b, sign, e, m);
    ShlMantissa(m, e);
    CodeValueSteps(c, e, m);
  }

  /** Decode is the signed magnitude of its intermediate values. */
  lemma DecodeSteps(b: int, sign: int, e: int, m: int)
    requires And(Not(b), 0x80) == sign && And(Shr(Not(b), 4), 0x07) == e && And(Not(b), 0x0F) == m
    requires 0 <= e < 8
    ensures Decode(b) == (var magnitude := DecodeTable[e] + Shl(m, e + 3); if sign != 0 then -magnitude else magnitude)
  {
  }

  /** CodeValue is the signed magnitude of the code's fields. */
  lemma CodeValueSteps(c: int, e: int, m: int)
    requires e == (c / 16) % 8 && m == c % 16
    ensures CodeValue(c) == (var magnitude := DecodeTable[e] + m * Pow2(e + 3); if c >= 128 then -magnitude else magnitude)
  {
  }

  /** The sign Encode extracts: `(x >> 8) & 0x80` is 0x80 exactly for negative samples. */
  lemma EncodeSignField(x: int)
    requires IsInt16(x)
    ensures And(Shr(x, 8), 0x80) == (if x < 0 then 128 else 0)
  {
    ShrEight(x);
    AndBit7(x / 256);
    SampleBit15(x);
  }

  lemma SampleBit15(x: int)
    requires IsInt16(x)
    ensures ((x / 256) / 128) % 2 == (if x < 0 then 1 else 0)
  {
  }

  /** The segment-table index Encode computes is the clipped magnitude's bits 7..14. */
  lemma EncodeIndexField(v: int)
    requires 0 <= v <= CLIP
    ensures And(Shr(v, 7), 0xFF) == v / 128
  {
    ShrSegment(v, 4);
    StepSize(4);
    AndSmall(v / 128);
  }

  /** `x & 0xFF` leaves a value that already fits in a byte. */
  lemma AndSmall(x: int)
    requires 0 <= x < 256
    ensures And(x, 0xFF) == x
  {
    AndLowMasks(x);
    SmallMod(x, 256);
  }

  /** A right shift by exponent + 3 divides by the segment's step. */
  lemma ShrSegment(v: int, e: int)
    requires 0 <= v < TWO_31 && 0 <= e < 8
    ensures Shr(v, e + 3) == v / Pow2(e + 3)
  {
    ShrBy(v, e + 3, Pow2(e + 3));
  }

  lemma EncodeMantissaField(v: int, e: int)
    requires 0 <= v <= CLIP && 0 <= e < 8
    ensures And(Shr(v, e + 3), 0x0F) == (v / Pow2(e + 3)) % 16
  {
    ShrSegment(v, e);
    AndLowMasks(v / Pow2(e + 3));
  }

  lemma ShlFour(e: int)
    requires 0 <= e < 8
    ensures Shl(e, 4) == 16 * e
  {
    ShlBy(e, 4, 16);
  }

  lemma SegmentRange(x: int)
    requires IsInt16(x)
    ensures BIAS <= Clipped(x) <= CLIP
    ensures 0 <= SegmentOf(x) < 8
  {
  }

  /** Encode in arithmetic: the complement of sign + 16 * segment + mantissa. */
  lemma EncodeFields(x: int)
    requires IsInt16(x)
    ensures Encode(x) == -Code(x) - 1
  {
    var sign := if x < 0 then 128 else 0;
    var v := Clipped(x);
    SegmentRange(x);
    var e := HighBit(v / 128);
    var m := (v / Pow2(e + 3)) % 16;
    EncodeUnfold(x, sign, v, e, m);
    PackFields(sign, e, m);
  }

  /** Encode's steps with their values: the sign bit, the clipped magnitude,
      the segment from the table and the mantissa. */
  lemma EncodeUnfold(x: int, sign: int, v: int, e: int, m: int)
    requires IsInt16(x)
    requires sign == (if x < 0 then 128 else 0) && v == Clipped(x)
    requires BIAS <= v <= CLIP && e == HighBit(v / 128) && m == (v / Pow2(e + 3)) % 16
    ensures Encode(x) == Pack(sign, e, m)
  {
    EncodeSignField(x);
    ExponentOfClipped(v);
    EncodeMantissaField(v, e);
    EncodeSteps(x, sign, v, e, m);
  }

  /** Encode is Pack of its intermediate values. */
  lemma EncodeSteps(x: int, sign: int, v: int, e: int, m: int)
    requires SignBit(x) == sign
    requires v == (var biased := (if sign != 0 then -x else x) + BIAS; if biased > CLIP then CLIP else biased)
    requires ExponentOf(v) == e && MantissaOf(v, e) == m
    ensures Encode(x) == Pack(sign, e, m)
  {
  }

  /** The table lookup finds the segment of a clipped magnitude. */
  lemma ExponentOfClipped(v: int)
    requires 0 <= v <= CLIP
    ensures ExponentOf(v) == HighBit(v / 128)
  {
    EncodeIndexField(v);
    EncodeTableIsHighBit(v / 128);
  }

  /** The complement of the three disjoint fields. */
  lemma PackFields(sign: int, e: int, m: int)
    requires sign == 0 || sign == 128
    requires 0 <= e < 8 && 0 <= m < 16
    ensures Pack(sign, e, m) == -(sign + 16 * e + m) - 1
  {
    ShlFour(e);
    OrFields(sign, e, m);
  }

  // ---------------------------------------------------------------------------
  // Segment arithmetic

  /** A code's magnitude, DecodeTable[e] + m * 2^(e+3), lies in segment e once
      biased: re-encoding it finds segment e and mantissa m again. */
  lemma SegmentOfMagnitude(e: int, m: int)
    requires 0 <= e < 8 && 0 <= m < 16
    ensures var magnitude := DecodeTable[e] + m * Pow2(e + 3);
      && 0 <= magnitude <= 32124
      && magnitude + BIAS <= CLIP
      && HighBit((magnitude + BIAS) / 128) == e
      && ((magnitude + BIAS) / Pow2(e + 3)) % 16 == m
      && (magnitude == 0 <==> e == 0 && m == 0)
  {
    StepSize(e);
    if e == 0 {
      SegmentOfMagnitude0(m);
    } else if e == 1 {
      SegmentOfMagnitude1(m);
    } else if e == 2 {
      SegmentOfMagnitude2(m);
    } else if e == 3 {
      SegmentOfMagnitude3(m);
    } else if e == 4 {
      SegmentOfMagnitude4(m);
    } else if e == 5 {
      SegmentOfMagnitude5(m);
    } else if e == 6 {
      SegmentOfMagnitude6(m);
    } else {
      SegmentOfMagnitude7(m);
    }
  }

  lemma SegmentOfMagnitude0(m: int)
    requires 0 <= m < 16
    ensures var magnitude := 0 + m * 8;
      && 0 <= magnitude <= 32124
      && HighBit((magnitude + BIAS) / 128) == 0
      && ((magnitude + BIAS) / 8) % 16 == m
      && (magnitude == 0 <==> m == 0)
  {
  }

  lemma SegmentOfMagnitude1(m: int)
    requires 0 <= m < 16
    ensures var magnitude := 132 + m * 16;
      && 0 <= magnitude <= 32124
      && HighBit((magnitude + BIAS) / 128) == 1
      && ((magnitude + BIAS) / 16) % 16 == m
      && magnitude != 0
  {
  }

  lemma SegmentOfMagnitude2(m: int)
    requires 0 <= m < 16
    ensures var magnitude := 396 + m * 32;
      && 0 <= magnitude <= 32124
      && HighBit((magnitude + BIAS) / 128) == 2
      && ((magnitude + BIAS) / 32) % 16 == m
      && magnitude != 0
  {
  }

  lemma SegmentOfMagnitude3(m: int)
    requires 0 <= m < 16
    ensures var magnitude := 924 + m * 64;
      && 0 <= magnitude <= 32124
      && HighBit((magnitude + BIAS) / 128) == 3
      && ((magnitude + BIAS) / 64) % 16 == m
      && magnitude != 0
  {
  }

  lemma SegmentOfMagnitude4(m: int)
    requires 0 <= m < 16
    ensures var magnitude := 1980 + m * 128;
      && 0 <= magnitude <= 32124
      && HighBit((magnitude + BIAS) / 128) == 4
      && ((magnitude + BIAS) / 128) % 16 == m
      && magnitude != 0
  {
  }

  lemma SegmentOfMagnitude5(m: int)
    requires 0 <= m < 16
    ensures var magnitude := 4092 + m * 256;
      && 0 <= magnitude <= 32124
      && HighBit((magnitude + BIAS) / 128) == 5
      && ((magnitude + BIAS) / 256) % 16 == m
      && magnitude != 0
  {
  }

  lemma SegmentOfMagnitude6(m: int)
    requires 0 <= m < 16
    ensures var magnitude := 8316 + m * 512;
      && 0 <= magnitude <= 32124
      && HighBit((magnitude + BIAS) / 128) == 6
      && ((magnitude + BIAS) / 512) % 16 == m
      && magnitude != 0
  {
  }

  lemma SegmentOfMagnitude7(m: int)
    requires 0 <= m < 16
    ensures var magnitude := 16764 + m * 1024;
      && 0 <= magnitude <= 32124
      && HighBit((magnitude + BIAS) / 128) == 7
      && ((magnitude + BIAS) / 1024) % 16 == m
      && magnitude != 0
  {
  }

  /** Encoding then decoding moves a biased magnitude v by at most half a step:
      the decoder returns the middle of the quantisation interval. */
  lemma QuantizeMagnitude(v: int)
    requires BIAS <= v <= CLIP
    ensures 0 <= HighBit(v / 128) < 8
    ensures var e := HighBit(v / 128);
      Abs(DecodeTable[e] + ((v / Pow2(e + 3)) % 16) * Pow2(e + 3) - (v - BIAS)) <= Pow2(e + 2)
  {
    var e := HighBit(v / 128);
    assert Pow2(2) == 4 && Pow2(3) == 8 && Pow2(4) == 16 && Pow2(5) == 32 && Pow2(6) == 64;
    assert Pow2(7) == 128 && Pow2(8) == 256 && Pow2(9) == 512 && Pow2(10) == 1024;
    if v < 256 {
      QuantizeMagnitude0(v);
    } else if v < 512 {
      QuantizeMagnitude1(v);
    } else if v < 1024 {
      QuantizeMagnitude2(v);
    } else if v < 2048 {
      QuantizeMagnitude3(v);
    } else if v < 4096 {
      QuantizeMagnitude4(v);
    } else if v < 8192 {
      QuantizeMagnitude5(v);
    } else if v < 16384 {
      QuantizeMagnitude6(v);
    } else {
      QuantizeMagnitude7(v);
    }
  }

  lemma QuantizeMagnitude0(v: int)
    requires 128 <= v <= 255 && BIAS <= v
    ensures HighBit(v / 128) == 0
    ensures Abs(0 + ((v / 8) % 16) * 8 - (v - BIAS)) <= 4
  {
  }

  lemma QuantizeMagnitude1(v: int)
    requires 256 <= v <= 511 && BIAS <= v
    ensures HighBit(v / 128) == 1
    ensures Abs(132 + ((v / 16) % 16) * 16 - (v - BIAS)) <= 8
  {
  }

  lemma QuantizeMagnitude2(v: int)
    requires 512 <= v <= 1023 && BIAS <= v
    ensures HighBit(v / 128) == 2
    ensures Abs(396 + ((v / 32) % 16) * 32 - (v - BIAS)) <= 16
  {
  }

  lemma QuantizeMagnitude3(v: int)
    requires 1024 <= v <= 2047 && BIAS <= v
    ensures HighBit(v / 128) == 3
    ensures Abs(924 + ((v / 64) % 16) * 64 - (v - BIAS)) <= 32
  {
  }

  lemma QuantizeMagnitude4(v: int)
    requires 2048 <= v <= 4095 && BIAS <= v
    ensures HighBit(v / 128) == 4
    ensures Abs(1980 + ((v / 128) % 16) * 128 - (v - BIAS)) <= 64
  {
  }

  lemma QuantizeMagnitude5(v: int)
    requires 4096 <= v <= 8191 && BIAS <= v
    ensures HighBit(v / 128) == 5
    ensures Abs(4092 + ((v / 256) % 16) * 256 - (v - BIAS)) <= 128
  {
  }

  lemma QuantizeMagnitude6(v: int)
    requires 8192 <= v <= 16383 && BIAS <= v
    ensures HighBit(v / 128) == 6
    ensures Abs(8316 + ((v / 512) % 16) * 512 - (v - BIAS)) <= 256
  {
  }

  lemma QuantizeMagnitude7(v: int)
    requires 16384 <= v <= 32635 && BIAS <= v
    ensures HighBit(v / 128) == 7
    ensures Abs(16764 + ((v / 1024) % 16) * 1024 - (v - BIAS)) <= 512
  {
  }

  /** A code assembled from its three fields gives them back. */
  lemma CodeFieldsOf(s: int, e: int, m: int)
    requires 0 <= s < 2 && 0 <= e < 8 && 0 <= m < 16
    ensures var c := 128 * s + 16 * e + m;
      c / 128 == s && (c / 16) % 8 == e && c % 16 == m
  {
  }

  // ---------------------------------------------------------------------------
  // Decoder properties

  /** Every byte decodes to a sample within ±32124, the largest G.711 magnitude. */
  lemma DecodeRange(b: int)
    requires IsByte(b)
    ensures -32124 <= Decode(b) <= 32124
    ensures IsInt16(Decode(b))
  {
    DecodeFields(b);
    SegmentOfMagnitude(((255 - b) / 16) % 8, (255 - b) % 16);
  }

  /** Bytes below 0x80 carry the negative samples, the others the non-negative ones;
      only the two zero codes 0x7F and 0xFF decode to 0. */
  lemma DecodeSign(b: int)
    requires IsByte(b)
    ensures b < 128 ==> Decode(b) <= 0
    ensures b >= 128 ==> Decode(b) >= 0
    ensures Decode(b) == 0 <==> b == 0x7F || b == 0xFF
  {
    DecodeFields(b);
    CodeValueSign(255 - b);
  }

  lemma CodeValueSign(c: int)
    requires 0 <= c < 256
    ensures c >= 128 ==> CodeValue(c) <= 0
    ensures c < 128 ==> CodeValue(c) >= 0
    ensures CodeValue(c) == 0 <==> c == 0 || c == 128
  {
    SegmentOfMagnitude((c / 16) % 8, c % 16);
    CodeLowBits(c);
  }

  lemma CodeLowBits(c: int)
    requires 0 <= c < 256
    ensures (c / 16) % 8 == 0 && c % 16 == 0 <==> c == 0 || c == 128
  {
  }

  /** The two silence codes and the two extreme codes. */
  lemma DecodeKnownValues()
    ensures Decode(0xFF) == 0 && Decode(0x7F) == 0
    ensures Decode(0x80) == 32124 && Decode(0x00) == -32124
  {
    DecodeSign(0xFF);
    DecodeSign(0x7F);
    DecodeFields(0x80);
    DecodeFields(0x00);
    CodeValueExtremes();
  }

  lemma CodeValueExtremes()
    ensures CodeValue(0x7F) == 32124 && CodeValue(0xFF) == -32124
  {
    CodeValueSteps(0x7F, 7, 15);
    CodeValueSteps(0xFF, 7, 15);
    assert Pow2(10) == 1024;
  }

  // ---------------------------------------------------------------------------
  // Encoder properties

  /** For every int16 sample Encode returns a complement in [-256, -1], and the
      byte sent is 255 minus the assembled code. */
  lemma EncodeRange(x: int)
    requires IsInt16(x)
    ensures -256 <= Encode(x) <= -1
    ensures EncodeByte(x) == 255 - Code(x)
    ensures IsByte(EncodeByte(x))
  {
    EncodeFields(x);
    CodeRange(x);
    ComplementByte(Encode(x), Code(x));
  }

  lemma ComplementByte(r: int, c: int)
    requires r == -c - 1 && 0 <= c < 256
    ensures -256 <= r <= -1 && ToUint8(r) == 255 - c
  {
  }

  lemma CodeRange(x: int)
    requires IsInt16(x)
    ensures 0 <= Code(x) < 256
    ensures Code(x) / 128 == (if x < 0 then 1 else 0)
    ensures (Code(x) / 16) % 8 == SegmentOf(x)
    ensures Code(x) % 16 == (Clipped(x) / Pow2(SegmentOf(x) + 3)) % 16
  {
    SegmentRange(x);
    CodeFieldsOf(if x < 0 then 1 else 0, SegmentOf(x), (Clipped(x) / Pow2(SegmentOf(x) + 3)) % 16);
  }

  /** Samples within 3 of zero encode to one of the two zero codes: 0xFF for
      the non-negative ones, 0x7F for the negative ones. */
  lemma EncodeSilence(x: int)
    requires -3 <= x <= 3
    ensures 0 <= x ==> EncodeByte(x) == 0xFF
    ensures x < 0 ==> EncodeByte(x) == 0x7F
  {
    EncodeRange(x);
    CodeNearZero(x);
  }

  lemma CodeNearZero(x: int)
    requires -3 <= x <= 3
    ensures Code(x) == (if x < 0 then 128 else 0)
  {
    StepSize(0);
  }

  /** The byte's top bit is clear exactly for negative samples. */
  lemma EncodeSign(x: int)
    requires IsInt16(x)
    ensures EncodeByte(x) < 128 <==> x < 0
  {
    EncodeRange(x);
    CodeRange(x);
  }

  /** Samples whose biased magnitude exceeds CLIP saturate to the extreme codes:
      0x80 when positive and 0x00 when negative. */
  lemma EncodeClip(x: int)
    requires IsInt16(x)
    requires Abs(x) + BIAS > CLIP
    ensures EncodeByte(x) == (if x < 0 then 0x00 else 0x80)
  {
    EncodeRange(x);
    CodeClip(x);
  }

  lemma CodeClip(x: int)
    requires IsInt16(x)
    requires Abs(x) + BIAS > CLIP
    ensures Code(x) == (if x < 0 then 255 else 127)
  {
    StepSize(7);
  }

  // ---------------------------------------------------------------------------
  // Round trips

  /** The code of a sample evaluates to the centre of the sample's quantisation
      interval, with the sample's sign: the segment base plus its mantissa steps. */
  lemma CodeValueOfCode(x: int)
    requires IsInt16(x)
    ensures var e := SegmentOf(x);
      var magnitude := DecodeTable[e] + ((Clipped(x) / Pow2(e + 3)) % 16) * Pow2(e + 3);
      CodeValue(Code(x)) == (if x < 0 then -magnitude else magnitude)
  {
    var s, e := if x < 0 then 1 else 0, SegmentOf(x);
    var m := (Clipped(x) / Pow2(e + 3)) % 16;
    SegmentRange(x);
    assert Code(x) == 128 * s + 16 * e + m;
    CodeValueFields(s, e, m);
  }

  /** Decoding the byte of a sample is evaluating its code. */
  lemma DecodeCode(x: int)
    requires IsInt16(x)
    ensures Decode(EncodeByte(x)) == CodeValue(Code(x))
  {
    EncodeRange(x);
    CodeRange(x);
    DecodeComplement(EncodeByte(x), Code(x));
  }

  lemma DecodeComplement(b: int, c: int)
    requires IsByte(b) && b == 255 - c
    ensures Decode(b) == CodeValue(c)
  {
    DecodeFields(b);
  }

  /** The value of a code given by its three fields. */
  lemma CodeValueFields(s: int, e: int, m: int)
    requires 0 <= s < 2 && 0 <= e < 8 && 0 <= m < 16
    ensures var magnitude := DecodeTable[e] + m * Pow2(e + 3);
      CodeValue(128 * s + 16 * e + m) == (if s == 1 then -magnitude else magnitude)
  {
    CodeFieldsOf(s, e, m);
  }

  /** Every byte except the negative-zero code 0x7F survives decode then encode;
      0x7F decodes to 0, which encodes to 0xFF. */
  lemma ByteRoundTrip(b: int)
    requires IsByte(b)
    ensures b != 0x7F ==> EncodeByte(Decode(b)) == b
    ensures b == 0x7F ==> EncodeByte(Decode(b)) == 0xFF
  {
    DecodeFields(b);
    CodeValueRoundTrip(255 - b);
    EncodeRange(Decode(b));
    if b == 0x7F {
      EncodeSilence(Decode(b));
    }
  }

  /** Re-encoding the value of a code c gives c back, except for c = 0x80
      (negative zero), whose value 0 is the value of code 0. */
  lemma CodeValueRoundTrip(c: int)
    requires 0 <= c < 256
    ensures IsInt16(CodeValue(c))
    ensures c != 128 ==> Code(CodeValue(c)) == c
    ensures c == 128 ==> CodeValue(c) == 0
  {
    var s, e, m := c / 128, (c / 16) % 8, c % 16;
    assert c == 128 * s + 16 * e + m;
    CodeValueFields(s, e, m);
    CodeOfValue(s, e, m);
  }

  /** Re-encoding the signed magnitude of (s, e, m) finds s, e and m again,
      unless it is negative zero. */
  lemma CodeOfValue(s: int, e: int, m: int)
    requires 0 <= s < 2 && 0 <= e < 8 && 0 <= m < 16
    ensures var magnitude := DecodeTable[e] + m * Pow2(e + 3);
      var x := if s == 1 then -magnitude else magnitude;
      && IsInt16(x)
      && (s == 1 && e == 0 && m == 0 ==> x == 0)
      && (!(s == 1 && e == 0 && m == 0) ==> Code(x) == 128 * s + 16 * e + m)
  {
    var magnitude := DecodeTable[e] + m * Pow2(e + 3);
    var x := if s == 1 then -magnitude else magnitude;
    SegmentOfMagnitude(e, m);
    if !(s == 1 && e == 0 && m == 0) {
      assert x < 0 <==> s == 1;
      assert Clipped(x) == magnitude + BIAS;
    }
  }

  /** For a sample inside the clipping range, the decoded byte is off by at most
      half the segment's 2^(e+3) step, 2^(e+2). */
  lemma Quantization(x: int)
    requires IsInt16(x)
    requires Abs(x) + BIAS <= CLIP
    ensures Abs(Decode(EncodeByte(x)) - x) <= Pow2(SegmentOf(x) + 2)
  {
    DecodeCode(x);
    CodeQuantization(x);
  }

  /** The code's value is within 2^(e+2) of an unclipped sample. */
  lemma CodeQuantization(x: int)
    requires IsInt16(x)
    requires Abs(x) + BIAS <= CLIP
    ensures Abs(CodeValue(Code(x)) - x) <= Pow2(SegmentOf(x) + 2)
  {
    CodeValueOfCode(x);
    QuantizeMagnitude(Clipped(x));
  }

  /** A clipped sample decodes to the extreme magnitude 32124 with its sign. */
  lemma ClippedDecode(x: int)
    requires IsInt16(x)
    requires Abs(x) + BIAS > CLIP
    ensures Decode(EncodeByte(x)) == (if x < 0 then -32124 else 32124)
  {
    EncodeClip(x);
    DecodeKnownValues();
  }
}
