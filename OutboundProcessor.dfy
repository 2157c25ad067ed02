/** The capture processor of public/call-service-client/outbound-audio-processor.js.

    Each render quantum converts the first input channel to int16 samples
    (`getSample16`, the expression of `Ieee.decode`) and posts them as a
    big-endian byte buffer of twice the length, tagged with a sequence number
    that counts the frames posted. */
module OutboundProcessor {
  import opened JsBits
  import Ieee

  /** A posted message: `{ buffer, sequenceNumber }`. */
  datatype PcmFrame = PcmFrame(buffer: seq<int>, sequenceNumber: int)

  /** `getHighOrderByte` */
  function HighOrderByte(sample16: int): int
  {
    And(Shr(sample16, 8), 0xFF)
  }

  /** `getLowOrderByte` */
  function LowOrderByte(sample16: int): int
  {
    And(sample16, 0xFF)
  }

  /** The int16 a receiver rebuilds from a big-endian byte pair. */
  function FromBigEndian(high: int, low: int): int
  {
    ToInt16(256 * high + low)
  }

  /** The two bytes are the big-endian two's-complement halves of the sample,
      so the receiver's reassembly gives the sample back. */
  lemma ByteSplit(sample16: int)
    requires IsInt16(sample16)
    ensures IsByte(HighOrderByte(sample16)) && IsByte(LowOrderByte(sample16))
    ensures 256 * HighOrderByte(sample16) + LowOrderByte(sample16) == sample16 % 65536
    ensures FromBigEndian(HighOrderByte(sample16), LowOrderByte(sample16)) == sample16
  {
    HighOrderByteValue(sample16);
    LowOrderByteValue(sample16);
    SplitArithmetic(sample16);
  }

  lemma HighOrderByteValue(sample16: int)
    requires IsInt16(sample16)
    ensures HighOrderByte(sample16) == (sample16 / 256) % 256
  {
    ShrEight(sample16);
    AndLowMasks(sample16 / 256);
  }

  lemma LowOrderByteValue(sample16: int)
    ensures LowOrderByte(sample16) == sample16 % 256
  {
    AndLowMasks(sample16);
  }

  lemma SplitArithmetic(s: int)
    requires IsInt16(s)
    ensures 256 * ((s / 256) % 256) + s % 256 == s % 65536
    ensures ToInt16(s % 65536) == s
  {
    var h := (s / 256) % 256;
    assert s / 256 == h || s / 256 == h - 256;
    if s / 256 == h {
      DivModUnique(s, 65536, 0, 256 * h + s % 256);
    } else {
      DivModUnique(s, 65536, -1, 256 * h + s % 256);
    }
  }

  /** The high bytes of the samples' int16 values, in sample order. */
  function HighBytes(samples32: seq<real>): (hi: seq<int>)
    ensures |hi| == |samples32|
  {
    seq(|samples32|, j requires 0 <= j < |samples32| => HighOrderByte(Ieee.Decode(samples32[j])))
  }

  /** The low bytes of the samples' int16 values, in sample order. */
  function LowBytes(samples32: seq<real>): (lo: seq<int>)
    ensures |lo| == |samples32|
  {
    seq(|samples32|, j requires 0 <= j < |samples32| => LowOrderByte(Ieee.Decode(samples32[j])))
  }

  /** hi[0], lo[0], hi[1], lo[1], ... */
  function Interleave(hi: seq<int>, lo: seq<int>): (r: seq<int>)
    requires |hi| == |lo|
    ensures |r| == 2 * |hi|
  {
    seq(2 * |hi|, k requires 0 <= k < 2 * |hi| => if k % 2 == 0 then hi[k / 2] else lo[k / 2])
  }

  /** Element 2i of an interleaving comes from the first sequence and element
      2i + 1 from the second. */
  lemma InterleavePair(hi: seq<int>, lo: seq<int>, i: int)
    requires |hi| == |lo| && 0 <= i < |hi|
    ensures Interleave(hi, lo)[2 * i] == hi[i] && Interleave(hi, lo)[2 * i + 1] == lo[i]
  {
    PairIndex(i);
  }

  lemma PairIndex(i: int)
    requires 0 <= i
    ensures (2 * i) % 2 == 0 && (2 * i) / 2 == i
    ensures (2 * i + 1) % 2 == 1 && (2 * i + 1) / 2 == i
  {
  }

  /** A sequence whose pairs are the elements of hi and lo is their interleaving. */
  lemma {:induction false} InterleaveOf(buffer: seq<int>, hi: seq<int>, lo: seq<int>)
    requires |hi| == |lo| && |buffer| == 2 * |hi|
    requires forall j | 0 <= j < |hi| :: buffer[2 * j] == hi[j] && buffer[2 * j + 1] == lo[j]
    ensures buffer == Interleave(hi, lo)
  {
    var expected := Interleave(hi, lo);
    forall k | 0 <= k < |buffer|
      ensures buffer[k] == expected[k]
    {
      var j := k / 2;
      if k % 2 == 0 {
        assert k == 2 * j;
      } else {
        assert k == 2 * j + 1;
      }
    }
  }

  /** The Uint8Array posted for one quantum: byte 2i is the high byte and
      byte 2i + 1 the low byte of sample i. */
  function BigEndianBytes(samples32: seq<real>): (buffer: seq<int>)
    ensures |buffer| == 2 * |samples32|
  {
    Interleave(HighBytes(samples32), LowBytes(samples32))
  }

  /** Every pair of the buffer reassembles to the sample it came from. */
  lemma FrameRoundTrip(samples32: seq<real>, i: int)
    requires 0 <= i < |samples32|
    ensures IsByte(BigEndianBytes(samples32)[2 * i]) && IsByte(BigEndianBytes(samples32)[2 * i + 1])
    ensures FromBigEndian(BigEndianBytes(samples32)[2 * i], BigEndianBytes(samples32)[2 * i + 1])
      == Ieee.Decode(samples32[i])
  {
    InterleavePair(HighBytes(samples32), LowBytes(samples32), i);
    ByteSplit(Ieee.Decode(samples32[i]));
  }

  /** The packing loop of `process`. */
  method PackFrame(samples32: seq<real>) returns (buffer: array<int>)
    ensures fresh(buffer)
    ensures buffer[..] == BigEndianBytes(samples32)
  {
    buffer := new int[|samples32| * 2];
    ghost var hi, lo := HighBytes(samples32), LowBytes(samples32);
    var sampleIndex := 0;
    while sampleIndex < |samples32|
      invariant 0 <= sampleIndex <= |samples32|
      invariant forall j | 0 <= j < sampleIndex :: buffer[2 * j] == hi[j] && buffer[2 * j + 1] == lo[j]
    {
      var byteIndex := sampleIndex * 2;
      var sample16 := Ieee.Decode(samples32[sampleIndex]);
      buffer[byteIndex] := HighOrderByte(sample16);
      buffer[byteIndex + 1] := LowOrderByte(sample16);
      sampleIndex := sampleIndex + 1;
    }
    InterleaveOf(buffer[..], hi, lo);
  }

  class OutboundAudioProcessor {
    /** `_sequenceNumber` */
    var sequenceNumber: int
    /** The frames posted on the port so far. */
    var posted: seq<PcmFrame>

    /** Frame i carries sequence number i, and the counter is the next one. */
    predicate Valid()
      reads this
    {
      && sequenceNumber == |posted|
      && forall i | 0 <= i < |posted| :: posted[i].sequenceNumber == i
    }

    constructor ()
      ensures Valid()
      ensures sequenceNumber == 0 && posted == []
    {
      sequenceNumber := 0;
      posted := [];
    }

    /** `process`: with a first input channel, posts its samples as one
        big-endian frame and advances the counter; without one, does nothing.
        `inputs[0][0]` is read unguarded, so a first input is required. */
    method Process(inputs: seq<seq<seq<real>>>) returns (keepAlive: bool)
      requires Valid()
      requires |inputs| > 0
      modifies this
      ensures Valid()
      ensures keepAlive
      ensures |inputs[0]| == 0 ==> posted == old(posted) && sequenceNumber == old(sequenceNumber)
      ensures |inputs[0]| > 0 ==>
        && posted == old(posted) + [PcmFrame(BigEndianBytes(inputs[0][0]), old(sequenceNumber))]
        && sequenceNumber == old(sequenceNumber) + 1
    {
      if |inputs[0]| == 0 {
        return true;
      }
      var samples32 := inputs[0][0];
      var buffer := PackFrame(samples32);
      posted := posted + [PcmFrame(buffer[..], sequenceNumber)];
      sequenceNumber := sequenceNumber + 1;
      keepAlive := true;
    }
  }
}
