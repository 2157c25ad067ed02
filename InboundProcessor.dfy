/** The playback processor of public/call-service-client/inbound-audio-processor.js.

    The file carries its own copy of the µ-law decoder (`decodeSample` over its
    own `decodeTable`) and its own `getSample32`, which is the expression of
    `Ieee.encode`.  Its `process` writes the drained quantum straight into the
    first channel of the first output and touches no other channel. */
module InboundProcessor {
  import opened JsBits
  import Mulaw
  import Ieee
  import opened SampleQueue

  const DecodeTable: seq<int> := [0, 132, 396, 924, 1980, 4092, 8316, 16764]

  /** `decodeSample` */
  function DecodeSample(muLawSample: int): int
  {
    var inverted := Not(muLawSample);
    var sign := And(inverted, 0x80);
    var exponent := And(Shr(inverted, 4), 0x07);
    var mantissa := And(inverted, 0x0F);
    var sample := DecodeTable[exponent] + Shl(mantissa, exponent + 3);
    if sign != 0 then -sample else sample
  }

  /** The queued sample for one byte. */
  function Sample32(muLawSample: Byte): real
  {
    Ieee.Encode(DecodeSample(muLawSample))
  }

  /** The copy agrees with `Mulaw.decode` on every input, so it inherits the
      codec's range, sign and silence properties. */
  lemma DecodeSampleAgrees(muLawSample: int)
    ensures DecodeSample(muLawSample) == Mulaw.Decode(muLawSample)
  {
    assert DecodeTable == Mulaw.DecodeTable;
  }

  /** Every byte decodes within ±32124, and 0xFF is silence. */
  lemma DecodeSampleRange(muLawSample: Byte)
    ensures -32124 <= DecodeSample(muLawSample) <= 32124
    ensures muLawSample == 0xFF ==> DecodeSample(muLawSample) == 0
  {
    DecodeSampleAgrees(muLawSample);
    Mulaw.DecodeRange(muLawSample);
    Mulaw.DecodeSign(muLawSample);
  }

  /** A queued sample is the codec's playback value: it lies in [-1, 1] and
      converts back to the byte's PCM value. */
  lemma Sample32Range(muLawSample: Byte)
    ensures Sample32(muLawSample) == Ieee.Encode(Mulaw.Decode(muLawSample))
    ensures -1.0 <= Sample32(muLawSample) <= 1.0
    ensures Ieee.Decode(Sample32(muLawSample)) == Mulaw.Decode(muLawSample)
  {
    DecodeSampleAgrees(muLawSample);
    Mulaw.DecodeRange(muLawSample);
    Ieee.EncodeRange(Mulaw.Decode(muLawSample));
    Ieee.DecodeEncode(Mulaw.Decode(muLawSample));
  }

  class InboundAudioProcessor {
    /** `_queue`: received samples not yet played. */
    var queue: seq<real>

    constructor ()
      ensures queue == []
    {
      queue := [];
    }

    /** `handleMessage`: appends `bytes.length` samples, in byte order. */
    method HandleMessage(bytes: seq<Byte>)
      modifies this
      ensures queue == old(queue) + seq(|bytes|, i requires 0 <= i < |bytes| => Sample32(bytes[i]))
    {
      var sampleCount := |bytes|;
      var sampleIndex := 0;
      while sampleIndex < sampleCount
        invariant 0 <= sampleIndex <= sampleCount
        invariant queue == old(queue) + seq(sampleIndex, i requires 0 <= i < sampleIndex => Sample32(bytes[i]))
      {
        var sample16 := DecodeSample(bytes[sampleIndex]);
        var sample32 := Ieee.Encode(sample16);
        queue := queue + [sample32];
        sampleIndex := sampleIndex + 1;
      }
    }

    /** `process`: writes N = `output[0].length` drained samples into
        `outputs[0][0]`.  `outputs[0][0]` is read unguarded, so a first output
        with a first channel is required. */
    method Process(outputs: seq<seq<array<real>>>) returns (keepAlive: bool)
      requires |outputs| > 0 && |outputs[0]| > 0
      modifies this, outputs[0][0]
      ensures keepAlive
      ensures outputs[0][0][..] == Drained(old(queue), outputs[0][0].Length)
      ensures queue == Remaining(old(queue), outputs[0][0].Length)
    {
      var output := outputs[0];
      var channel := output[0];
      var requestedSampleCount := channel.Length;
      var i := 0;
      while i < requestedSampleCount
        invariant 0 <= i <= requestedSampleCount
        invariant queue == old(queue)[Taken(old(queue), i)..]
        invariant forall j | 0 <= j < i :: channel[j] == Drained(old(queue), requestedSampleCount)[j]
      {
        if |queue| > 0 {
          channel[i] := queue[0];
          queue := queue[1..];
        } else {
          channel[i] := 0.0;
        }
        i := i + 1;
      }
      keepAlive := true;
    }
  }
}
