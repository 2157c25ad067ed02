/** The audio worklet of src/audio/SoftPhoneAudioWorklet.ts.

    Inbound µ-law audio arrives on the message port and is queued as float
    samples; each render quantum plays the front of the queue on every output
    channel and, when a microphone channel is present, encodes it (with a
    per-sample mute gate) into one outbound µ-law frame posted back on the port.

    The Base64 text of a payload is left out: a message carries its decoded
    bytes, and a posted frame carries the bytes it would Base64-encode. */
module AudioWorklet {
  import opened JsBits
  import Mulaw
  import Ieee
  import opened SampleQueue

  /** A message posted on the port: type OutboundAudio, a sequence number and
      the µ-law bytes of one quantum of microphone input. */
  datatype OutboundAudio = OutboundAudio(sequenceNumber: int, samples8: seq<int>)

  /** A queued playback sample: µ-law byte to PCM to float. */
  function Playback(sample8: Byte): real
  {
    Ieee.Encode(Mulaw.Decode(sample8))
  }

  /** The samples `handleMessage` queues for one payload, in byte order. */
  function PlaybackSamples(samples8: seq<Byte>): (samples: seq<real>)
    ensures |samples| == |samples8|
  {
    seq(|samples8|, i requires 0 <= i < |samples8| => Playback(samples8[i]))
  }

  /** The mute value of sample i: `param[0]` for a constant parameter, else
      `param[i]`; a missing entry is undefined, which is not 1. */
  predicate IsMuted(muted: seq<real>, i: int)
  {
    if |muted| == 1 then muted[0] == 1.0 else 0 <= i < |muted| && muted[i] == 1.0
  }

  /** The µ-law byte captured for sample i of the input channel. */
  function CaptureByte(channel: seq<real>, muted: seq<real>, i: int): int
    requires 0 <= i < |channel|
  {
    Mulaw.EncodeByte(CaptureSample16(channel, muted, i))
  }

  /** The PCM value captured for sample i: 0 where the mute gate is 1. */
  function CaptureSample16(channel: seq<real>, muted: seq<real>, i: int): int
    requires 0 <= i < |channel|
  {
    if IsMuted(muted, i) then 0 else Ieee.Decode(channel[i])
  }

  /** The bytes of one outbound frame: one per input sample. */
  function CapturedBytes(channel: seq<real>, muted: seq<real>): (bytes: seq<int>)
    ensures |bytes| == |channel|
  {
    seq(|channel|, i requires 0 <= i < |channel| => CaptureByte(channel, muted, i))
  }

  /** Every queued sample is the float image of an int16 sample and lies in [-1, 1]. */
  lemma PlaybackRange(sample8: Byte)
    ensures -1.0 <= Playback(sample8) <= 1.0
    ensures Ieee.Decode(Playback(sample8)) == Mulaw.Decode(sample8)
  {
    Mulaw.DecodeRange(sample8);
    Ieee.EncodeRange(Mulaw.Decode(sample8));
    Ieee.DecodeEncode(Mulaw.Decode(sample8));
  }

  /** The two silence codes are queued as 0. */
  lemma PlaybackSilence()
    ensures Playback(0xFF) == 0.0 && Playback(0x7F) == 0.0
  {
    Mulaw.DecodeKnownValues();
  }

  /** A captured frame holds bytes; a muted sample is sent as the silence code
      0xFF and an unmuted one as the µ-law code of its PCM value. */
  lemma CaptureBytes(channel: seq<real>, muted: seq<real>, i: int)
    requires 0 <= i < |channel|
    ensures IsByte(CaptureByte(channel, muted, i))
    ensures IsMuted(muted, i) ==> CaptureByte(channel, muted, i) == 0xFF
    ensures !IsMuted(muted, i) ==> CaptureByte(channel, muted, i) == Mulaw.EncodeByte(Ieee.Decode(channel[i]))
  {
    var sample16 := CaptureSample16(channel, muted, i);
    Mulaw.EncodeRange(sample16);
    if IsMuted(muted, i) {
      Mulaw.EncodeSilence(sample16);
    }
  }

  /** A frame of in-range input samples, sent unmuted, decodes back to each
      sample's PCM value within half a quantisation step (unless clipped). */
  lemma CaptureQuantization(channel: seq<real>, muted: seq<real>, i: int)
    requires 0 <= i < |channel| && !IsMuted(muted, i)
    requires Mulaw.Abs(Ieee.Decode(channel[i])) + Mulaw.BIAS <= Mulaw.CLIP
    ensures var x := Ieee.Decode(channel[i]);
      Mulaw.Abs(Mulaw.Decode(CaptureByte(channel, muted, i)) - x) <= Pow2(Mulaw.SegmentOf(x) + 2)
  {
    Mulaw.Quantization(Ieee.Decode(channel[i]));
  }

  /** Entry i of the captured frame is the µ-law byte of sample i's PCM value. */
  lemma CaptureEntry(channel: seq<real>, muted: seq<real>, i: int, frame: seq<int>, encoded: int)
    requires 0 <= i < |channel| && frame == CapturedBytes(channel, muted)
    requires encoded == Mulaw.EncodeByte(CaptureSample16(channel, muted, i))
    ensures frame[i] == encoded
  {
  }

  /** Agreeing on a prefix and on the next element is agreeing on the longer prefix. */
  lemma PrefixExtend(a: seq<int>, b: seq<int>, i: int)
    requires 0 <= i < |a| && i < |b|
    requires a[..i] == b[..i] && a[i] == b[i]
    ensures a[..i + 1] == b[..i + 1]
  {
    assert a[..i + 1] == a[..i] + [a[i]];
    assert b[..i + 1] == b[..i] + [b[i]];
  }

  /** Sequences of one length that agree on their whole prefix are equal. */
  lemma WholePrefix(a: seq<int>, b: seq<int>)
    requires |a| == |b| && a[..|a|] == b[..|b|]
    ensures a == b
  {
    assert a == a[..|a|] && b == b[..|b|];
  }

  /** The capture loop: encodes each input sample, or silence where the mute
      gate is 1, into a new Uint8Array. */
  method EncodeFrame(inputChannel: seq<real>, muted: seq<real>) returns (inputWaveBuffer: array<int>)
    ensures fresh(inputWaveBuffer)
    ensures inputWaveBuffer[..] == CapturedBytes(inputChannel, muted)
  {
    inputWaveBuffer := new int[|inputChannel|];
    ghost var frame := CapturedBytes(inputChannel, muted);
    var sampleIndex := 0;
    while sampleIndex < |inputChannel|
      invariant 0 <= sampleIndex <= |inputChannel|
      invariant inputWaveBuffer[..sampleIndex] == frame[..sampleIndex]
    {
      var sample16 := CaptureSample16(inputChannel, muted, sampleIndex);
      var encoded := Mulaw.EncodeByte(sample16);
      CaptureEntry(inputChannel, muted, sampleIndex, frame, encoded);
      inputWaveBuffer[sampleIndex] := encoded;
      PrefixExtend(inputWaveBuffer[..], frame, sampleIndex);
      sampleIndex := sampleIndex + 1;
    }
    WholePrefix(inputWaveBuffer[..], frame);
  }

  class SoftPhoneAudioWorklet {
    /** `_queue`: received samples not yet played. */
    var queue: seq<real>
    /** `_sequenceNumber`: the number the next outbound frame carries. */
    var sequenceNumber: int
    /** The frames posted on the port so far. */
    var posted: seq<OutboundAudio>

    /** Each posted frame carries its position in the stream, and the counter
        is the number of frames posted. */
    predicate Valid()
      reads this
    {
      && sequenceNumber == |posted|
      && forall i | 0 <= i < |posted| :: posted[i].sequenceNumber == i
    }

    constructor ()
      ensures Valid()
      ensures queue == [] && sequenceNumber == 0 && posted == []
    {
      queue := [];
      sequenceNumber := 0;
      posted := [];
    }

    /** `handleMessage`: decodes the payload's µ-law bytes and appends the
        resulting samples to the queue, in byte order. */
    method HandleMessage(samples8: seq<Byte>)
      modifies this
      ensures queue == old(queue) + PlaybackSamples(samples8)
      ensures sequenceNumber == old(sequenceNumber) && posted == old(posted)
    {
      var sampleIndex := 0;
      while sampleIndex < |samples8|
        invariant 0 <= sampleIndex <= |samples8|
        invariant queue == old(queue) + PlaybackSamples(samples8[..sampleIndex])
        invariant sequenceNumber == old(sequenceNumber) && posted == old(posted)
      {
        var sample16 := Mulaw.Decode(samples8[sampleIndex]);
        var sample32 := Ieee.Encode(sample16);
        queue := queue + [sample32];
        assert samples8[..sampleIndex + 1] == samples8[..sampleIndex] + [samples8[sampleIndex]];
        sampleIndex := sampleIndex + 1;
      }
      assert samples8[..sampleIndex] == samples8;
    }

    /** `process`: plays one quantum and captures one frame.

        Playback happens only when there is a first output device with a
        first channel, whose length N is the quantum; capture happens only
        when there is a first input device with a first channel. */
    method Process(inputs: seq<seq<seq<real>>>, outputs: seq<seq<array<real>>>, muted: seq<real>)
        returns (keepAlive: bool)
      requires Valid()
      requires |outputs| > 0 && |outputs[0]| > 0 ==>
        forall d, c | 0 <= d < |outputs| && 0 <= c < |outputs[d]| :: outputs[d][c].Length == outputs[0][0].Length
      modifies this, Channels(outputs)
      ensures Valid()
      ensures keepAlive
      ensures |outputs| > 0 && |outputs[0]| > 0 ==>
        && queue == Remaining(old(queue), outputs[0][0].Length)
        && forall d, c | 0 <= d < |outputs| && 0 <= c < |outputs[d]| ::
             outputs[d][c][..] == Drained(old(queue), outputs[0][0].Length)
      ensures !(|outputs| > 0 && |outputs[0]| > 0) ==>
        && queue == old(queue)
        && forall d, c | 0 <= d < |outputs| && 0 <= c < |outputs[d]| :: outputs[d][c][..] == old(outputs[d][c][..])
      ensures |inputs| > 0 && |inputs[0]| > 0 ==>
        && posted == old(posted) + [OutboundAudio(old(sequenceNumber), CapturedBytes(inputs[0][0], muted))]
        && sequenceNumber == old(sequenceNumber) + 1
      ensures !(|inputs| > 0 && |inputs[0]| > 0) ==>
        posted == old(posted) && sequenceNumber == old(sequenceNumber)
    {
      if |outputs| > 0 && |outputs[0]| > 0 {
        var n := outputs[0][0].Length;
        var outputWaveBuffer, rest := DrainQuantum(queue, n);
        queue := rest;
        Broadcast(outputWaveBuffer, outputs);
      }

      if |inputs| > 0 && |inputs[0]| > 0 {
        var inputWaveBuffer := EncodeFrame(inputs[0][0], muted);
        posted := posted + [OutboundAudio(sequenceNumber, inputWaveBuffer[..])];
        sequenceNumber := sequenceNumber + 1;
      }

      keepAlive := true;
    }
  }
}
