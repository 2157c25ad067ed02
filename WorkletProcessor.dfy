/** The playback-only processor of src/audio/SoftphoneAudioWorkletProcessor.ts.

    Its message handler converts each decoded PCM sample with `Ieee.decode`, the
    float-to-int16 direction, where the comment beside it and the later worklet
    use `Ieee.encode`.  QueuedAsWritten models the line as written and
    QueuedSampleOutOfRange exhibits a byte it turns into a sample far outside
    [-1, 1]; the class queues the intended AudioWorklet.Playback samples. */
module WorkletProcessor {
  import opened JsBits
  import Mulaw
  import Ieee
  import opened SampleQueue
  import opened AudioWorklet

  /** The queued value as the handler computes it: `Ieee.decode(Mulaw.decode(b))`. */
  function QueuedAsWritten(sample8: Byte): real
  {
    Ieee.Decode(Mulaw.Decode(sample8) as real) as real
  }

  /** Byte 0xFE decodes to PCM 8; `Ieee.decode(8)` stores 8 * 32767 = 262136
      into an Int16Array, which wraps to -8, so -8 is queued for playback where
      8 / 32767 was meant. */
  lemma QueuedSampleOutOfRange()
    ensures Mulaw.Decode(0xFE) == 8
    ensures QueuedAsWritten(0xFE) == -8.0
    ensures Playback(0xFE) == 8.0 / 32767.0
    ensures !(-1.0 <= QueuedAsWritten(0xFE) <= 1.0)
  {
    DecodeFE();
    WrapEight();
  }

  lemma DecodeFE()
    ensures Mulaw.Decode(0xFE) == 8
  {
    Mulaw.DecodeFields(0xFE);
    CodeOne();
  }

  lemma CodeOne()
    ensures Mulaw.CodeValue(1) == 8
  {
    Mulaw.StepSize(0);
  }

  lemma WrapEight()
    ensures Ieee.Decode(8.0) == -8
  {
    assert Ieee.Trunc(8.0 * 32767.0) == 262136;
  }

  /** The intended conversion keeps every queued sample in [-1, 1] and preserves
      the PCM value exactly. */
  lemma QueuedSampleCorrected(sample8: Byte)
    ensures -1.0 <= Playback(sample8) <= 1.0
    ensures Ieee.Decode(Playback(sample8)) == Mulaw.Decode(sample8)
  {
    PlaybackRange(sample8);
  }

  class SoftPhoneAudioWorkletProcessor {
    /** `_queue`: received samples not yet played. */
    var queue: seq<real>

    constructor ()
      ensures queue == []
    {
      queue := [];
    }

    /** `handleMessage`: appends one sample per byte of the payload, in order. */
    method HandleMessage(samples8: seq<Byte>)
      modifies this
      ensures queue == old(queue) + PlaybackSamples(samples8)
    {
      var sampleIndex := 0;
      while sampleIndex < |samples8|
        invariant 0 <= sampleIndex <= |samples8|
        invariant queue == old(queue) + PlaybackSamples(samples8[..sampleIndex])
      {
        var sample16 := Mulaw.Decode(samples8[sampleIndex]);
        var sample32 := Ieee.Encode(sample16);
        queue := queue + [sample32];
        assert samples8[..sampleIndex + 1] == samples8[..sampleIndex] + [samples8[sampleIndex]];
        sampleIndex := sampleIndex + 1;
      }
      assert samples8[..sampleIndex] == samples8;
    }

    /** `process`: reads a quantum of N = `outputs[0][0].length` samples off the
        queue and writes it to every channel of every output.  The source reads
        `outputs[0][0]` unguarded, so a first output with a first channel is
        required. */
    method Process(inputs: seq<seq<seq<real>>>, outputs: seq<seq<array<real>>>) returns (keepAlive: bool)
      requires |outputs| > 0 && |outputs[0]| > 0
      requires forall d, c | 0 <= d < |outputs| && 0 <= c < |outputs[d]| :: outputs[d][c].Length == outputs[0][0].Length
      modifies this, Channels(outputs)
      ensures keepAlive
      ensures queue == Remaining(old(queue), outputs[0][0].Length)
      ensures forall d, c | 0 <= d < |outputs| && 0 <= c < |outputs[d]| ::
        outputs[d][c][..] == Drained(old(queue), outputs[0][0].Length)
    {
      var audioBuffer, rest := DrainQuantum(queue, outputs[0][0].Length);
      queue := rest;
      Broadcast(audioBuffer, outputs);
      keepAlive := true;
    }
  }
}
