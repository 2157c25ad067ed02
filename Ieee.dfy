/** The float/int16 sample conversions of src/audio/codecs/Ieee.ts (also written
    out as `getSample32` and `getSample16` in the public processors).

    JavaScript numbers are modelled as exact reals: the rounding of a product
    to double precision and of a stored sample to single precision is not
    modelled.  A store into an Int16Array truncates toward zero and wraps modulo
    2^16, which ToInt16 writes out. */
module Ieee {
  import opened JsBits

  /** `Ieee.encode`: a 16-bit PCM sample to a float sample. */
  function Encode(sample16: int): real
  {
    if sample16 > 0 then sample16 as real / 32767.0 else sample16 as real / 32768.0
  }

  /** ECMAScript ToIntegerOrInfinity on a finite number: truncation toward zero. */
  function Trunc(r: real): (t: int)
    ensures r >= 0.0 ==> 0.0 <= t as real <= r < t as real + 1.0
    ensures r < 0.0 ==> t as real - 1.0 < r <= t as real <= 0.0
  {
    if r >= 0.0 then r.Floor else -((-r).Floor)
  }

  /** `Ieee.decode`: a float sample to a 16-bit PCM sample, through an Int16Array store. */
  function Decode(sample32: real): int
  {
    ToInt16(Trunc(if sample32 > 0.0 then sample32 * 32767.0 else sample32 * 32768.0))
  }

  /** Every int16 sample becomes a float in [-1, 1] with the same sign. */
  lemma EncodeRange(sample16: int)
    requires IsInt16(sample16)
    ensures -1.0 <= Encode(sample16) <= 1.0
    ensures Encode(sample16) > 0.0 <==> sample16 > 0
    ensures Encode(sample16) == 0.0 <==> sample16 == 0
  {
  }

  /** On exact reals the two conversions are inverse on int16. */
  lemma DecodeEncode(sample16: int)
    requires IsInt16(sample16)
    ensures Decode(Encode(sample16)) == sample16
  {
    var f := Encode(sample16);
    if sample16 > 0 {
      assert f * 32767.0 == sample16 as real;
    } else {
      assert f * 32768.0 == sample16 as real;
    }
  }

  /** Inside [-1, 1] the product fits in int16, so the store does not wrap;
      outside it the store wraps modulo 2^16 instead of saturating. */
  lemma DecodeInRange(sample32: real)
    requires -1.0 <= sample32 <= 1.0
    ensures Decode(sample32) == Trunc(if sample32 > 0.0 then sample32 * 32767.0 else sample32 * 32768.0)
    ensures sample32 >= 0.0 ==> Decode(sample32) >= 0
    ensures sample32 <= 0.0 ==> Decode(sample32) <= 0
  {
    var p := if sample32 > 0.0 then sample32 * 32767.0 else sample32 * 32768.0;
    assert -32768.0 <= p <= 32767.0;
  }

  /** For every sample the store keeps the int16 congruent to the truncated
      product modulo 2^16, so a product outside the int16 range wraps rather
      than saturating: two over full scale becomes -2, not 32767. */
  lemma DecodeWraps(sample32: real)
    ensures var t := Trunc(if sample32 > 0.0 then sample32 * 32767.0 else sample32 * 32768.0);
      IsInt16(Decode(sample32)) && (Decode(sample32) - t) % 65536 == 0
    ensures Decode(2.0) == -2
  {
    assert Trunc(2.0 * 32767.0) == 65534;
  }
}
