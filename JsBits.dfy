/** ECMAScript integer semantics used by the codec and the audio processors.

    JavaScript numbers that go through a bitwise operator are first converted
    with ToInt32 (or ToUint32), the operation works on the 32-bit two's-complement
    pattern, and the result is read back as a signed 32-bit integer.  Stores into
    typed arrays convert with ToUint8 / ToInt16.  Every operator here is written
    out on unbounded integers; the lemmas relate the ones the codec uses to plain
    arithmetic. */
module JsBits {

  const TWO_31: int := 0x8000_0000
  const TWO_32: int := 0x1_0000_0000

  function Pow2(n: nat): (r: nat)
    ensures r >= 1
  {
    if n == 0 then 1 else 2 * Pow2(n - 1)
  }

  predicate IsInt16(x: int) { -32768 <= x <= 32767 }

  predicate IsByte(x: int) { 0 <= x <= 255 }

  /** An element of a Uint8Array. */
  type Byte = b: int | 0 <= b < 256

  /** ToUint32 of an integral Number. */
  function ToUint32(x: int): int { x % TWO_32 }

  /** ToInt32 of an integral Number. */
  function ToInt32(x: int): (r: int)
    ensures -TWO_31 <= r < TWO_31
    ensures -TWO_31 <= x < TWO_31 ==> r == x
  {
    (x + TWO_31) % TWO_32 - TWO_31
  }

  /** The conversion performed by a store into a Uint8Array. */
  function ToUint8(x: int): int { x % 256 }

  /** The conversion performed by a store into an Int16Array. */
  function ToInt16(x: int): (r: int)
    ensures IsInt16(r)
    ensures IsInt16(x) ==> r == x
    ensures (r - x) % 65536 == 0
  {
    var u := x % 65536;
    if u >= 32768 then u - 65536 else u
  }

  /** Bitwise and of two non-negative bit patterns. */
  function AndBits(a: nat, b: nat): (r: nat)
    ensures r <= a && r <= b
    decreases a
  {
    if a == 0 || b == 0 then 0
    else 2 * AndBits(a / 2, b / 2) + (if a % 2 == 1 && b % 2 == 1 then 1 else 0)
  }

  /** Bitwise or of two non-negative bit patterns. */
  function OrBits(a: nat, b: nat): (r: nat)
    ensures r <= a + b
    decreases a
  {
    if a == 0 then b
    else if b == 0 then a
    else 2 * OrBits(a / 2, b / 2) + (if a % 2 == 1 || b % 2 == 1 then 1 else 0)
  }

  /** `x & y` */
  function And(x: int, y: int): (r: int)
    ensures 0 <= y < TWO_31 ==> 0 <= r <= y
  {
    ToInt32(AndBits(ToUint32(x), ToUint32(y)))
  }

  /** `x | y` */
  function Or(x: int, y: int): int
  {
    ToInt32(OrBits(ToUint32(x), ToUint32(y)))
  }

  /** `~x` */
  function Not(x: int): int
  {
    -ToInt32(x) - 1
  }

  /** `x >> n`, the sign-propagating right shift. */
  function Shr(x: int, n: int): int
  {
    ToInt32(x) / Pow2(ToUint32(n) % 32)
  }

  /** `x << n` */
  function Shl(x: int, n: int): int
  {
    ToInt32(ToInt32(x) * Pow2(ToUint32(n) % 32))
  }

  // ---------------------------------------------------------------------------
  // Arithmetic facts

  lemma {:induction false} Pow2Monotone(m: nat, n: nat)
    requires m <= n
    ensures Pow2(m) <= Pow2(n)
  {
    if m < n {
      Pow2Monotone(m, n - 1);
    }
  }

  /** Splitting off the lowest bit: a = 2 * (a / 2) + a % 2, one level up. */
  lemma HalveDivMod(a: nat, p: nat, d: nat)
    requires p >= 1 && d == 2 * p
    ensures a / d == (a / 2) / p
    ensures a % d == 2 * ((a / 2) % p) + a % 2
  {
    var q, r := a / 2, a % 2;
    var t, u := q / p, q % p;
    assert a == 2 * p * t + (2 * u + r);
    assert 0 <= 2 * u + r < 2 * p;
    DivModUnique(a, 2 * p, t, 2 * u + r);
  }

  lemma DivModUnique(a: int, d: int, q: int, r: int)
    requires d >= 1 && 0 <= r < d && a == d * q + r
    ensures a / d == q && a % d == r
  {
    var q', r' := a / d, a % d;
    assert a == d * q' + r';
    if q > q' {
      MulAtLeast(d, q - q');
    } else if q < q' {
      MulAtLeast(d, q' - q);
    }
  }

  lemma {:induction false} MulAtLeast(d: int, k: int)
    requires d >= 1 && k >= 1
    ensures d * k >= d
  {
    if k > 1 {
      MulAtLeast(d, k - 1);
      assert d * k == d * (k - 1) + d;
    }
  }

  // ---------------------------------------------------------------------------
  // Bit-pattern facts

  /** One step of AndBits against a mask 2c + 1: the low bit of a is kept. */
  lemma AndBitsOddStep(a: nat, b: nat, c: nat)
    requires a != 0 && b == 2 * c + 1
    ensures AndBits(a, b) == 2 * AndBits(a / 2, c) + a % 2
  {
    assert b / 2 == c && b % 2 == 1;
  }

  /** One step of AndBits against an even mask 2c: the low bit of a is dropped. */
  lemma AndBitsEvenStep(a: nat, b: nat, c: nat)
    requires a != 0 && b == 2 * c && c >= 1
    ensures AndBits(a, b) == 2 * AndBits(a / 2, c)
  {
    assert b / 2 == c && b % 2 == 0;
  }

  /** The k low bits of a, peeled off one halving at a time. */
  function LowBits(a: nat, k: nat): nat
  {
    if k == 0 then 0 else 2 * LowBits(a / 2, k - 1) + a % 2
  }

  /** Masking with 2^k - 1 keeps the k low bits. */
  lemma AndLowMask(a: nat, k: nat)
    ensures AndBits(a, Pow2(k) - 1) == a % Pow2(k)
  {
    AndLowBits(a, k);
    LowBitsMod(a, k);
  }

  lemma {:induction false} AndLowBits(a: nat, k: nat)
    ensures AndBits(a, Pow2(k) - 1) == LowBits(a, k)
  {
    if k == 0 {
      assert Pow2(0) == 1;
    } else if a == 0 {
      AndLowBits(0, k - 1);
    } else {
      AndLowBits(a / 2, k - 1);
      AndLowBitsStep(a, k);
    }
  }

  lemma AndLowBitsStep(a: nat, k: nat)
    requires a != 0 && k > 0
    requires AndBits(a / 2, Pow2(k - 1) - 1) == LowBits(a / 2, k - 1)
    ensures AndBits(a, Pow2(k) - 1) == LowBits(a, k)
  {
    Pow2Step(k);
    AndBitsOddStep(a, Pow2(k) - 1, Pow2(k - 1) - 1);
  }

  lemma {:induction false} LowBitsMod(a: nat, k: nat)
    ensures LowBits(a, k) == a % Pow2(k)
  {
    if k == 0 {
      assert Pow2(0) == 1;
    } else {
      Pow2Step(k);
      LowBitsMod(a / 2, k - 1);
      HalveDivMod(a, Pow2(k - 1), Pow2(k));
    }
  }

  lemma Pow2Step(k: nat)
    requires k > 0
    ensures Pow2(k) == 2 * Pow2(k - 1)
  {
  }

  /** Masking with 2^k extracts bit k. */
  lemma {:induction false} AndSingleBit(a: nat, k: nat)
    ensures AndBits(a, Pow2(k)) == Pow2(k) * ((a / Pow2(k)) % 2)
  {
    if k == 0 {
      AndSingleBitBase(a);
    } else if a != 0 {
      var p := Pow2(k - 1);
      Pow2Step(k);
      AndBitsEvenStep(a, Pow2(k), p);
      AndSingleBit(a / 2, k - 1);
      HalveDivMod(a, p, Pow2(k));
      DoubleProduct(p, Pow2(k), ((a / 2) / p) % 2);
    }
  }

  lemma DoubleProduct(p: int, d: int, t: int)
    requires d == 2 * p
    ensures d * t == 2 * (p * t)
  {
  }

  lemma AndSingleBitBase(a: nat)
    ensures AndBits(a, 1) == a % 2
  {
    assert AndBits(a / 2, 0) == 0;
  }

  /** Or-ing a value below 2^k into a multiple of 2^k is addition. */
  lemma {:induction false} OrDisjoint(hi: nat, k: nat, lo: nat)
    requires lo < Pow2(k)
    ensures OrBits(hi * Pow2(k), lo) == hi * Pow2(k) + lo
  {
    if k > 0 && hi * Pow2(k) != 0 && lo != 0 {
      var p := Pow2(k - 1);
      assert hi * Pow2(k) == 2 * (hi * p);
      OrDisjoint(hi, k - 1, lo / 2);
    }
  }

  // ---------------------------------------------------------------------------
  // The operators as the codec uses them

  lemma Int32Id(x: int)
    requires -TWO_31 <= x < TWO_31
    ensures ToInt32(x) == x
  {
  }

  lemma Uint32Id(x: int)
    requires 0 <= x < TWO_32
    ensures ToUint32(x) == x
  {
  }

  /** A shift count n below 32 shifts by 2^n. */
  lemma ShiftCount(n: int, p: int)
    requires 0 <= n < 32 && p == Pow2(n)
    ensures Pow2(ToUint32(n) % 32) == p
  {
    Uint32Id(n);
  }

  /** `x >> n` of a 32-bit x with a constant count n below 32 is floor division by 2^n. */
  lemma ShrBy(x: int, n: int, p: int)
    requires -TWO_31 <= x < TWO_31
    requires 0 <= n < 32 && p == Pow2(n)
    ensures Shr(x, n) == x / p
  {
    Int32Id(x);
    ShiftCount(n, p);
  }

  /** `x << n` multiplies by 2^n when the product stays within 32 bits. */
  lemma ShlBy(x: int, n: int, p: int)
    requires 0 <= n < 32 && p == Pow2(n)
    requires -TWO_31 <= x < TWO_31 && -TWO_31 <= x * p < TWO_31
    ensures Shl(x, n) == x * p
  {
    Int32Id(x);
    ShiftCount(n, p);
    Int32Id(x * p);
  }

  /** `x & (2^k - 1)` keeps the k low bits, also for negative x, for 2^k <= 256. */
  lemma AndLow(x: int, k: nat, p: int, mask: int)
    requires p == Pow2(k) && mask == p - 1
    requires 2 <= p <= 256 && TWO_32 % p == 0
    ensures And(x, mask) == x % p
  {
    var u := ToUint32(x);
    Uint32Id(mask);
    AndLowMaskOf(u, k, p, mask);
    ModOfMod(x, p);
    SmallInt32(u % p);
  }

  lemma AndLowMaskOf(a: nat, k: nat, p: int, mask: int)
    requires p == Pow2(k) && mask == p - 1
    ensures AndBits(a, mask) == a % p
  {
    AndLowMask(a, k);
  }

  lemma SmallMod(x: int, p: int)
    requires 0 <= x < p
    ensures x % p == x
  {
  }

  lemma SmallInt32(v: int)
    requires 0 <= v < 256
    ensures ToInt32(v) == v
  {
  }

  /** The three masks the codec applies keep the low bits, also for negative x. */
  lemma AndLowMasks(x: int)
    ensures And(x, 0x07) == x % 8
    ensures And(x, 0x0F) == x % 16
    ensures And(x, 0xFF) == x % 256
  {
    AndLow(x, 3, 8, 0x07);
    AndLow(x, 4, 16, 0x0F);
    AndLow(x, 8, 256, 0xFF);
  }

  lemma ModOfMod(x: int, p: nat)
    requires 2 <= p <= 256 && TWO_32 % p == 0
    ensures (x % TWO_32) % p == x % p
  {
    var q := x / TWO_32;
    assert x == TWO_32 * q + x % TWO_32;
    var m := TWO_32 / p;
    assert TWO_32 == p * m;
    assert x == p * (m * q) + x % TWO_32;
    var s := (x % TWO_32) % p;
    var t := (x % TWO_32) / p;
    assert x % TWO_32 == p * t + s;
    assert x == p * (m * q + t) + s;
    DivModUnique(x, p, m * q + t, s);
  }

  lemma Pow2Values()
    ensures Pow2(3) == 8 && Pow2(4) == 16 && Pow2(7) == 128 && Pow2(8) == 256
  {
  }

  /** `x & 0x80` is 0x80 when bit 7 of x is set, 0 otherwise. */
  lemma AndBit7(x: int)
    ensures And(x, 0x80) == 128 * ((x / 128) % 2)
  {
    var u := ToUint32(x);
    Uint32Id(0x80);
    AndSingleBitOf(u, 7, 128);
    Bit7OfUint32(x);
    SmallInt32(128 * ((u / 128) % 2));
  }

  lemma AndSingleBitOf(a: nat, k: nat, p: int)
    requires p == Pow2(k)
    ensures AndBits(a, p) == p * ((a / p) % 2)
    ensures 0 <= (a / p) % 2 < 2
  {
    AndSingleBit(a, k);
  }

  /** Bit 7 of x and of its 32-bit pattern agree. */
  lemma Bit7OfUint32(x: int)
    ensures ((x % TWO_32) / 128) % 2 == (x / 128) % 2
  {
    var u := x % TWO_32;
    var q := x / TWO_32;
    assert x == TWO_32 * q + u;
    assert x == 128 * (33554432 * q) + u;
    var t := u / 128;
    assert u == 128 * t + u % 128;
    DivModUnique(x, 128, 33554432 * q + t, u % 128);
    assert x / 128 == 33554432 * q + t;
    DivModUnique(33554432 * q + t, 2, 16777216 * q + t / 2, t % 2);
  }

  /** Or of the three µ-law fields: a sign in {0, 0x80}, a 3-bit exponent
      shifted by four and a 4-bit mantissa occupy disjoint bits. */
  lemma OrFields(sign: int, e: int, m: int)
    requires sign == 0 || sign == 128
    requires 0 <= e < 8 && 0 <= m < 16
    ensures Or(Or(sign, 16 * e), m) == sign + 16 * e + m
  {
    var hi := if sign == 0 then e else 8 + e;
    OrSignExponent(sign, e);
    FieldsHigh(sign, e, hi);
    OrMantissa(hi, m);
    FieldsSum(sign, e, m, hi);
  }

  lemma FieldsHigh(sign: int, e: int, hi: int)
    requires sign == 0 || sign == 128
    requires hi == (if sign == 0 then e else 8 + e)
    ensures sign + 16 * e == 16 * hi
  {
  }

  lemma FieldsSum(sign: int, e: int, m: int, hi: int)
    requires sign + 16 * e == 16 * hi
    ensures 16 * hi + m == sign + 16 * e + m
  {
  }

  lemma OrSignExponent(sign: int, e: int)
    requires sign == 0 || sign == 128
    requires 0 <= e < 8
    ensures Or(sign, 16 * e) == sign + 16 * e
  {
    SignMultiple(sign);
    OrSmall(sign / 128, 16 * e, 7, 128);
  }

  lemma SignMultiple(sign: int)
    requires sign == 0 || sign == 128
    ensures sign / 128 * 128 == sign && sign / 128 >= 0
  {
  }

  lemma OrMantissa(hi: int, m: int)
    requires 0 <= hi < 16 && 0 <= m < 16
    ensures Or(16 * hi, m) == 16 * hi + m
  {
    assert hi * 16 == 16 * hi;
    OrSmall(hi, m, 4, 16);
  }

  /** For non-negative 32-bit operands, or-ing lo < p = 2^k into a multiple of p adds. */
  lemma OrSmall(hi: nat, lo: int, k: nat, p: nat)
    requires p == Pow2(k) && 0 <= lo < p && hi * p + lo < TWO_31
    ensures Or(hi * p, lo) == hi * p + lo
  {
    Uint32Id(hi * p);
    Uint32Id(lo);
    OrDisjoint(hi, k, lo);
    Int32Id(hi * p + lo);
  }

  /** `x >> 8` on a 32-bit value is floor division by 256. */
  lemma ShrEight(x: int)
    requires -TWO_31 <= x < TWO_31
    ensures Shr(x, 8) == x / 256
  {
    ShrBy(x, 8, 256);
  }
}
