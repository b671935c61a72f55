/** The 2-byte KNX float (DPT 9.xxx): (mantissa * 0.01) * 2^exponent with an 11-bit mantissa and a sign bit. */
module KnxFloat {
  import opened Binary
  import opened Rounding

  /** The value scaled to hundredths, halved `e` times. */
  function Scaled(v: real, e: nat): real {
    if e == 0 then v * 100.0 else Scaled(v, e - 1) / 2.0
  }

  /** The scaled value is within the 11-bit mantissa range of its sign. */
  predicate Fits(v: real, e: nat) {
    if v < 0.0 then Scaled(v, e) >= -2048.0 else Scaled(v, e) <= 2047.0
  }

  /** The exponent the encoder uses: the least one that fits, or 15. */
  ghost predicate IsExponent(v: real, e: nat) {
    && e <= 15
    && (forall k: nat :: k < e ==> !Fits(v, k))
    && (e < 15 ==> Fits(v, e))
  }

  /** `mantissa & 0x7FF` keeps 11 bits of the two's complement. */
  function MantissaBits(v: real, e: nat): int {
    RoundHalfEven(Scaled(v, e)) % 2048
  }

  function Pack(negative: bool, e: nat, bits: int): (r: (byte, byte))
    requires e <= 15 && 0 <= bits < 2048
  {
    ((if negative then 0x80 else 0) + e * 8 + bits / 256, bits % 256)
  }

  /**
   * The bytes decode to within half a step of the value, at the least exponent that fits, exactly for values in
   * range.
   */
  method Encode(v: real) returns (r: (byte, byte))
    ensures exists e: nat :: IsExponent(v, e) && r == Pack(v < 0.0, e, MantissaBits(v, e))
              && (v - HalfStep(e) <= Decode(r) <= v + HalfStep(e) <==> InRange(v))
  {
    var mantissaD := v * 100.0;
    var exponent: nat := 0;
    if v < 0.0 {
      while mantissaD < -2048.0 && exponent < 15
        invariant exponent <= 15 && mantissaD == Scaled(v, exponent)
        invariant forall k: nat :: k < exponent ==> !Fits(v, k)
      {
        mantissaD := mantissaD / 2.0;
        exponent := exponent + 1;
      }
    } else {
      while mantissaD > 2047.0 && exponent < 15
        invariant exponent <= 15 && mantissaD == Scaled(v, exponent)
        invariant forall k: nat :: k < exponent ==> !Fits(v, k)
      {
        mantissaD := mantissaD / 2.0;
        exponent := exponent + 1;
      }
    }
    var bits := RoundHalfEven(mantissaD) % 2048;
    r := ((if v < 0.0 then 0x80 else 0) + exponent * 8 + bits / 256, bits % 256);
    assert r == Pack(v < 0.0, exponent, MantissaBits(v, exponent));
    ErrorBoundIff(v, exponent);
  }

  /** Sign, exponent and mantissa of the two bytes; the mantissa is two's complement. */
  function Exponent(b: (byte, byte)): nat { b.0 / 8 % 16 }

  function Mantissa(b: (byte, byte)): int {
    var m := b.0 % 8 * 256 + b.1;
    if b.0 / 128 == 1 then m - 2048 else m
  }

  /** `x * Math.Pow(2, e)` */
  function TimesPow2(x: real, e: nat): real {
    x * Pow2(e) as real
  }

  function Value(mantissa: int, exponent: nat): real {
    Round2(TimesPow2(mantissa as real * 0.01, exponent))
  }

  function Decode(b: (byte, byte)): real {
    Value(Mantissa(b), Exponent(b))
  }

  /** The mantissa shifted left `e` times. */
  function Shifted(m: int, e: nat): int {
    if e == 0 then m else 2 * Shifted(m, e - 1)
  }

  /** `x` doubled `e` times. */
  function Doubled(x: real, e: nat): real {
    if e == 0 then x else 2.0 * Doubled(x, e - 1)
  }

  lemma {:induction false} DoubledIsProduct(x: real, e: nat)
    ensures Doubled(x, e) == TimesPow2(x, e)
  {
    if e > 0 {
      DoubledIsProduct(x, e - 1);
      var p := Pow2(e - 1) as real;
      assert x * (2.0 * p) == 2.0 * (x * p);
    }
  }

  lemma {:induction false} DoubledHundredths(m: int, e: nat)
    ensures Doubled(m as real * 0.01, e) == Hundredths(Shifted(m, e))
  {
    if e > 0 {
      DoubledHundredths(m, e - 1);
    }
  }

  /** Decoding never rounds: the decoded value is a whole number of hundredths. */
  lemma ValueIsExact(m: int, e: nat)
    ensures Value(m, e) == Hundredths(Shifted(m, e))
  {
    DoubledIsProduct(m as real * 0.01, e);
    DoubledHundredths(m, e);
    Round2Exact(Shifted(m, e));
  }

  lemma {:induction false} ShiftedIsProduct(m: int, e: nat)
    ensures Shifted(m, e) == m * Pow2(e)
  {
    if e > 0 {
      ShiftedIsProduct(m, e - 1);
      var p := Pow2(e - 1);
      assert m * (2 * p) == 2 * (m * p);
    }
  }

  /**
   * The 16 bits are the sign, four bits of exponent and eleven of mantissa: what they stand for is the mantissa in
   * two's complement under that sign, times the power of two, in hundredths.
   */
  lemma DecodedFields(negative: bool, e: nat, m: nat)
    requires e < 16 && m < 2048
    ensures Decode(((if negative then 128 else 0) + 8 * e + m / 256, m % 256))
         == ((if negative then m - 2048 else m) * Pow2(e)) as real / 100.0
  {
    var b: (byte, byte) := ((if negative then 128 else 0) + 8 * e + m / 256, m % 256);
    FieldsOf(negative, e, m, b);
    ValueIsExact(Mantissa(b), e);
    ShiftedIsProduct(Mantissa(b), e);
  }

  lemma FieldsOf(negative: bool, e: nat, m: nat, b: (byte, byte))
    requires e < 16 && m < 2048 && b == ((if negative then 128 else 0) + 8 * e + m / 256, m % 256)
    ensures Exponent(b) == e && Mantissa(b) == if negative then m - 2048 else m
  {
  }

  lemma UnpackPack(negative: bool, e: nat, bits: int)
    requires e <= 15 && 0 <= bits < 2048
    ensures Exponent(Pack(negative, e, bits)) == e
    ensures Mantissa(Pack(negative, e, bits)) == if negative then bits - 2048 else bits
  {
  }

  lemma {:induction false} DoubledScaled(v: real, e: nat)
    ensures Doubled(Scaled(v, e) * 0.01, e) == v
  {
    if e > 0 {
      DoubledScaled(v, e - 1);
      DoubledAgain(Scaled(v, e) * 0.01, e - 1);
    }
  }

  lemma {:induction false} DoubledAgain(x: real, e: nat)
    ensures Doubled(x, e + 1) == Doubled(2.0 * x, e)
  {
    if e > 0 {
      DoubledAgain(x, e - 1);
    }
  }

  lemma {:induction false} DoubledOrder(x: real, y: real, e: nat)
    ensures Doubled(x, e) <= Doubled(y, e) <==> x <= y
  {
    if e > 0 {
      DoubledOrder(x, y, e - 1);
    }
  }

  lemma {:induction false} DoubledSum(x: real, y: real, e: nat)
    ensures Doubled(x + y, e) == Doubled(x, e) + Doubled(y, e)
  {
    if e > 0 {
      DoubledSum(x, y, e - 1);
    }
  }

  // ---- The error bound ----

  /** What the bytes of `v` decode to, relative to the scaled value. */
  lemma DecodedMantissa(v: real, e: nat)
    requires e <= 15
    ensures var b := Pack(v < 0.0, e, MantissaBits(v, e));
            Decode(b) == Hundredths(Shifted(if v < 0.0 then MantissaBits(v, e) - 2048 else MantissaBits(v, e), e))
  {
    var b := Pack(v < 0.0, e, MantissaBits(v, e));
    UnpackPack(v < 0.0, e, MantissaBits(v, e));
    ValueIsExact(Mantissa(b), e);
  }

  /** Half of the resolution at exponent `e`. */
  function HalfStep(e: nat): real {
    TimesPow2(0.005, e)
  }

  /** The mantissa survives its 11 bits: a representable value, and not a negative one that rounds to 0. */
  predicate Representable(v: real, e: nat) {
    if v < 0.0 then -2048 <= RoundHalfEven(Scaled(v, e)) < 0 else RoundHalfEven(Scaled(v, e)) <= 2047
  }

  /** The decoded value is within half a step exactly when the rounded mantissa is representable. */
  lemma ErrorBoundIffRepresentable(v: real, e: nat)
    requires e <= 15
    ensures WithinHalfStep(v, e) <==> Representable(v, e)
  {
    var m := if v < 0.0 then MantissaBits(v, e) - 2048 else MantissaBits(v, e);
    DecodedMantissa(v, e);
    MantissaError(v, e, m);
    ScaledSign(v, e);
    MaskedMantissa(v, e, m);
  }

  /** A representable mantissa survives the mask; any other comes out more than half a step off. */
  lemma MaskedMantissa(v: real, e: nat, m: int)
    requires m == if v < 0.0 then MantissaBits(v, e) - 2048 else MantissaBits(v, e)
    requires v < 0.0 ==> Scaled(v, e) < 0.0
    requires v >= 0.0 ==> Scaled(v, e) >= 0.0
    ensures Representable(v, e) <==> -0.5 <= m as real - Scaled(v, e) <= 0.5
  {
    if Representable(v, e) {
      assert m == RoundHalfEven(Scaled(v, e));
    } else {
      MaskedMantissaIsFar(v, e, m);
    }
  }

  predicate WithinHalfStep(v: real, e: nat)
    requires e <= 15
  {
    var d := Decode(Pack(v < 0.0, e, MantissaBits(v, e)));
    v - HalfStep(e) <= d <= v + HalfStep(e)
  }

  /** The error in values is the error in mantissa steps. */
  lemma MantissaError(v: real, e: nat, m: int)
    ensures v - HalfStep(e) <= Hundredths(Shifted(m, e)) <= v + HalfStep(e) <==> -0.5 <= m as real - Scaled(v, e) <= 0.5
  {
    var exact, got := Scaled(v, e) * 0.01, m as real * 0.01;
    DoubledIsProduct(0.005, e);
    DoubledHundredths(m, e);
    DoubledScaled(v, e);
    DoubledSum(exact, 0.005, e);
    DoubledSum(got, 0.005, e);
    DoubledOrder(exact, got + 0.005, e);
    DoubledOrder(got, exact + 0.005, e);
  }

  lemma {:induction false} ScaledSign(v: real, e: nat)
    ensures v < 0.0 ==> Scaled(v, e) < 0.0
    ensures v >= 0.0 ==> Scaled(v, e) >= 0.0
  {
    if e > 0 {
      ScaledSign(v, e - 1);
    }
  }

  /** A mantissa that lost bits is off by more than half a step. */
  lemma MaskedMantissaIsFar(v: real, e: nat, m: int)
    requires m == if v < 0.0 then MantissaBits(v, e) - 2048 else MantissaBits(v, e)
    requires !Representable(v, e)
    requires v < 0.0 ==> Scaled(v, e) < 0.0
    requires v >= 0.0 ==> Scaled(v, e) >= 0.0
    ensures !(-0.5 <= m as real - Scaled(v, e) <= 0.5)
  {
    var n := RoundHalfEven(Scaled(v, e));
    var lost := n / 2048 + if v < 0.0 then 1 else 0;
    assert m == n - 2048 * lost;
    assert lost != 0;
  }

  // ---- The range of the format ----

  lemma ScaledFifteen(v: real)
    ensures Scaled(v, 15) == v * 100.0 / 32768.0
  {
    HalvedFiveTimes(v, 0);
    HalvedFiveTimes(v, 5);
    HalvedFiveTimes(v, 10);
  }

  lemma HalvedFiveTimes(v: real, k: nat)
    ensures Scaled(v, k + 5) == Scaled(v, k) / 32.0
  {
    assert Scaled(v, k + 2) == Scaled(v, k + 1) / 2.0 == Scaled(v, k) / 4.0;
    assert Scaled(v, k + 4) == Scaled(v, k + 3) / 2.0 == Scaled(v, k + 2) / 4.0;
  }

  /** Representable, read as a range of values: neither beyond the largest exponent nor rounding to a negative 0. */
  predicate InRange(v: real) {
    -671252.48 <= v < 670924.8 && !(-0.005 <= v < 0.0)
  }

  lemma RepresentableIffInRange(v: real, e: nat)
    requires IsExponent(v, e)
    ensures Representable(v, e) <==> InRange(v)
  {
    ScaledFifteen(v);
    assert Scaled(v, 0) == v * 100.0;
    if e > 0 {
      assert !Fits(v, e - 1) && !Fits(v, 0);
    }
    if e < 15 {
      FitsLater(v, e, 15);
    }
  }

  /** A value that fits at some exponent fits at every larger one, and shrinks toward 0. */
  lemma {:induction false} FitsLater(v: real, e: nat, k: nat)
    requires e <= k && Fits(v, e)
    ensures Fits(v, k)
    ensures if v < 0.0 then Scaled(v, k) >= Scaled(v, e) else Scaled(v, k) <= Scaled(v, e)
  {
    if e < k {
      FitsLater(v, e, k - 1);
      ScaledSign(v, k - 1);
    }
  }

  /**
   * Encoding and decoding is off by at most half the resolution at the least exponent that fits,
   * exactly for the values in range.
   */
  lemma ErrorBoundIff(v: real, e: nat)
    requires IsExponent(v, e)
    ensures WithinHalfStep(v, e) <==> InRange(v)
  {
    ErrorBoundIffRepresentable(v, e);
    RepresentableIffInRange(v, e);
  }

  lemma TinyRoundsToZero(x: real)
    requires -0.5 <= x < 0.0
    ensures RoundHalfEven(x) == 0
  {
    assert x.Floor == -1;
  }

  /** A tiny negative value comes back as -20.48. */
  lemma NegativeZeroDecodesTo2048(v: real)
    requires -0.005 <= v < 0.0
    ensures IsExponent(v, 0) && Decode(Pack(true, 0, MantissaBits(v, 0))) == -20.48
  {
    TinyRoundsToZero(v * 100.0);
    UnpackPack(true, 0, 0);
    ValueIsExact(-2048, 0);
    assert Hundredths(-2048) == -20.48;
  }

  // ---- Decoded values survive another round trip ----

  lemma {:induction false} ShiftedSplit(m: int, e: nat, k: nat)
    requires k <= e
    ensures Scaled(Hundredths(Shifted(m, e)), k) == Shifted(m, e - k) as real
  {
    if k > 0 {
      ShiftedSplit(m, e, k - 1);
    }
  }

  lemma {:induction false} ShiftedSign(m: int, e: nat)
    ensures m < 0 <==> Shifted(m, e) < 0
  {
    if e > 0 {
      ShiftedSign(m, e - 1);
    }
  }

  lemma {:induction false} ShiftedAgain(m: int, d: nat, k: nat)
    ensures Shifted(Shifted(m, d), k) == Shifted(m, d + k)
  {
    if k > 0 {
      ShiftedAgain(m, d, k - 1);
    }
  }

  /** A value with an 11-bit mantissa comes back exactly, at an exponent that is at most the one it had. */
  lemma ReencodedMantissa(m: int, x: nat, v: real, e: nat)
    requires -2048 <= m <= 2047 && x <= 15
    requires v == Hundredths(Shifted(m, x)) && IsExponent(v, e)
    ensures e <= x && Shifted(if v < 0.0 then MantissaBits(v, e) - 2048 else MantissaBits(v, e), e) == Shifted(m, x)
  {
    ShiftedSign(m, x);
    ShiftedSplit(m, x, x);
    assert Scaled(v, x) == m as real && Fits(v, x);
    ShiftedSplit(m, x, e);
    var shifted := Shifted(m, x - e);
    ShiftedSign(m, x - e);
    assert RoundHalfEven(Scaled(v, e)) == shifted;
    assert Fits(v, e);
    assert -2048 <= shifted <= 2047;
    ShiftedAgain(m, x - e, e);
  }

  /** Decode(Encode(Decode(b))) == Decode(b), for all bytes b. */
  lemma DecodeEncodeDecode(b: (byte, byte), e: nat)
    requires IsExponent(Decode(b), e)
    ensures Decode(Pack(Decode(b) < 0.0, e, MantissaBits(Decode(b), e))) == Decode(b)
  {
    ValueIsExact(Mantissa(b), Exponent(b));
    ReencodedMantissa(Mantissa(b), Exponent(b), Decode(b), e);
    DecodedMantissa(Decode(b), e);
  }

  /** 21 degrees are 0C 1A. */
  lemma TwentyOneDegrees()
    ensures IsExponent(21.0, 1) && Pack(false, 1, MantissaBits(21.0, 1)) == (0x0C, 0x1A)
    ensures Decode((0x0C, 0x1A)) == 21.0
  {
    assert Scaled(21.0, 0) == 2100.0 && Scaled(21.0, 1) == 1050.0;
    assert RoundHalfEven(1050.0) == 1050;
    DecodedFields(false, 1, 1050);
    assert Pow2(1) == 2 * Pow2(0);
  }
}
