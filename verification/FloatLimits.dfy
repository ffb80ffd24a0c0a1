/** The greatest and least values of a scalar type.

    A finite value of a floating point format, or of a binary64 number (section 3.4 of
    IEEE 754-2008), is written as an integer number of units of 2^-1074, the least positive
    binary64 value; every value that occurs is a whole number of such units. */
module FloatLimits {
  import opened Options
  import opened Numbers
  import opened ScalarTypes

  const DOUBLE_MANTISSA: nat := 52
  const DOUBLE_EXPONENT: nat := 11
  const DOUBLE_SIGN: nat := 63
  const DOUBLE_BIAS: nat := 1023
  const UNIT_EXPONENT: nat := 1074

  // ---------- Formats ----------

  predicate IsFloat(t: ScalarType) {
    t.exponent > 0
  }

  /** The two assertions of the computation: the value can be a double. */
  predicate FitsDouble(t: ScalarType) {
    t.mantissa <= DOUBLE_MANTISSA && t.exponent <= DOUBLE_EXPONENT && (t.nanRepr != IEEE_754 ==> t.exponent < DOUBLE_EXPONENT)
  }

  function Bias(t: ScalarType): nat
    requires t.exponent > 0
  {
    Pow2(t.exponent - 1) - 1
  }

  /** Mantissas that, at the greatest exponent, encode NaN. */
  predicate IsNan(t: ScalarType, m: nat) {
    match t.nanRepr
    case NONE => false
    case IEEE_754 => m != 0
    case EXTD_RANGE_MAX_MIN => m == Pow2(t.mantissa) - 1
  }

  /** A type that is not restricted to finite values has its infinities at the greatest exponent and
      mantissa zero. */
  predicate IsInfinity(t: ScalarType, m: nat) {
    !t.finiteValuesOnly && m == 0
  }

  /** Whether exponent field `e` and mantissa field `m` encode a finite number. */
  ghost predicate Finite(t: ScalarType, e: nat, m: nat) {
    && e < Pow2(t.exponent) && m < Pow2(t.mantissa)
    && (e == Pow2(t.exponent) - 1 ==> !IsNan(t, m) && !IsInfinity(t, m))
  }

  lemma BiasFits(t: ScalarType)
    requires IsFloat(t) && FitsDouble(t)
    ensures Bias(t) + t.mantissa <= UNIT_EXPONENT + 1
    ensures Pow2(t.exponent) == 2 * Bias(t) + 2
  {
    Pow2Monotone(t.exponent - 1, 10);
    assert Pow2(10) == 1024;
  }

  /** The magnitude encoded by the fields: subnormal at exponent zero, else with a leading one. */
  function Magnitude(t: ScalarType, e: nat, m: nat): nat
    requires IsFloat(t) && FitsDouble(t)
  {
    BiasFits(t);
    if e == 0 then Shl(m, UNIT_EXPONENT + 1 - Bias(t) - t.mantissa)
    else Shl(Pow2(t.mantissa) + m, UNIT_EXPONENT + e - Bias(t) - t.mantissa)
  }

  /** A finite number of an IEEE binary format: sign and magnitude. */
  datatype Binary = Binary(negative: bool, units: nat) | NotFinite

  /** An IEEE binary number given by its fields, with `w` mantissa and `x` exponent bits; the units are
      the least positive value of that format. */
  function Interpret(sign: nat, e: nat, m: nat, w: nat, x: nat): Binary {
    if e == Pow2(x) - 1 then NotFinite
    else if e == 0 then Binary(sign == 1, m)
    else Binary(sign == 1, Shl(Pow2(w) + m, e - 1))
  }

  function ReadBinary(bits: nat, w: nat, x: nat): Binary {
    Interpret(Field(bits, w + x, FLAG), Field(bits, w, x), LowBits(bits, w), w, x)
  }

  function ReadDouble(bits: nat): Binary {
    ReadBinary(bits, DOUBLE_MANTISSA, DOUBLE_EXPONENT)
  }

  /** `x` is the magnitude of a finite value and no finite value is greater. */
  ghost predicate GreatestFinite(t: ScalarType, x: nat)
    requires IsFloat(t) && FitsDouble(t)
  {
    && (exists e, m :: Finite(t, e, m) && Magnitude(t, e, m) == x)
    && (forall e, m :: Finite(t, e, m) ==> Magnitude(t, e, m) <= x)
  }

  // ---------- The computation ----------

  function MaxMantissa(t: ScalarType): int {
    if t.nanRepr == EXTD_RANGE_MAX_MIN then Pow2(t.mantissa) - 2 else Pow2(t.mantissa) - 1
  }

  function MaxExponent(t: ScalarType): int {
    if t.nanRepr == IEEE_754 then Pow2(t.exponent) - 2 else Pow2(t.exponent) - 1
  }

  /** The exponent field of the double. */
  function MaxExponentDouble(t: ScalarType): int
    requires t.exponent > 0
  {
    MaxExponent(t) - Bias(t) + DOUBLE_BIAS
  }

  /** Only extended-range types without mantissa have no greatest mantissa. */
  predicate HasMaximum(t: ScalarType) {
    IsFloat(t) && FitsDouble(t) && (t.nanRepr == EXTD_RANGE_MAX_MIN ==> t.mantissa > 0)
  }

  lemma MaxFields(t: ScalarType)
    requires IsFloat(t) && FitsDouble(t)
    ensures -1 <= MaxMantissa(t) < Pow2(t.mantissa)
    ensures 0 <= MaxMantissa(t) <==> HasMaximum(t)
    ensures 0 <= MaxExponent(t) < Pow2(t.exponent)
    ensures 1 <= MaxExponentDouble(t) <= 2046
    ensures MaxExponent(t) == 0 <==> t.nanRepr == IEEE_754 && t.exponent == 1
  {
    if t.mantissa > 0 { assert Pow2(t.mantissa) == 2 * Pow2(t.mantissa - 1); }
    assert Pow2(t.exponent) == 2 * Pow2(t.exponent - 1);
    Pow2Monotone(t.exponent - 1, 10);
    assert Pow2(10) == 1024;
    if t.exponent > 1 { assert Pow2(t.exponent - 1) == 2 * Pow2(t.exponent - 2); }
    if t.nanRepr != IEEE_754 {
      Pow2Monotone(t.exponent - 1, 9);
      assert Pow2(9) == 512;
    }
  }

  lemma MantissaFits(t: ScalarType)
    requires HasMaximum(t)
    ensures 0 <= MaxMantissa(t) && Shl(MaxMantissa(t), DOUBLE_MANTISSA - t.mantissa) < Pow2(DOUBLE_MANTISSA)
  {
    MaxFields(t);
    ShlBelow(MaxMantissa(t), t.mantissa, DOUBLE_MANTISSA - t.mantissa);
  }

  lemma {:induction false} ShlBelow(x: nat, a: nat, n: nat)
    requires x < Pow2(a)
    ensures Shl(x, n) < Pow2(a + n)
  {
    if n > 0 { ShlBelow(x, a, n - 1); }
  }

  /** The bits of the greatest value: both fields in their positions. */
  function MaxBits(t: ScalarType): nat
    requires HasMaximum(t)
  {
    MaxFields(t);
    Shl(MaxMantissa(t), DOUBLE_MANTISSA - t.mantissa) + Shl(MaxExponentDouble(t), DOUBLE_MANTISSA)
  }

  /** What the computation yields: nothing if the format does not fit a double, and a negative number,
      which is no bit pattern, if the type has no greatest mantissa. */
  function MaxInt(t: ScalarType): Option<int>
    requires IsFloat(t)
  {
    if !FitsDouble(t) then None else if HasMaximum(t) then Some(MaxBits(t)) else Some(Shl(-1, DOUBLE_MANTISSA))
  }

  lemma FieldsJoin(m: nat, mantissa: nat, k: nat, e: nat)
    requires m < Pow2(mantissa)
    ensures Or(Shl(m, k), Shl(e, mantissa + k)) == Shl(m, k) + Shl(e, mantissa + k)
  {
    ShlBelow(m, mantissa, k);
    OrOfDisjoint(Shl(m, k), e, mantissa + k);
  }

  /** Shifts both fields into position and joins them. */
  method Compose(t: ScalarType, maxMantissa: int, maxExponentDouble: nat) returns (bits: int)
    requires IsFloat(t) && FitsDouble(t)
    requires maxMantissa == MaxMantissa(t) && maxExponentDouble == MaxExponentDouble(t)
    ensures MaxInt(t) == Some(bits)
  {
    MaxFields(t);
    if HasMaximum(t) {
      FieldsJoin(maxMantissa, t.mantissa, DOUBLE_MANTISSA - t.mantissa, maxExponentDouble);
    } else {
      OrOfLeadingOnes(maxExponentDouble, DOUBLE_MANTISSA);
    }
    bits := Or(Shl(maxMantissa, DOUBLE_MANTISSA - t.mantissa), Shl(maxExponentDouble, DOUBLE_MANTISSA));
  }

  lemma OneShifted(n: nat)
    ensures Shl(1, n) == Pow2(n)
  {
    ShlOne(0, n);
    assert Pow2(0) == 1;
  }

  method FloatingPointMaxInt(t: ScalarType) returns (r: Option<int>)
    requires IsFloat(t)
    ensures r == MaxInt(t)
  {
    if !(t.mantissa <= DOUBLE_MANTISSA && t.exponent <= DOUBLE_EXPONENT) {
      return None;
    }
    var maxMantissa: int := Shl(1, t.mantissa) - 1;
    if t.nanRepr == EXTD_RANGE_MAX_MIN {
      maxMantissa := maxMantissa - 1;
    }
    var maxExponent: int := Shl(1, t.exponent) - 2;
    if t.nanRepr == EXTD_RANGE_MAX_MIN || t.nanRepr == NONE {
      if !(t.exponent < DOUBLE_EXPONENT) {
        return None;
      }
      maxExponent := maxExponent + 1;
    }
    OneShifted(t.mantissa);
    OneShifted(t.exponent);
    OneShifted(t.exponent - 1);
    OneShifted(10);
    MaxFields(t);
    var exponentBias := Shl(1, t.exponent - 1) - 1;
    var exponentBiasDouble := Shl(1, 10) - 1;
    assert Pow2(10) == 1024;
    var maxExponentDouble := maxExponent - exponentBias + exponentBiasDouble;
    var bits := Compose(t, maxMantissa, maxExponentDouble);
    r := Some(bits);
  }

  // ---------- It is the greatest value ----------

  /** A leading one one place higher outweighs any mantissa. */
  lemma Scale(a: nat, b: nat, c: nat, x: nat, y: nat)
    requires a <= 2 * b && b <= c && x < y
    ensures Shl(a, x) <= Shl(c, y)
  {
    ShlMonotone(a, 2 * b, x, x);
    ShlTwice(b, 1, x);
    assert Shl(b, 1) == 2 * Shl(b, 0) == 2 * b;
    ShlMonotone(b, c, x + 1, y);
  }

  /** Magnitudes grow with the exponent field and, at equal exponents, with the mantissa field. */
  lemma MagnitudeMonotone(t: ScalarType, e: nat, m: nat, e': nat, m': nat)
    requires IsFloat(t) && FitsDouble(t)
    requires m < Pow2(t.mantissa) && m' < Pow2(t.mantissa)
    requires e < e' || (e == e' && m <= m')
    ensures Magnitude(t, e, m) <= Magnitude(t, e', m')
  {
    BiasFits(t);
    var base := UNIT_EXPONENT - Bias(t) - t.mantissa;
    if e == e' {
      if e == 0 { ShlMonotone(m, m', base + 1, base + 1); }
      else { ShlMonotone(Pow2(t.mantissa) + m, Pow2(t.mantissa) + m', base + e, base + e); }
    } else if e == 0 {
      ShlMonotone(m, Pow2(t.mantissa) + m', base + 1, base + e');
    } else {
      Scale(Pow2(t.mantissa) + m, Pow2(t.mantissa), Pow2(t.mantissa) + m', base + e, base + e');
    }
  }

  lemma {:induction false} ShlStrict(x: nat, y: nat, n: nat)
    requires x < y
    ensures Shl(x, n) < Shl(y, n)
  {
    if n > 0 { ShlStrict(x, y, n - 1); }
  }

  /** What the fields encode with a leading one, whatever the exponent. */
  function Normal(t: ScalarType, e: nat, m: nat): nat
    requires IsFloat(t) && FitsDouble(t) && Bias(t) + t.mantissa <= UNIT_EXPONENT + e
  {
    Shl(Pow2(t.mantissa) + m, UNIT_EXPONENT + e - Bias(t) - t.mantissa)
  }

  lemma NormalBelow(t: ScalarType, e: nat, m: nat, e': nat)
    requires IsFloat(t) && FitsDouble(t) && Bias(t) + t.mantissa <= UNIT_EXPONENT + e
    requires m < Pow2(t.mantissa) && e < e'
    ensures Normal(t, e, m) < Normal(t, e', 0)
  {
    var p, n := Pow2(t.mantissa), UNIT_EXPONENT + e - Bias(t) - t.mantissa;
    ShlStrict(p + m, 2 * p, n);
    Scale(2 * p, p, p, n, n + e' - e);
  }

  /** Every value with a smaller exponent field lies below. */
  lemma MagnitudeBelow(t: ScalarType, e: nat, m: nat, e': nat)
    requires IsFloat(t) && FitsDouble(t) && m < Pow2(t.mantissa) && e < e'
    ensures Bias(t) + t.mantissa <= UNIT_EXPONENT + e' && Magnitude(t, e, m) < Normal(t, e', 0)
  {
    BiasFits(t);
    if e == 0 {
      var n := UNIT_EXPONENT + 1 - Bias(t) - t.mantissa;
      ShlStrict(m, Pow2(t.mantissa), n);
      ShlMonotone(Pow2(t.mantissa), Pow2(t.mantissa), n, n + e' - 1);
    } else {
      NormalBelow(t, e, m, e');
    }
  }

  /** Bits composed of a mantissa of width `w`, an exponent of width `x` and a sign. */
  function ComposeBits(m: nat, e: nat, sign: nat, w: nat, x: nat): nat {
    m + Shl(e, w) + Shl(sign, w + x)
  }

  lemma ComposedFits(m: nat, e: nat, w: nat, x: nat)
    requires m < Pow2(w) && e < Pow2(x)
    ensures m + Shl(e, w) < Pow2(w + x)
  {
    ShlIsProduct(e, w);
    Pow2Add(w, x);
    FitsAbove(m, e, Pow2(x), Pow2(w));
  }

  lemma ComposedSign(m: nat, e: nat, sign: nat, w: nat, x: nat)
    requires m < Pow2(w) && e < Pow2(x) && sign < 2
    ensures Field(ComposeBits(m, e, sign, w, x), w + x, FLAG) == sign
  {
    ComposedFits(m, e, w, x);
    ShlIsProduct(sign, w + x);
    QuotientIs(ComposeBits(m, e, sign, w, x), Pow2(w + x), sign, m + Shl(e, w));
    assert Pow2(1) == 2;
    Remainder(sign, 2);
  }

  lemma ComposedFields(m: nat, e: nat, sign: nat, w: nat, x: nat)
    requires m < Pow2(w) && e < Pow2(x)
    ensures LowBits(ComposeBits(m, e, sign, w, x), w) == m
    ensures Field(ComposeBits(m, e, sign, w, x), w, x) == e
  {
    ShlIsProduct(e, w);
    ShlIsProduct(sign, w + x);
    Pow2Add(w, x);
    SplitFields(m, e, sign, Pow2(w), Pow2(x));
  }

  lemma SplitFields(m: nat, e: nat, sign: nat, p: nat, q: nat)
    requires m < p && e < q
    ensures var bits := m + e * p + sign * (p * q); bits % p == m && (bits / p) % q == e
  {
    var upper := e + sign * q;
    ShiftTwice(e, sign, p, q);
    DropLow(m, upper, p, 1);
    QuotientIs(m + upper * p, p, upper, m);
    DropLow(e, sign, q, 1);
  }

  /** Reading back a composed number. */
  lemma ReadComposed(m: nat, e: nat, sign: nat, w: nat, x: nat)
    requires m < Pow2(w) && e < Pow2(x) && sign < 2
    ensures ReadBinary(ComposeBits(m, e, sign, w, x), w, x) == Interpret(sign, e, m, w, x)
  {
    ComposedFields(m, e, sign, w, x);
    ComposedSign(m, e, sign, w, x);
  }

  lemma ReadNormal(m: nat, e: nat, sign: nat, w: nat, x: nat)
    requires m < Pow2(w) && 1 <= e < Pow2(x) - 1 && sign < 2
    ensures ReadBinary(ComposeBits(m, e, sign, w, x), w, x) == Binary(sign == 1, Shl(Pow2(w) + m, e - 1))
  {
    ReadComposed(m, e, sign, w, x);
  }

  /** The wider mantissa with its leading one is the narrower one, shifted by `k`. */
  lemma Realign(wide: nat, mantissa: nat, k: nat, m: nat, e: nat)
    requires wide == mantissa + k
    ensures Shl(Pow2(wide) + Shl(m, k), e) == Shl(Pow2(mantissa) + m, k + e)
  {
    ShlOne(mantissa, k);
    ShlSum(Pow2(mantissa), m, k);
    ShlTwice(Pow2(mantissa) + m, k, e);
  }

  /** The magnitude of the double that the computation builds, and of the one with the sign bit set. */
  function MaxUnits(t: ScalarType): nat
    requires HasMaximum(t)
  {
    MaxFields(t);
    Shl(Pow2(t.mantissa) + MaxMantissa(t), DOUBLE_MANTISSA - t.mantissa + MaxExponentDouble(t) - 1)
  }

  /** The bits with a sign bit: 0 for the maximum, 1 for the minimum. */
  function SignedMaxBits(t: ScalarType, sign: nat): nat
    requires HasMaximum(t)
  {
    MaxFields(t);
    ComposeBits(MaxMantissaDouble(t), MaxExponentDouble(t), sign, DOUBLE_MANTISSA, DOUBLE_EXPONENT)
  }

  lemma NoSign(t: ScalarType)
    requires HasMaximum(t)
    ensures SignedMaxBits(t, 0) == MaxBits(t)
  {
    ShlZero(DOUBLE_MANTISSA + DOUBLE_EXPONENT);
  }

  /** The mantissa field of the double. */
  function MaxMantissaDouble(t: ScalarType): (m: nat)
    requires HasMaximum(t)
    ensures m < Pow2(DOUBLE_MANTISSA)
  {
    MantissaFits(t);
    Shl(MaxMantissa(t), DOUBLE_MANTISSA - t.mantissa)
  }

  lemma ExponentBelow(t: ScalarType)
    requires HasMaximum(t)
    ensures 1 <= MaxExponentDouble(t) < Pow2(DOUBLE_EXPONENT) - 1
  {
    MaxFields(t);
    DoubleExponents();
  }

  lemma RealignDouble(mantissa: nat, k: nat, m: nat, e: nat)
    requires mantissa + k == DOUBLE_MANTISSA
    ensures Shl(Pow2(DOUBLE_MANTISSA) + Shl(m, k), e) == Shl(Pow2(mantissa) + m, k + e)
  {
    Realign(DOUBLE_MANTISSA, mantissa, k, m, e);
  }

  /** The significand of the double, shifted by its exponent. */
  lemma MaxUnitsOfDouble(t: ScalarType, k: nat, m: nat, e: nat)
    requires HasMaximum(t)
    requires t.mantissa + k == DOUBLE_MANTISSA && m == MaxMantissa(t) && e + 1 == MaxExponentDouble(t)
    ensures Shl(Pow2(DOUBLE_MANTISSA) + MaxMantissaDouble(t), e) == MaxUnits(t)
  {
    RealignDouble(t.mantissa, k, m, e);
  }

  lemma ReadNormalDouble(m: nat, e: nat, sign: nat, units: nat)
    requires m < Pow2(DOUBLE_MANTISSA) && 1 <= e <= 2046 && sign < 2
    requires units == Shl(Pow2(DOUBLE_MANTISSA) + m, e - 1)
    ensures ReadDouble(ComposeBits(m, e, sign, DOUBLE_MANTISSA, DOUBLE_EXPONENT)) == Binary(sign == 1, units)
  {
    DoubleExponents();
    ReadNormal(m, e, sign, DOUBLE_MANTISSA, DOUBLE_EXPONENT);
  }

  lemma ReadMaxBits(t: ScalarType, sign: nat)
    requires HasMaximum(t) && sign < 2
    ensures ReadDouble(SignedMaxBits(t, sign)) == Binary(sign == 1, MaxUnits(t))
  {
    var m, e, units := MaxMantissaDouble(t), MaxExponentDouble(t), MaxUnits(t);
    MaxFields(t);
    MaxUnitsOfDouble(t, DOUBLE_MANTISSA - t.mantissa, MaxMantissa(t), e - 1);
    assert ReadDouble(ComposeBits(m, e, sign, DOUBLE_MANTISSA, DOUBLE_EXPONENT)) == Binary(sign == 1, units) by {
      ReadNormalDouble(m, e, sign, units);
    }
  }

  lemma DoubleExponents()
    ensures Pow2(DOUBLE_EXPONENT) == 2048
  {
    assert Pow2(11) == 2048;
  }

  /** The maximum carries a leading one. */
  lemma MaxUnitsIsNormal(t: ScalarType)
    requires HasMaximum(t)
    ensures MaxMantissa(t) >= 0 && MaxExponent(t) >= 0 && Bias(t) + t.mantissa <= UNIT_EXPONENT + MaxExponent(t)
    ensures MaxUnits(t) == Normal(t, MaxExponent(t), MaxMantissa(t))
  {
    MaxFields(t);
    BiasFits(t);
  }

  /** With a one-bit exponent the double exceeds every finite value. */
  lemma OneBitExponent(t: ScalarType)
    requires HasMaximum(t) && t.nanRepr == IEEE_754 && !t.finiteValuesOnly && t.exponent == 1
    ensures !GreatestFinite(t, MaxUnits(t))
  {
    MaxFields(t);
    var n, k := MaxMantissa(t), UNIT_EXPONENT - t.mantissa;
    assert Pow2(1) == 2 && Pow2(0) == 1;
    assert Magnitude(t, 0, n) == Shl(n, 1 + k) == Shl(2 * n, k) by {
      ShlTwice(n, 1, k);
      assert Shl(n, 1) == 2 * Shl(n, 0) == 2 * n;
    }
    assert MaxUnits(t) == Shl(2 * n + 1, k);
    ShlStrict(2 * n, 2 * n + 1, k);
    forall e, m | Finite(t, e, m) ensures Magnitude(t, e, m) < MaxUnits(t) {
      MagnitudeMonotone(t, e, m, 0, n);
    }
  }

  /** An IEEE type restricted to finite values has a finite value at the greatest exponent, above the
      double. */
  lemma FiniteAtGreatestExponent(t: ScalarType)
    requires HasMaximum(t) && t.nanRepr == IEEE_754 && t.finiteValuesOnly
    ensures !GreatestFinite(t, MaxUnits(t))
  {
    var e := MaxExponent(t) + 1;
    MaxFields(t);
    MaxUnitsIsNormal(t);
    NormalBelow(t, MaxExponent(t), MaxMantissa(t), e);
    assert Finite(t, e, 0);
  }

  /** If mantissa zero is the greatest one considered and encodes infinity, the double
      exceeds every finite value. */
  lemma InfinityAtGreatestMantissa(t: ScalarType)
    requires HasMaximum(t) && t.nanRepr != IEEE_754 && !t.finiteValuesOnly && MaxMantissa(t) == 0
    ensures !GreatestFinite(t, MaxUnits(t))
  {
    MaxFields(t);
    MaxUnitsIsNormal(t);
    forall e, m | Finite(t, e, m) ensures Magnitude(t, e, m) < MaxUnits(t) {
      MagnitudeBelow(t, e, m, MaxExponent(t));
    }
  }

  /** The types for which the computed fields are right: IEEE types need a two-bit exponent
      and must have infinities; the other types need a mantissa left beside NaN and infinity. */
  predicate Suitable(t: ScalarType) {
    match t.nanRepr
    case IEEE_754 => !t.finiteValuesOnly && t.exponent > 1
    case EXTD_RANGE_MAX_MIN => t.mantissa >= if t.finiteValuesOnly then 1 else 2
    case NONE => t.mantissa >= if t.finiteValuesOnly then 0 else 1
  }

  /** The computed fields are the greatest finite ones. */
  lemma MaxFieldsAreGreatest(t: ScalarType)
    requires IsFloat(t) && FitsDouble(t) && Suitable(t)
    ensures HasMaximum(t) && GreatestFinite(t, MaxUnits(t))
  {
    MaxFields(t);
    MaxUnitsIsNormal(t);
    MantissaLeft(t);
    assert Finite(t, MaxExponent(t), MaxMantissa(t));
    assert Magnitude(t, MaxExponent(t), MaxMantissa(t)) == MaxUnits(t);
    forall e, m | Finite(t, e, m) ensures Magnitude(t, e, m) <= MaxUnits(t) {
      MagnitudeMonotone(t, e, m, MaxExponent(t), MaxMantissa(t));
    }
  }

  lemma MantissaLeft(t: ScalarType)
    ensures MaxMantissa(t) == 0 <==> t.mantissa == if t.nanRepr == EXTD_RANGE_MAX_MIN then 1 else 0
  {
    if t.mantissa > 0 {
      assert Pow2(t.mantissa) == 2 * Pow2(t.mantissa - 1);
      if t.mantissa > 1 { assert Pow2(t.mantissa - 1) == 2 * Pow2(t.mantissa - 2); }
    }
  }

  lemma MaxUnitsAreGreatest(t: ScalarType)
    requires HasMaximum(t)
    ensures GreatestFinite(t, MaxUnits(t)) <==> Suitable(t)
  {
    if Suitable(t) {
      MaxFieldsAreGreatest(t);
    } else {
      MantissaLeft(t);
      if t.nanRepr != IEEE_754 {
        InfinityAtGreatestMantissa(t);
      } else if t.finiteValuesOnly {
        FiniteAtGreatestExponent(t);
      } else {
        OneBitExponent(t);
      }
    }
  }

  /** The computed bits are those of a double, not negative, that is the greatest finite value. */
  ghost predicate MaximumIsRight(t: ScalarType)
    requires IsFloat(t) && FitsDouble(t)
  {
    && MaxInt(t).value >= 0
    && var d := ReadDouble(MaxInt(t).value);
       d.Binary? && !d.negative && GreatestFinite(t, d.units)
  }

  /** The source's maximum, read as a double, is the greatest finite value of the format if and only
      if the type is suitable. */
  lemma MaximumIsGreatest(t: ScalarType)
    requires IsFloat(t) && FitsDouble(t)
    ensures MaximumIsRight(t) <==> Suitable(t)
  {
    MaxFields(t);
    if HasMaximum(t) {
      NoSign(t);
      ReadMaxBits(t, 0);
      MaxUnitsAreGreatest(t);
    } else {
      OrOfLeadingOnes(0, DOUBLE_MANTISSA);
    }
  }

  lemma SignIsAbove(m: nat, e: nat, w: nat, x: nat)
    requires m < Pow2(w) && e < Pow2(x)
    ensures ComposeBits(m, e, 0, w, x) < Pow2(w + x)
    ensures ComposeBits(m, e, 1, w, x) == ComposeBits(m, e, 0, w, x) + Shl(1, w + x)
  {
    ComposedFits(m, e, w, x);
    ShlZero(w + x);
  }

  lemma SignIsSet(t: ScalarType)
    requires HasMaximum(t)
    ensures SignedMaxBits(t, 1) == Or(MaxBits(t), Shl(1, DOUBLE_SIGN))
  {
    var m, e := MaxMantissaDouble(t), MaxExponentDouble(t);
    assert 0 <= e < Pow2(DOUBLE_EXPONENT) by { ExponentBelow(t); }
    SignIsAbove(m, e, DOUBLE_MANTISSA, DOUBLE_EXPONENT);
    assert MaxBits(t) == ComposeBits(m, e, 0, DOUBLE_MANTISSA, DOUBLE_EXPONENT) by { NoSign(t); }
    OrOfDisjoint(MaxBits(t), 1, DOUBLE_SIGN);
  }

  /** The minimum, the maximum with the sign bit set, is its negative. */
  lemma MinimumIsNegative(t: ScalarType)
    requires HasMaximum(t)
    ensures ReadDouble(MaxBits(t)) == Binary(false, MaxUnits(t))
    ensures ReadDouble(Or(MaxBits(t), Shl(1, DOUBLE_SIGN))) == Binary(true, MaxUnits(t))
  {
    NoSign(t);
    SignIsSet(t);
    ReadMaxBits(t, 0);
    ReadMaxBits(t, 1);
  }

  // ---------- Integer types ----------

  /** What an assertion lets through, and the value then. */
  function SizeBits(t: ScalarType): nat {
    t.exponent + t.mantissa + Bit(t.signed)
  }

  function RawMax(t: ScalarType): Option<int>
    requires t.exponent == 0
  {
    if SizeBits(t) < 64 || (SizeBits(t) == 64 && t.signed) then Some(Shl(1, t.mantissa) - 1) else None
  }

  function RawMin(t: ScalarType): Option<int>
    requires t.exponent == 0
  {
    if !t.signed then Some(0)
    else if SizeBits(t) <= 64 then Some(0 - Shl(1, SizeBits(t) - 1))
    else None
  }

  /** The value stored in the given bits: two's complement if signed, less the bias. */
  function Stored(t: ScalarType, bits: nat): int
    requires t.exponent == 0
  {
    (if t.signed then Signed(bits, SizeBits(t)) else bits) - t.bias
  }

  /** For an integer type that passes both assertions, a number is stored by some bits exactly when it
      lies between `min` and `max`, both less the bias. */
  lemma IntegerRange(t: ScalarType, x: int)
    requires t.exponent == 0 && RawMax(t).Some? && RawMin(t).Some?
    ensures (exists bits: nat :: bits < Pow2(SizeBits(t)) && Stored(t, bits) == x)
       <==> RawMin(t).value - t.bias <= x <= RawMax(t).value - t.bias
  {
    var raw := x + t.bias;
    OneShifted(t.mantissa);
    if t.signed {
      assert Pow2(SizeBits(t)) == 2 * Pow2(t.mantissa);
      if 0 - Shl(1, t.mantissa) <= raw < Shl(1, t.mantissa) {
        var bits: nat := if raw >= 0 then raw else raw + Pow2(SizeBits(t));
        assert bits < Pow2(SizeBits(t)) && Stored(t, bits) == x;
      }
    } else if 0 <= raw < Shl(1, t.mantissa) {
      assert raw < Pow2(SizeBits(t)) && Stored(t, raw) == x;
    }
  }
}
