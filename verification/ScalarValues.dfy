/** The id and the limits of scalar types in plain numbers. */
module ScalarValues {
  import opened Options
  import opened Numbers
  import opened ScalarTypes
  import opened FloatLimits

  lemma PackedStep(ms: seq<Member>, k: nat)
    requires k < |ms|
    ensures Packed(ms[k..]) == LowBits(ms[k].value, ms[k].width) + Packed(ms[k + 1..]) * Pow2(ms[k].width)
  {
    assert ms[k..][1..] == ms[k + 1..];
    ShlIsProduct(Packed(ms[k + 1..]), ms[k].width);
  }

  lemma PowersOfTwo()
    ensures Pow2(1) == 2 && Pow2(8) == 256 && Pow2(32) == 4294967296
  {
    assert Pow2(8) == 256;
    Pow2Add(8, 8);
    Pow2Add(16, 16);
  }

  /** Six members of the widths of an id, whose reduced values are `a` to `f`. */
  lemma PackedOfSix(ms: seq<Member>, a: nat, b: nat, c: nat, d: nat, e: nat, f: nat)
    requires |ms| == 6
    requires ms[0].width == ms[1].width == ms[5].width == 8 && ms[2].width == ms[4].width == 1 && ms[3].width == 32
    requires LowBits(ms[0].value, 8) == a && LowBits(ms[1].value, 8) == b && LowBits(ms[2].value, 1) == c
    requires LowBits(ms[3].value, 32) == d && LowBits(ms[4].value, 1) == e && LowBits(ms[5].value, 8) == f
    ensures Packed(ms) == a + b * 256 + c * 65536 + d * 131072 + e * 562949953421312 + f * 1125899906842624
  {
    PowersOfTwo();
    PackedStep(ms, 0);
    PackedStep(ms, 1);
    PackedStep(ms, 2);
    PackedStep(ms, 3);
    PackedStep(ms, 4);
    PackedStep(ms, 5);
    assert ms[0..] == ms;
  }

  /** The bits of the id: exponent from 0, mantissa from 8, sign at 16, bias from 17, the finite-values
      flag at 49, the NaN convention from 50. */
  lemma IdValue(t: ScalarType)
    ensures Packed(Members(t))
         == t.exponent % 256 + (t.mantissa % 256) * 256 + (if t.signed then 65536 else 0)
            + (t.bias % 4294967296) * 131072 + (if t.finiteValuesOnly then 562949953421312 else 0)
            + (match t.nanRepr case NONE => 0 case IEEE_754 => 1 case EXTD_RANGE_MAX_MIN => 2) * 1125899906842624
  {
    PowersOfTwo();
    SmallCodes(t);
    PackedOfSix(Members(t), t.exponent % 256, t.mantissa % 256, Bit(t.signed), t.bias % 4294967296,
                Bit(t.finiteValuesOnly), NanCode(t.nanRepr));
  }

  /** Two types share an id if and only if they agree, the numbers modulo the size of their fields. */
  lemma IdsAgree(t: ScalarType, u: ScalarType)
    ensures Packed(Members(t)) == Packed(Members(u)) <==>
              && t.exponent % 256 == u.exponent % 256 && t.mantissa % 256 == u.mantissa % 256
              && t.bias % 4294967296 == u.bias % 4294967296
              && t.signed == u.signed && t.finiteValuesOnly == u.finiteValuesOnly && t.nanRepr == u.nanRepr
  {
    PowersOfTwo();
    SameId(t, u);
  }

  /** An id reads back as its type if and only if exponent and mantissa fit an unsigned byte and the bias
      a signed 32-bit integer. */
  lemma IdReadsBack(t: ScalarType)
    ensures FromId(Packed(Members(t))) == Some(t) <==>
              t.exponent < 256 && t.mantissa < 256 && -2147483648 <= t.bias < 2147483648
  {
    PowersOfTwo();
    assert Pow2(32) == 2 * Pow2(31);
    FromIdOfId(t);
  }

  /** The limits of an integer type are given if and only if they are 64-bit signed integers. */
  lemma IntegerLimits(t: ScalarType)
    requires t.exponent == 0
    ensures RawMax(t).Some? <==> Pow2(t.mantissa) - 1 < Pow2(63)
    ensures RawMin(t).Some? <==> !t.signed || 0 - Pow2(63) <= 0 - Pow2(t.mantissa)
    ensures RawMax(t).Some? ==> RawMax(t).value == Pow2(t.mantissa) - 1
    ensures RawMin(t).Some? ==> RawMin(t).value == if t.signed then 0 - Pow2(t.mantissa) else 0
  {
    OneShifted(t.mantissa);
    if t.mantissa <= 63 {
      Pow2Monotone(t.mantissa, 63);
    } else {
      Pow2Monotone(64, t.mantissa);
      assert Pow2(64) == 2 * Pow2(63);
    }
  }

  /** The maximum of a floating point type is refused if and only if a field is too wide. */
  lemma RefusedExactly(t: ScalarType)
    requires t.exponent > 0
    ensures MaxInt(t) == None <==>
              t.mantissa > 52 || t.exponent > 11 || (t.exponent == 11 && t.nanRepr != IEEE_754)
  {
  }

  lemma MaximumOf(t: ScalarType, significand: nat, k: nat, value: nat, unit: nat)
    requires HasMaximum(t) && unit == UNIT_EXPONENT && value == Shl(significand, k)
    requires significand == Pow2(t.mantissa) + MaxMantissa(t)
    requires k + unit == DOUBLE_MANTISSA - t.mantissa + MaxExponentDouble(t) - 1
    ensures ReadDouble(MaxBits(t)) == Binary(false, Shl(value, unit))
  {
    NoSign(t);
    ReadMaxBits(t, 0);
    ShlTwice(significand, k, unit);
  }

  /** The maxima of the predefined small formats, in units of the least positive double. */
  lemma KnownMaxima(unit: nat)
    requires unit == UNIT_EXPONENT
    ensures ReadDouble(MaxBits(ScalarType(4, 3, true, 0, true, EXTD_RANGE_MAX_MIN))) == Binary(false, Shl(448, unit))
    ensures ReadDouble(MaxBits(ScalarType(5, 2, true, 0, false, IEEE_754))) == Binary(false, Shl(57344, unit))
    ensures ReadDouble(MaxBits(ScalarType(3, 2, true, 0, true, NONE))) == Binary(false, Shl(28, unit))
    ensures ReadDouble(MaxBits(ScalarType(2, 1, true, 0, true, NONE))) == Binary(false, Shl(6, unit))
  {
    MaximumOf(ScalarType(4, 3, true, 0, true, EXTD_RANGE_MAX_MIN), 14, 5, 448, unit);
    MaximumOf(ScalarType(5, 2, true, 0, false, IEEE_754), 7, 13, 57344, unit);
    MaximumOf(ScalarType(3, 2, true, 0, true, NONE), 7, 2, 28, unit);
    MaximumOf(ScalarType(2, 1, true, 0, true, NONE), 3, 1, 6, unit);
  }
}
