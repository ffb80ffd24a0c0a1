/** Descriptions of scalar types: packing into an integer, and the greatest and least values. */
module ScalarTypes {
  import opened Options
  import opened Numbers

  datatype NanRepr = NONE | IEEE_754 | EXTD_RANGE_MAX_MIN

  datatype ScalarType = ScalarType(
    exponent: nat, mantissa: nat, signed: bool, bias: int, finiteValuesOnly: bool, nanRepr: NanRepr)

  // ---------- Bits ----------

  /** `x << n` */
  function Shl(x: int, n: nat): (r: int)
    ensures x >= 0 ==> r >= 0
  {
    if n == 0 then x else 2 * Shl(x, n - 1)
  }

  lemma {:induction false} ShlIsProduct(x: nat, n: nat)
    ensures Shl(x, n) == x * Pow2(n)
  {
    if n > 0 {
      ShlIsProduct(x, n - 1);
      assert x * (2 * Pow2(n - 1)) == 2 * (x * Pow2(n - 1));
    }
  }

  lemma {:induction false} ShlZero(n: nat)
    ensures Shl(0, n) == 0
  {
    if n > 0 { ShlZero(n - 1); }
  }

  lemma {:induction false} ShlOne(a: nat, n: nat)
    ensures Shl(Pow2(a), n) == Pow2(a + n)
  {
    if n > 0 { ShlOne(a, n - 1); }
  }

  lemma {:induction false} ShlSum(x: nat, y: nat, n: nat)
    ensures Shl(x + y, n) == Shl(x, n) + Shl(y, n)
  {
    if n > 0 { ShlSum(x, y, n - 1); }
  }

  lemma {:induction false} ShlTwice(x: nat, a: nat, b: nat)
    ensures Shl(Shl(x, a), b) == Shl(x, a + b)
  {
    if b > 0 { ShlTwice(x, a, b - 1); }
  }

  lemma {:induction false} ShlMonotone(x: nat, y: nat, a: nat, b: nat)
    requires x <= y && a <= b
    ensures Shl(x, a) <= Shl(y, b)
    decreases b
  {
    if a < b {
      ShlMonotone(x, y, a, b - 1);
    } else if b > 0 {
      ShlMonotone(x, y, a - 1, b - 1);
    }
  }

  /** `a | b`, bit by bit; a negative integer has infinitely many leading ones. */
  function Or(a: int, b: nat): (r: int)
    ensures a >= 0 ==> r >= 0
    decreases b
  {
    if a == 0 then b
    else if b == 0 then a
    else (if a % 2 == 1 || b % 2 == 1 then 1 else 0) + 2 * Or(a / 2, b / 2)
  }

  /** `x & ((1 << n) - 1)`; a negative integer is masked in two's complement. */
  function LowBits(x: int, n: nat): (r: nat)
    ensures r < Pow2(n)
  {
    x % Pow2(n)
  }

  /** Disjoint bits: the union is the sum. */
  lemma {:induction false} OrOfDisjoint(a: nat, b: nat, n: nat)
    requires a < Pow2(n)
    ensures Or(a, Shl(b, n)) == a + Shl(b, n)
  {
    if n > 0 {
      OrOfDisjoint(a / 2, b, n - 1);
    }
  }

  lemma {:induction false} OrOfMinusOne(b: nat)
    ensures Or(-1, b) == -1
  {
    if b > 0 { OrOfMinusOne(b / 2); }
  }

  /** The leading ones of a shifted minus one absorb the bits above them. */
  lemma {:induction false} OrOfLeadingOnes(b: nat, n: nat)
    ensures Or(Shl(-1, n), Shl(b, n)) == Shl(-1, n) < 0
  {
    if n == 0 {
      OrOfMinusOne(b);
    } else {
      OrOfLeadingOnes(b, n - 1);
    }
  }

  // ---------- The integer id ----------

  /** A member and the width of its field. */
  datatype Member = Member(value: int, width: nat)

  function Width(ms: seq<Member>): nat {
    if ms == [] then 0 else ms[0].width + Width(ms[1..])
  }

  /** The fields side by side, from the least significant end. */
  function Packed(ms: seq<Member>): nat {
    if ms == [] then 0 else LowBits(ms[0].value, ms[0].width) + Shl(Packed(ms[1..]), ms[0].width)
  }

  lemma FitsAbove(low: nat, high: nat, n: nat, p: nat)
    requires low < p && high < n
    ensures low + high * p < p * n
  {
    assert (high + 1) * p <= n * p;
  }

  lemma {:induction false} PackedFits(ms: seq<Member>)
    ensures Packed(ms) < Pow2(Width(ms))
  {
    if ms != [] {
      PackedFits(ms[1..]);
      Pow2Add(ms[0].width, Width(ms[1..]));
      ShlIsProduct(Packed(ms[1..]), ms[0].width);
      FitsAbove(LowBits(ms[0].value, ms[0].width), Packed(ms[1..]), Pow2(Width(ms[1..])), Pow2(ms[0].width));
    }
  }

  lemma {:induction false} PackedAppend(ms: seq<Member>, m: Member)
    ensures Packed(ms + [m]) == Packed(ms) + Shl(LowBits(m.value, m.width), Width(ms))
    ensures Width(ms + [m]) == Width(ms) + m.width
  {
    if ms == [] {
      assert ms + [m] == [m];
      ShlZero(m.width);
    } else {
      var rest := ms[1..];
      PackedAppend(rest, m);
      assert (ms + [m])[0] == ms[0] && (ms + [m])[1..] == rest + [m];
      ShlSum(Packed(rest), Shl(LowBits(m.value, m.width), Width(rest)), ms[0].width);
      ShlTwice(LowBits(m.value, m.width), Width(rest), ms[0].width);
    }
  }

  function NanCode(n: NanRepr): nat {
    match n case NONE => 0 case IEEE_754 => 1 case EXTD_RANGE_MAX_MIN => 2
  }

  function Bit(b: bool): nat { if b then 1 else 0 }

  const BYTE: nat := 8
  const FLAG: nat := 1
  const WORD: nat := 32
  const ID_BITS: nat := 58

  function Members(t: ScalarType): seq<Member> {
    [Member(t.exponent, BYTE), Member(t.mantissa, BYTE), Member(Bit(t.signed), FLAG), Member(t.bias, WORD),
     Member(Bit(t.finiteValuesOnly), FLAG), Member(NanCode(t.nanRepr), BYTE)]
  }

  lemma IdFits(t: ScalarType)
    ensures Packed(Members(t)) < Pow2(ID_BITS)
  {
    PackedFits(Members(t));
    WidthOfSix(Members(t));
  }

  lemma WidthOfSix(ms: seq<Member>)
    requires |ms| == 6
    ensures Width(ms) == ms[0].width + ms[1].width + ms[2].width + ms[3].width + ms[4].width + ms[5].width
  {
    WidthFrom(ms, 5);
    WidthFrom(ms, 4);
    WidthFrom(ms, 3);
    WidthFrom(ms, 2);
    WidthFrom(ms, 1);
  }

  lemma WidthFrom(ms: seq<Member>, k: nat)
    requires k < |ms|
    ensures Width(ms[k..]) == ms[k].width + Width(ms[k + 1..])
  {
    assert ms[k..][1..] == ms[k + 1..];
  }

  /** Puts a member at the current offset and advances by its width; `done` are the members so far. */
  method OrAndAdvance(val: nat, offset: nat, member: int, bitWidth: nat, ghost done: seq<Member>)
    returns (val': nat, offset': nat)
    requires val == Packed(done) && offset == Width(done)
    ensures val' == Packed(done + [Member(member, bitWidth)])
    ensures offset' == Width(done + [Member(member, bitWidth)]) == offset + bitWidth
  {
    PackedFits(done);
    PackedAppend(done, Member(member, bitWidth));
    OrOfDisjoint(val, LowBits(member, bitWidth), offset);
    val' := Or(val, Shl(LowBits(member, bitWidth), offset));
    offset' := offset + bitWidth;
  }

  /** The id of a type: all members packed. */
  method Id(t: ScalarType) returns (val: nat)
    ensures val == Packed(Members(t)) < Pow2(ID_BITS)
  {
    ghost var ms := Members(t);
    var offset: nat := 0;
    val := 0;
    val, offset := OrAndAdvance(val, offset, t.exponent, BYTE, ms[..0]);
    assert ms[..1] == ms[..0] + [ms[0]];
    val, offset := OrAndAdvance(val, offset, t.mantissa, BYTE, ms[..1]);
    assert ms[..2] == ms[..1] + [ms[1]];
    val, offset := OrAndAdvance(val, offset, Bit(t.signed), FLAG, ms[..2]);
    assert ms[..3] == ms[..2] + [ms[2]];
    val, offset := OrAndAdvance(val, offset, t.bias, WORD, ms[..3]);
    assert ms[..4] == ms[..3] + [ms[3]];
    val, offset := OrAndAdvance(val, offset, Bit(t.finiteValuesOnly), FLAG, ms[..4]);
    assert ms[..5] == ms[..4] + [ms[4]];
    val, offset := OrAndAdvance(val, offset, NanCode(t.nanRepr), BYTE, ms[..5]);
    assert ms == ms[..5] + [ms[5]];
    assert offset <= 64;
    IdFits(t);
  }

  /** The `width` bits of `id` from `offset` on. */
  function Field(id: nat, offset: nat, width: nat): nat {
    (id / Pow2(offset)) % Pow2(width)
  }

  lemma Times(a: nat, b: nat, d: nat)
    requires a <= b
    ensures a * d <= b * d
  {
  }

  lemma QuotientIs(x: nat, d: nat, e: nat, r: nat)
    requires d > 0 && x == e * d + r && r < d
    ensures x / d == e
  {
    var e' := x / d;
    assert e' * d <= x < e' * d + d;
    if e < e' {
      Times(e + 1, e', d);
    } else if e' < e {
      Times(e' + 1, e, d);
    }
  }

  lemma ShiftTwice(high: nat, x: nat, p: nat, q: nat)
    ensures (high + x * q) * p == high * p + x * (p * q)
  {
    assert (x * q) * p == x * (p * q);
  }

  lemma DropLow(low: nat, high: nat, p: nat, q: nat)
    requires low < p && q > 0
    ensures (low + high * p) % p == low
    ensures p * q > 0 && (low + high * p) / (p * q) == high / q
  {
    QuotientIs(low + high * p, p, high, low);
    var e, r := high / q, high % q;
    FitsAbove(low, r, q, p);
    ShiftTwice(r, e, p, q);
    assert high == r + e * q;
    QuotientIs(low + high * p, p * q, e, low + r * p);
  }

  /** Reading a field back gives its member, reduced to its width. */
  lemma {:induction false} FieldOfPacked(ms: seq<Member>, k: nat)
    requires k < |ms|
    ensures Field(Packed(ms), Width(ms[..k]), ms[k].width) == LowBits(ms[k].value, ms[k].width)
  {
    var low, high, p := LowBits(ms[0].value, ms[0].width), Packed(ms[1..]), Pow2(ms[0].width);
    ShlIsProduct(high, ms[0].width);
    if k == 0 {
      DropLow(low, high, p, 1);
    } else {
      var q := Pow2(Width(ms[1..][..k - 1]));
      FieldOfPacked(ms[1..], k - 1);
      assert ms[..k][1..] == ms[1..][..k - 1];
      Pow2Add(ms[0].width, Width(ms[1..][..k - 1]));
      DropLow(low, high, p, q);
    }
  }

  /** Two member lists of the same widths pack to the same integer exactly when the members agree,
      reduced to their widths. */
  lemma {:induction false} SamePacked(ms: seq<Member>, ns: seq<Member>)
    requires |ms| == |ns| && forall k :: 0 <= k < |ms| ==> ms[k].width == ns[k].width
    ensures Packed(ms) == Packed(ns) <==>
            forall k :: 0 <= k < |ms| ==> SameMember(ms[k], ns[k])
  {
    if ms != [] {
      var p := Pow2(ms[0].width);
      SamePacked(ms[1..], ns[1..]);
      ShlIsProduct(Packed(ms[1..]), ms[0].width);
      ShlIsProduct(Packed(ns[1..]), ns[0].width);
      DropLow(LowBits(ms[0].value, ms[0].width), Packed(ms[1..]), p, 1);
      DropLow(LowBits(ns[0].value, ns[0].width), Packed(ns[1..]), p, 1);
      QuotientIs(Packed(ms), p, Packed(ms[1..]), LowBits(ms[0].value, ms[0].width));
      QuotientIs(Packed(ns), p, Packed(ns[1..]), LowBits(ns[0].value, ns[0].width));
      assert forall k :: 0 <= k < |ms[1..]| ==> ms[1..][k] == ms[k + 1] && ns[1..][k] == ns[k + 1];
      assert forall k :: 0 < k < |ms| ==> ms[k] == ms[1..][k - 1] && ns[k] == ns[1..][k - 1];
    }
  }

  /** Two types share an id exactly when they agree up to the widths of their fields. */
  lemma SameId(t: ScalarType, u: ScalarType)
    ensures Packed(Members(t)) == Packed(Members(u)) <==>
              && LowBits(t.exponent, BYTE) == LowBits(u.exponent, BYTE)
              && LowBits(t.mantissa, BYTE) == LowBits(u.mantissa, BYTE)
              && LowBits(t.bias, WORD) == LowBits(u.bias, WORD)
              && t.signed == u.signed && t.finiteValuesOnly == u.finiteValuesOnly && t.nanRepr == u.nanRepr
  {
    SamePacked(Members(t), Members(u));
    SixMembers(Members(t), Members(u));
    SmallCodes(t);
    SmallCodes(u);
  }

  predicate SameMember(m: Member, n: Member) {
    LowBits(m.value, m.width) == LowBits(n.value, m.width)
  }

  lemma SixMembers(ms: seq<Member>, ns: seq<Member>)
    requires |ms| == |ns| == 6
    ensures (forall k :: 0 <= k < |ms| ==> SameMember(ms[k], ns[k])) <==>
              && SameMember(ms[0], ns[0]) && SameMember(ms[1], ns[1]) && SameMember(ms[2], ns[2])
              && SameMember(ms[3], ns[3]) && SameMember(ms[4], ns[4]) && SameMember(ms[5], ns[5])
  {
  }

  lemma SmallCodes(t: ScalarType)
    ensures LowBits(Bit(t.signed), FLAG) == Bit(t.signed)
    ensures LowBits(Bit(t.finiteValuesOnly), FLAG) == Bit(t.finiteValuesOnly)
    ensures LowBits(NanCode(t.nanRepr), BYTE) == NanCode(t.nanRepr)
  {
    assert Pow2(1) == 2 && Pow2(8) == 256;
  }

  // ---------- Reading an id back ----------

  /** Field `k` of an id, located by the widths of the members before it. */
  function FieldAt(id: nat, k: nat): nat
    requires k < 6
  {
    var dummy := Members(ScalarType(0, 0, false, 0, false, NONE));
    Field(id, Width(dummy[..k]), dummy[k].width)
  }

  function Signed(x: nat, width: nat): int
    requires width > 0
  {
    if x < Pow2(width - 1) then x else x - Pow2(width)
  }

  /** The C++ `from_id`; a code beyond the enumeration is not produced by `id`. */
  function FromId(id: nat): Option<ScalarType> {
    var nan := FieldAt(id, 5);
    if nan > 2 then None
    else Some(ScalarType(FieldAt(id, 0), FieldAt(id, 1), FieldAt(id, 2) == 1, Signed(FieldAt(id, 3), WORD),
                         FieldAt(id, 4) == 1,
                         if nan == 0 then NONE else if nan == 1 then IEEE_754 else EXTD_RANGE_MAX_MIN))
  }

  lemma {:induction false} WidthOfSame(ms: seq<Member>, ns: seq<Member>)
    requires |ms| == |ns| && forall k :: 0 <= k < |ms| ==> ms[k].width == ns[k].width
    ensures Width(ms) == Width(ns)
  {
    if ms != [] { WidthOfSame(ms[1..], ns[1..]); }
  }

  lemma FieldAtOfId(t: ScalarType, k: nat)
    requires k < 6
    ensures FieldAt(Packed(Members(t)), k) == LowBits(Members(t)[k].value, Members(t)[k].width)
  {
    var ms, dummy := Members(t), Members(ScalarType(0, 0, false, 0, false, NONE));
    WidthOfSame(ms[..k], dummy[..k]);
    FieldOfPacked(ms, k);
  }

  /** The value fits an unsigned, or a signed, field of the given width. */
  predicate FitsUnsigned(x: int, width: nat) {
    0 <= x < Pow2(width)
  }

  predicate FitsSigned(x: int, width: nat)
    requires width > 0
  {
    0 <= x + Pow2(width - 1) < Pow2(width)
  }

  /** Member values the fields have room for, as in the C++ declaration. */
  predicate InRange(t: ScalarType) {
    FitsUnsigned(t.exponent, BYTE) && FitsUnsigned(t.mantissa, BYTE) && FitsSigned(t.bias, WORD)
  }

  lemma Remainder(x: int, p: nat)
    requires p > 0
    ensures 0 <= x < p ==> x % p == x
    ensures 0 <= x + p < p ==> x % p == x + p
  {
    var d, r := x / p, x % p;
    assert x == d * p + r;
    TimesInt(0, d, p);
    TimesInt(1, d, p);
    TimesInt(d, -1, p);
    TimesInt(d, -2, p);
  }

  lemma TimesInt(a: int, b: int, d: nat)
    ensures a <= b ==> a * d <= b * d
  {
  }

  lemma UnsignedOfLow(x: int, width: nat)
    ensures LowBits(x, width) == x <==> FitsUnsigned(x, width)
  {
    Remainder(x, Pow2(width));
  }

  lemma SignedOfLow(x: int, width: nat)
    requires width > 0
    ensures Signed(LowBits(x, width), width) == x <==> FitsSigned(x, width)
  {
    Remainder(x, Pow2(width));
    assert Pow2(width) == 2 * Pow2(width - 1);
  }

  /** The id of a type reads back as that type exactly when its members fit their fields. */
  lemma FromIdOfId(t: ScalarType)
    ensures FromId(Packed(Members(t))) == Some(t) <==> InRange(t)
  {
    FieldAtOfId(t, 0);
    FieldAtOfId(t, 1);
    FieldAtOfId(t, 2);
    FieldAtOfId(t, 3);
    FieldAtOfId(t, 4);
    FieldAtOfId(t, 5);
    SmallCodes(t);
    UnsignedOfLow(t.exponent, BYTE);
    UnsignedOfLow(t.mantissa, BYTE);
    SignedOfLow(t.bias, WORD);
  }
}
