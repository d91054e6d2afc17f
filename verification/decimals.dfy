/** System.Decimal as the ledger engine uses it: exact values with a scale,
    the .NET rules for the scale of a sum, difference and product, rounding
    half away from zero, and the text forms read by TryParse and written by
    ToString. Precision is unbounded here (see README, Left out). */
module Decimals {
  import opened Wrappers
  import opened Text

  /** The Decimal m * 10^-e. The scale e is kept as .NET keeps it: 1.50 and 1.5
      are different Decimals that compare equal and print differently. */
  datatype Dec = Dec(m: int, e: nat)

  /** n / p as an exact number. */
  function Ratio(n: int, p: nat): real
    requires p >= 1
  {
    n as real / p as real
  }

  lemma RatioScale(n: int, p: nat, k: nat)
    requires p >= 1 && k >= 1
    ensures Ratio(n * k, p * k) == Ratio(n, p)
  {
    assert (n * k) as real == n as real * k as real;
    assert (p * k) as real == p as real * k as real;
  }

  lemma RatioRescale(n: int, p: nat, k: nat, big: nat)
    requires p >= 1 && k >= 1 && big == k * p
    ensures Ratio(n * k, big) == Ratio(n, p)
  {
    RatioScale(n, p, k);
  }

  lemma RatioAdd(a: int, b: int, p: nat)
    requires p >= 1
    ensures Ratio(a, p) + Ratio(b, p) == Ratio(a + b, p)
  {
  }

  lemma RatioLess(a: int, b: int, p: nat)
    requires p >= 1
    ensures Ratio(a, p) < Ratio(b, p) <==> a < b
  {
    RatioAdd(b, -a, p);
  }

  lemma RatioMul(a: int, p: nat, b: int, q: nat)
    requires p >= 1 && q >= 1
    ensures Ratio(a, p) * Ratio(b, q) == Ratio(a * b, p * q)
  {
    assert (a * b) as real == a as real * b as real;
    assert (p * q) as real == p as real * q as real;
  }

  /** The number a Decimal stands for. */
  function Val(d: Dec): real {
    Ratio(d.m, Pow10(d.e))
  }

  /** The literal 0 (scale 0), as in `buy.UnitQty = 0`. */
  const Zero: Dec := Dec(0, 0)

  /** The literal -1 of `entry.UnitQty *= -1`. */
  const MinusOne: Dec := Dec(-1, 0)

  function Abs(x: int): nat {
    if x < 0 then -x else x
  }

  function AbsR(x: real): real {
    if x < 0.0 then -x else x
  }

  /** The mantissa of d rewritten at the larger scale e. */
  function Align(d: Dec, e: nat): int
    requires d.e <= e
  {
    if e == d.e then d.m else 10 * Align(d, e - 1)
  }

  lemma {:induction false} AlignScales(d: Dec, e: nat)
    requires d.e <= e
    ensures Align(d, e) == d.m * Pow10(e - d.e)
  {
    if e > d.e {
      AlignScales(d, e - 1);
    }
  }

  lemma ValAligned(d: Dec, e: nat)
    requires d.e <= e
    ensures Val(d) == Ratio(Align(d, e), Pow10(e))
  {
    AlignScales(d, e);
    Pow10Add(e - d.e, d.e);
    RatioRescale(d.m, Pow10(d.e), Pow10(e - d.e), Pow10(e));
  }

  /** The scale of a sum or difference: the larger of the two. */
  function CommonScale(a: Dec, b: Dec): nat {
    if a.e >= b.e then a.e else b.e
  }

  /* The operations below state their scale in their contracts and their
     value in a lemma beside them, so that code built on Decimals meets
     real arithmetic only where a proof asks for it. */

  /** Decimal addition (a + b). */
  function Add(a: Dec, b: Dec): (r: Dec)
    ensures r.e == CommonScale(a, b)
  {
    var e := CommonScale(a, b);
    Dec(Align(a, e) + Align(b, e), e)
  }

  lemma AddVal(a: Dec, b: Dec)
    ensures Val(Add(a, b)) == Val(a) + Val(b)
  {
    var e := CommonScale(a, b);
    ValAligned(a, e);
    ValAligned(b, e);
    RatioAdd(Align(a, e), Align(b, e), Pow10(e));
  }

  /** Decimal negation; also the product with the literal -1. */
  function Neg(a: Dec): (r: Dec)
    ensures r.e == a.e
  {
    Dec(-a.m, a.e)
  }

  lemma NegVal(a: Dec)
    ensures Val(Neg(a)) == -Val(a)
  {
    RatioAdd(a.m, -a.m, Pow10(a.e));
  }

  /** Decimal subtraction (a - b). */
  function Sub(a: Dec, b: Dec): (r: Dec)
    ensures r.e == CommonScale(a, b)
  {
    Add(a, Neg(b))
  }

  lemma SubVal(a: Dec, b: Dec)
    ensures Val(Sub(a, b)) == Val(a) - Val(b)
  {
    AddVal(a, Neg(b));
    NegVal(b);
  }

  /** Decimal multiplication (a * b): mantissas multiply, scales add. */
  function Mul(a: Dec, b: Dec): (r: Dec)
    ensures r.e == a.e + b.e
  {
    Dec(a.m * b.m, a.e + b.e)
  }

  lemma MulVal(a: Dec, b: Dec)
    ensures Val(Mul(a, b)) == Val(a) * Val(b)
  {
    Pow10Add(a.e, b.e);
    RatioMul(a.m, Pow10(a.e), b.m, Pow10(b.e));
  }

  /** Multiplying by the literal -1 negates the mantissa and keeps the scale. */
  lemma TimesMinusOne(d: Dec)
    ensures Mul(d, MinusOne) == Neg(d)
  {
  }

  /** a < b on Decimals, which compares values. */
  predicate Less(a: Dec, b: Dec) {
    var e := CommonScale(a, b);
    Align(a, e) < Align(b, e)
  }

  /** a == b on Decimals, which compares values. */
  predicate SameValue(a: Dec, b: Dec) {
    var e := CommonScale(a, b);
    Align(a, e) == Align(b, e)
  }

  /** The comparisons compare values, whatever the scales. */
  lemma CompareVal(a: Dec, b: Dec)
    ensures Less(a, b) <==> Val(a) < Val(b)
    ensures SameValue(a, b) <==> Val(a) == Val(b)
  {
    var e := CommonScale(a, b);
    ValAligned(a, e);
    ValAligned(b, e);
    RatioLess(Align(a, e), Align(b, e), Pow10(e));
    RatioLess(Align(b, e), Align(a, e), Pow10(e));
  }

  /** x < 0 */
  predicate IsNegative(a: Dec) {
    a.m < 0
  }

  /** x > 0 */
  predicate IsPositive(a: Dec) {
    a.m > 0
  }

  /** The sign tests compare the value with zero. */
  lemma SignVal(a: Dec)
    ensures IsNegative(a) <==> Val(a) < 0.0
    ensures IsPositive(a) <==> Val(a) > 0.0
  {
    RatioLess(a.m, 0, Pow10(a.e));
    RatioLess(0, a.m, Pow10(a.e));
  }

  /** Decimal.Round(d, places, MidpointRounding.AwayFromZero). A value that
      already has at most `places` fraction digits is returned as it is. */
  function Round(d: Dec, places: nat): (r: Dec)
    ensures r.e == if d.e <= places then d.e else places
  {
    if d.e <= places then d
    else
      var k := Pow10(d.e - places);
      var q := DivNat(Abs(d.m) + DivNat(k, 2), k);
      var m: int := if d.m < 0 then -(q as int) else q;
      Dec(m, places)
  }

  /** Adding half the divisor before dividing lands within half a divisor of
      a, and on the far side of a when exactly halfway. */
  lemma RoundStep(a: nat, k: nat, h: nat)
    requires h >= 1 && k == 2 * h
    ensures var q := DivNat(a + DivNat(k, 2), k);
      && 2 * Abs(a - q * k) <= k
      && (2 * Abs(a - q * k) == k ==> q * k > a)
  {
    DivMod(k, 2);
    assert DivNat(k, 2) == h;
    DivMod(a + h, k);
  }

  /** Rounding to `places` digits keeps a value that has no more digits than
      that; otherwise, with k = 10^(e - places) units of d per unit of the
      result, it picks the nearest multiple within half a unit, the one
      farther from zero when exactly halfway, and keeps the sign. */
  lemma RoundNearest(d: Dec, places: nat)
    ensures d.e <= places ==> Round(d, places) == d
    ensures d.e > places ==>
      var k := Pow10(d.e - places);
      var r := Round(d, places);
      && 2 * Abs(d.m - r.m * k) <= k
      && (2 * Abs(d.m - r.m * k) == k ==> Abs(r.m) * k > Abs(d.m))
      && (d.m >= 0 ==> r.m >= 0) && (d.m < 0 ==> r.m <= 0)
  {
    if d.e > places {
      var k := Pow10(d.e - places);
      var h := 5 * Pow10(d.e - places - 1);
      assert k == 2 * h;
      RoundInt(d.m, Round(d, places).m, k, h);
    }
  }

  /** RoundNearest on plain integers: m divided by k = 2h, half away from zero. */
  lemma RoundInt(m: int, rm: int, k: nat, h: nat)
    requires h >= 1 && k == 2 * h
    requires var q := DivNat(Abs(m) + DivNat(k, 2), k);
      rm == if m < 0 then -(q as int) else q
    ensures 2 * Abs(m - rm * k) <= k
    ensures 2 * Abs(m - rm * k) == k ==> Abs(rm) * k > Abs(m)
    ensures (m >= 0 ==> rm >= 0) && (m < 0 ==> rm <= 0)
  {
    var q := DivNat(Abs(m) + DivNat(k, 2), k);
    RoundStep(Abs(m), k, h);
    SignedDistance(m, rm, q, k);
  }

  /** The distance between m and rm * k, where rm carries the sign of m and
      the magnitude q, is the distance between their magnitudes. */
  lemma SignedDistance(m: int, rm: int, q: nat, k: nat)
    requires rm == if m < 0 then -(q as int) else q
    ensures Abs(m - rm * k) == Abs(Abs(m) - q * k)
    ensures Abs(rm) * k == q * k
  {
  }

  /** Rounding commutes with negation: the half-away-from-zero rule is symmetric. */
  lemma RoundNeg(d: Dec, places: nat)
    ensures Round(Neg(d), places) == Neg(Round(d, places))
  {
  }

  /** Rounding keeps the sign of a non-negative value. */
  lemma RoundNonNegative(d: Dec, places: nat)
    requires Val(d) >= 0.0
    ensures Val(Round(d, places)) >= 0.0
  {
  }

  /** Decimal.ToString(): a minus sign, the integer digits, and, for a
      positive scale, a point followed by exactly `e` fraction digits. */
  function ToText(d: Dec): string {
    var body := MagnitudeText(Abs(d.m), d.e);
    if d.m < 0 then "-" + body else body
  }

  /** The digits of a / 10^e, then, for a positive e, a point and a % 10^e
      written with exactly e digits. */
  function MagnitudeText(a: nat, e: nat): string {
    NatToText(DivNat(a, Pow10(e)))
    + (if e == 0 then "" else "." + PadLeft(NatToText(ModNat(a, Pow10(e))), e))
  }

  /** The optional exponent part "e[sign]digits" at the end of a number. */
  function ParseExponent(t: string): (r: Option<int>)
    ensures t == [] ==> r == Some(0)
  {
    if t == [] then Some(0)
    else if t[0] != 'e' && t[0] != 'E' then None
    else
      var u := t[1..];
      var digits := if |u| > 0 && (u[0] == '-' || u[0] == '+') then u[1..] else u;
      if digits != [] && AllDigits(digits) then
        Some(if |u| > 0 && u[0] == '-' then -(DigitsValue(digits) as int) else DigitsValue(digits))
      else None
  }

  /** The Decimal with the given mantissa whose value is mantissa * 10^shift:
      scale -shift when the shift is negative, scale 0 otherwise. */
  function Shifted(mantissa: int, shift: int): (d: Dec)
    ensures shift <= 0 ==> d == Dec(mantissa, -shift)
  {
    if shift > 0 then Dec(mantissa * Pow10(shift), 0) else Dec(mantissa, -shift)
  }

  /** The digits of a number without its sign: integer digits, then an optional
      point with fraction digits, then what follows. */
  datatype Unsigned = Unsigned(whole: string, frac: string, tail: string)

  function ScanUnsigned(body: string): (u: Unsigned)
    ensures AllDigits(u.whole) && AllDigits(u.frac)
  {
    var whole := TakeDigits(body);
    var afterWhole := body[|whole|..];
    if |afterWhole| > 0 && afterWhole[0] == '.' then
      var frac := TakeDigits(afterWhole[1..]);
      Unsigned(whole, frac, afterWhole[1 + |frac|..])
    else Unsigned(whole, "", afterWhole)
  }

  /** Decimal.TryParse(s, NumberStyles.Number | NumberStyles.AllowExponent,
      CultureInfo.InvariantCulture), restricted to the form
      [+|-] digits [. digits] [(e|E) [+|-] digits] with at least one mantissa digit.
      The scale is the number of fraction digits less the exponent, never below 0. */
  function ParseDecimal(s: string): Option<Dec> {
    if |s| > 0 && (s[0] == '-' || s[0] == '+') then ParseUnsigned(s[1..], s[0] == '-')
    else ParseUnsigned(s, false)
  }

  function Signed(negative: bool, magnitude: nat): int {
    if negative then -(magnitude as int) else magnitude
  }

  /** The number after its sign has been read. */
  function ParseUnsigned(body: string, negative: bool): Option<Dec> {
    var u := ScanUnsigned(body);
    var exp := ParseExponent(u.tail);
    if |u.whole| + |u.frac| == 0 || exp.None? then None
    else
      AllDigitsAppend(u.whole, u.frac);
      var magnitude := DigitsValue(u.whole + u.frac);
      Some(Shifted(Signed(negative, magnitude), exp.value - |u.frac|))
  }

  lemma ScanShape(w: string, f: string)
    requires |w| >= 1 && AllDigits(w) && AllDigits(f)
    ensures ScanUnsigned(w + (if f == [] then "" else "." + f)) == Unsigned(w, f, "")
  {
    var rest := if f == [] then "" else "." + f;
    TakeDigitsOf(w, rest);
    assert (w + rest)[|w|..] == rest;
    if f != [] {
      assert rest[1..] == f + "";
      TakeDigitsOf(f, "");
      assert rest[1 + |f|..] == "";
    }
  }

  /** Integer digits w, then a point and fraction digits f when f is not empty,
      read as a number of scale |f|. */
  lemma ParseUnsignedShape(t: string, w: string, f: string, negative: bool)
    requires |w| >= 1 && AllDigits(w) && AllDigits(f)
    requires t == w + (if f == [] then "" else "." + f)
    ensures AllDigits(w + f)
    ensures ParseUnsigned(t, negative) == Some(Dec(Signed(negative, DigitsValue(w + f)), |f|))
  {
    AllDigitsAppend(w, f);
    var u := ScanUnsigned(t);
    assert u == Unsigned(w, f, "") by { ScanShape(w, f); }
    assert ParseExponent(u.tail) == Some(0);
    var magnitude := DigitsValue(u.whole + u.frac);
    var m := Signed(negative, magnitude);
    assert Shifted(m, 0 - |u.frac|) == Dec(m, |f|);
    var r := ParseUnsigned(t, negative);
    assert r.Some?;
    assert r.value.m == m;
    assert r.value.e == |f|;
  }

  /** Text that starts with a digit reads as its unsigned number, and
      after a minus sign as its negation. */
  lemma ParseSign(t: string)
    requires |t| > 0 && IsDigit(t[0])
    ensures ParseDecimal(t) == ParseUnsigned(t, false)
    ensures ParseDecimal("-" + t) == ParseUnsigned(t, true)
  {
    assert ("-" + t)[1..] == t;
  }

  /** What ToString writes, TryParse reads back as the same Decimal, scale included. */
  lemma ParseToText(d: Dec)
    ensures ParseDecimal(ToText(d)) == Some(d)
  {
    var a := Abs(d.m);
    var p := Pow10(d.e);
    var q := DivNat(a, p);
    var r := ModNat(a, p);
    var w := NatToText(q);
    var f := if d.e == 0 then "" else PadLeft(NatToText(r), d.e);
    var t := MagnitudeText(a, d.e);
    DivMod(a, p);
    if d.e == 0 {
      assert p == 1;
      assert q == a;
      assert f == "";
      assert DigitsValue(f) == 0;
    } else {
      NatToTextLength(r, d.e);
      PadLeftValue(NatToText(r), d.e);
      assert DigitsValue(f) == r;
    }
    assert |f| == d.e;
    assert Pow10(|f|) == p;
    assert t == w + (if f == [] then "" else "." + f);
    ParseUnsignedShape(t, w, f, d.m < 0);
    assert t[0] == w[0];
    ParseSign(t);
    JoinedValue(w, f, a, p, q, r);
    assert Signed(d.m < 0, a) == d.m;
  }

  /** Integer digits for a / p followed by |f| fraction digits for a % p, where
      p == 10^|f|, read back as the digit string of a. */
  lemma JoinedValue(w: string, f: string, a: nat, p: nat, q: nat, r: nat)
    requires AllDigits(w) && AllDigits(f)
    requires DigitsValue(w) == q && DigitsValue(f) == r && Pow10(|f|) == p
    requires a == p * q + r
    ensures AllDigits(w + f) && DigitsValue(w + f) == a
  {
    DigitsValueAppend(w, f);
    var x := DigitsValue(w);
    var y := DigitsValue(f);
    var z := Pow10(|f|);
    assert DigitsValue(w + f) == x * z + y;
  }

  /** The text of a Decimal never holds a comma, so it is one CSV field. */
  lemma ToTextHasNoComma(d: Dec)
    ensures ',' !in ToText(d)
  {
    var a := Abs(d.m);
    var w := NatToText(DivNat(a, Pow10(d.e)));
    assert ',' !in w by {
      forall i | 0 <= i < |w| ensures w[i] != ',' { assert IsDigit(w[i]); }
    }
    if d.e > 0 {
      var f := PadLeft(NatToText(ModNat(a, Pow10(d.e))), d.e);
      PadLeftValue(NatToText(ModNat(a, Pow10(d.e))), d.e);
      assert ',' !in f by {
        forall i | 0 <= i < |f| ensures f[i] != ',' { assert IsDigit(f[i]); }
      }
      assert MagnitudeText(a, d.e) == w + ("." + f);
    }
  }
}
