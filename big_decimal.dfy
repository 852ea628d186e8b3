/**
 * The text `String.valueOf` gives a java.math.BigDecimal (its `toString`,
 * which lays the value out from the unscaled coefficient and the scale), and
 * a reader for that text in plain and in scientific notation. The create-order body carries
 * the amount in exactly this text.
 */
module BigDecimals {
  import opened Numerals
  import opened Options
  import opened Text

  /** A BigDecimal denotes `unscaled` times ten to the power `-scale`. */
  datatype BigDecimal = BigDecimal(unscaled: int, scale: int)

  function Magnitude(x: int): nat {
    if x < 0 then -x else x
  }

  /** The digits of the coefficient, without its sign. */
  function Coefficient(d: BigDecimal): (s: string)
    ensures |s| >= 1 && AllDigits(s)
  {
    Numeral(Magnitude(d.unscaled))
  }

  /** The exponent the value would have in scientific notation. */
  function Adjusted(d: BigDecimal): int {
    -d.scale + (|Coefficient(d)| - 1)
  }

  /** `toString` uses plain notation when the scale is zero, or positive with an adjusted exponent of at least -6. */
  predicate IsPlain(d: BigDecimal) {
    d.scale == 0 || (d.scale > 0 && Adjusted(d) >= -6)
  }

  function SignText(d: BigDecimal): string {
    if d.unscaled < 0 then "-" else ""
  }

  /** BigDecimal.toString: a minus sign for a negative value, then the unsigned layout. */
  function ToString(d: BigDecimal): (s: string)
    ensures |s| > 0 && (s[0] == '-' <==> d.unscaled < 0)
  {
    UnsignedRoundTrip(d);
    SignText(d) + UnsignedText(d)
  }

  /**
   * The layout of the magnitude: plain notation, or the coefficient with a
   * point after its first digit and an `E` exponent.
   */
  function UnsignedText(d: BigDecimal): string {
    if IsPlain(d) then PlainText(Coefficient(d), d.scale)
    else ScientificText(Coefficient(d), Adjusted(d))
  }

  /**
   * Plain notation of a coefficient at a non-negative scale: the bare digits,
   * `0.` with zero padding when the scale covers every digit, or the point
   * placed `scale` digits from the right.
   */
  function PlainText(coeff: string, scale: nat): string {
    if scale == 0 then coeff
    else if scale >= |coeff| then BelowOne(coeff, scale - |coeff|)
    else WithPoint(coeff, |coeff| - scale)
  }

  /** `0.`, then `pad` zeros, then the digits. */
  function BelowOne(coeff: string, pad: nat): string {
    "0" + ("." + (Zeros(pad) + coeff))
  }

  /** The first `k` digits, a point, and the rest. */
  function WithPoint(coeff: string, k: nat): string
    requires k <= |coeff|
  {
    coeff[..k] + ("." + coeff[k..])
  }

  /**
   * Scientific notation: the first digit, a point before any remaining
   * digits (the plain text of the coefficient at scale `|coeff| - 1`), then
   * the exponent.
   */
  function ScientificText(coeff: string, adjusted: int): string
    requires |coeff| >= 1
  {
    PlainText(coeff, |coeff| - 1) + ExponentText(adjusted)
  }

  /** Nothing for a zero exponent, otherwise `E`, the exponent's sign and its digits. */
  function ExponentText(x: int): string {
    if x == 0 then ""
    else if x > 0 then "E+" + Numeral(x)
    else "E-" + Numeral(-x)
  }

  /**
   * Reads the text `toString` writes: an optional minus sign, then an
   * unsigned decimal with an optional exponent.
   */
  function Parse(t: string): Option<BigDecimal> {
    var negative := |t| > 0 && t[0] == '-';
    var read := ReadUnsigned(if negative then t[1..] else t);
    if read.None? then None
    else
      var magnitude: int := read.value.0;
      Some(BigDecimal(if negative then -magnitude else magnitude, read.value.1))
  }

  /**
   * Reads a plain part and an optional exponent as a magnitude and a scale:
   * the number of digits after the point less the exponent.
   */
  function ReadUnsigned(u: string): Option<(nat, int)> {
    var e := IndexOf(u, 'E');
    var mantissa := ParseUnsigned(u[..e]);
    var exponent := if e < |u| then ParseExponent(u[e..]) else Some(0);
    if mantissa.None? || exponent.None? then None
    else Some((mantissa.value.0, mantissa.value.1 - exponent.value))
  }

  /** Reads `E+` or `E-` followed by one or more digits. */
  function ParseExponent(e: string): Option<int> {
    if |e| > 2 && e[0] == 'E' && (e[1] == '+' || e[1] == '-') && AllDigits(e[2..]) then
      var k: int := ValueOf(e[2..]);
      Some(if e[1] == '+' then k else -k)
    else None
  }

  /**
   * Reads one or more digits, optionally followed by a point and one or more
   * digits, as a magnitude and a scale: the scale is the number of digits
   * after the point.
   */
  function ParseUnsigned(body: string): Option<(nat, nat)> {
    var point := IndexOf(body, '.');
    var integral := body[..point];
    var fraction := if point < |body| then body[point + 1..] else "";
    if integral == [] || !AllDigits(integral) || !AllDigits(fraction) then None
    else if point < |body| && fraction == [] then None
    else Some((ValueOf(integral + fraction), |fraction|))
  }

  lemma DigitsHaveNoPoint(s: string)
    requires AllDigits(s)
    ensures '.' !in s && IndexOf(s, '.') == |s|
  {
    NotFound(s, '.');
  }

  /** A text of digits, a point and digits reads as the digits run together, scaled by the count after the point. */
  lemma PointSplitReads(body: string, integral: string, fraction: string, value: nat, scale: nat)
    requires AllDigits(integral) && |integral| >= 1 && AllDigits(fraction) && |fraction| >= 1
    requires body == integral + ("." + fraction)
    requires ValueOf(integral + fraction) == value && |fraction| == scale
    ensures ParseUnsigned(body) == Some((value, scale))
  {
    DigitsHaveNoPoint(integral);
    IndexOfAfterPrefix(integral, "." + fraction, '.');
    AroundSeparator(integral, '.', fraction);
    PointAtReads(body, |integral|, integral, fraction);
  }

  /** ParseUnsigned once the point and the two digit runs around it are known. */
  lemma PointAtReads(body: string, point: nat, integral: string, fraction: string)
    requires IndexOf(body, '.') == point && point < |body|
    requires body[..point] == integral && body[point + 1..] == fraction
    requires AllDigits(integral) && |integral| >= 1 && AllDigits(fraction) && |fraction| >= 1
    ensures ParseUnsigned(body) == Some((ValueOf(integral + fraction), |fraction|))
  {
  }

  /** An integer (scale zero) is written as its bare digits. */
  lemma IntegerReads(coeff: string)
    requires AllDigits(coeff) && |coeff| >= 1
    ensures ParseUnsigned(PlainText(coeff, 0)) == Some((ValueOf(coeff), 0))
  {
    DigitsHaveNoPoint(coeff);
    assert coeff[..|coeff|] + "" == coeff;
  }

  /** A value below one is written `0.` followed by zero padding and the digits. */
  lemma BelowOneReads(coeff: string, scale: nat)
    requires AllDigits(coeff) && 1 <= |coeff| <= scale
    ensures ParseUnsigned(PlainText(coeff, scale)) == Some((ValueOf(coeff), scale))
  {
    var pad := scale - |coeff|;
    var tail := Zeros(pad) + coeff;
    LeadingZeros(pad, coeff);
    ZeroPrefix(tail);
    PointSplitReads(PlainText(coeff, scale), "0", tail, ValueOf(coeff), scale);
  }

  /** A value of one or more has the point inside the digits. */
  lemma WithPointReads(coeff: string, scale: nat)
    requires AllDigits(coeff) && 0 < scale < |coeff|
    ensures ParseUnsigned(PlainText(coeff, scale)) == Some((ValueOf(coeff), scale))
  {
    var k := |coeff| - scale;
    DigitSlices(coeff, k, |coeff|);
    SplitJoin(coeff, k);
    PointSplitReads(PlainText(coeff, scale), coeff[..k], coeff[k..], ValueOf(coeff), scale);
  }

  /** Plain notation of any digit string reads back as its value and the scale. */
  lemma PlainTextReads(coeff: string, scale: nat)
    requires AllDigits(coeff) && |coeff| >= 1
    ensures ParseUnsigned(PlainText(coeff, scale)) == Some((ValueOf(coeff), scale))
  {
    if scale == 0 {
      IntegerReads(coeff);
    } else if scale >= |coeff| {
      BelowOneReads(coeff, scale);
    } else {
      WithPointReads(coeff, scale);
    }
  }

  /** Plain notation never starts with a sign: its first character is a digit. */
  lemma PlainTextStartsWithDigit(coeff: string, scale: nat)
    requires AllDigits(coeff) && |coeff| >= 1
    ensures |PlainText(coeff, scale)| > 0 && IsDigit(PlainText(coeff, scale)[0])
  {
    if 0 < scale < |coeff| {
      assert WithPoint(coeff, |coeff| - scale)[0] == coeff[0];
    }
  }

  /** Plain notation holds digits and at most a point, never an exponent. */
  lemma PlainTextHasNoExponent(coeff: string, scale: nat)
    requires AllDigits(coeff) && |coeff| >= 1
    ensures 'E' !in PlainText(coeff, scale)
  {
    if scale == 0 {
      DigitsLackExponent(coeff);
    } else if scale >= |coeff| {
      var tail := Zeros(scale - |coeff|) + coeff;
      LeadingZeros(scale - |coeff|, coeff);
      DigitsAroundPointLackExponent("0", tail);
    } else {
      var k := |coeff| - scale;
      DigitSlices(coeff, k, |coeff|);
      DigitsAroundPointLackExponent(coeff[..k], coeff[k..]);
    }
  }

  lemma DigitsLackExponent(s: string)
    requires AllDigits(s)
    ensures 'E' !in s
  {
  }

  lemma DigitsAroundPointLackExponent(a: string, b: string)
    requires AllDigits(a) && AllDigits(b)
    ensures 'E' !in a + ("." + b)
  {
  }

  /** A non-zero exponent is written starting with `E` and reads back as itself. */
  lemma ExponentReads(x: int)
    requires x != 0
    ensures |ExponentText(x)| > 2 && ExponentText(x)[0] == 'E'
    ensures ParseExponent(ExponentText(x)) == Some(x)
  {
    var k: nat := if x > 0 then x else -x;
    var sign := if x > 0 then '+' else '-';
    ValueOfNumeral(k);
    SignedDigits(sign, Numeral(k));
    assert ExponentText(x) == ['E', sign] + Numeral(k);
  }

  lemma SignedDigits(sign: char, n: string)
    ensures (['E', sign] + n)[0] == 'E' && (['E', sign] + n)[1] == sign
    ensures (['E', sign] + n)[2..] == n
  {
  }

  /** A stretch free of `E` followed by a text starting with `E` is split at that `E`. */
  lemma SplitAtExponent(p: string, q: string)
    requires 'E' !in p && |q| > 0 && q[0] == 'E'
    ensures IndexOf(p + q, 'E') == |p|
    ensures (p + q)[..|p|] == p && (p + q)[|p|..] == q
  {
    IndexOfAfterPrefix(p, q, 'E');
  }

  /**
   * Plain notation followed by an exponent reads back as the digits' value
   * and the scale less the exponent.
   */
  lemma WithExponentReads(coeff: string, scale: nat, x: int, u: string)
    requires AllDigits(coeff) && |coeff| >= 1
    requires u == PlainText(coeff, scale) + ExponentText(x)
    ensures ReadUnsigned(u) == Some((ValueOf(coeff), scale - x))
  {
    var p := PlainText(coeff, scale);
    PlainTextReads(coeff, scale);
    PlainTextHasNoExponent(coeff, scale);
    if x == 0 {
      assert u == p;
      NoExponentReads(u, ValueOf(coeff), scale);
    } else {
      ExponentReads(x);
      ExponentAfterReads(u, p, ExponentText(x), ValueOf(coeff), scale, x);
    }
  }

  lemma NoExponentReads(u: string, value: nat, scale: nat)
    requires 'E' !in u && ParseUnsigned(u) == Some((value, scale))
    ensures ReadUnsigned(u) == Some((value, scale))
  {
    NotFound(u, 'E');
    assert u[..|u|] == u;
  }

  lemma ExponentAfterReads(u: string, p: string, q: string, value: nat, scale: nat, x: int)
    requires u == p + q && 'E' !in p && |q| > 0 && q[0] == 'E'
    requires ParseUnsigned(p) == Some((value, scale)) && ParseExponent(q) == Some(x)
    ensures ReadUnsigned(u) == Some((value, scale - x))
  {
    SplitAtExponent(p, q);
  }

  /** The unsigned text of any value reads back as its magnitude and scale, and starts with a digit. */
  lemma UnsignedRoundTrip(d: BigDecimal)
    ensures ReadUnsigned(UnsignedText(d)) == Some((Magnitude(d.unscaled), d.scale))
    ensures |UnsignedText(d)| > 0 && IsDigit(UnsignedText(d)[0])
  {
    var coeff := Coefficient(d);
    ValueOfNumeral(Magnitude(d.unscaled));
    if IsPlain(d) {
      assert PlainText(coeff, d.scale) + ExponentText(0) == UnsignedText(d);
      WithExponentReads(coeff, d.scale, 0, UnsignedText(d));
      PlainTextStartsWithDigit(coeff, d.scale);
    } else {
      WithExponentReads(coeff, |coeff| - 1, Adjusted(d), UnsignedText(d));
      PlainTextStartsWithDigit(coeff, |coeff| - 1);
      assert UnsignedText(d)[0] == PlainText(coeff, |coeff| - 1)[0];
    }
  }

  /**
   * The text round-trips: reading it back gives the same unscaled value and
   * the same scale, so no digit is rounded away or added, in plain and in
   * scientific notation alike.
   */
  lemma RoundTrip(d: BigDecimal)
    ensures Parse(ToString(d)) == Some(d)
  {
    UnsignedRoundTrip(d);
    var t := ToString(d);
    var rest := UnsignedText(d);
    if d.unscaled < 0 {
      assert t[0] == '-' && t[1..] == rest;
    } else {
      assert t == rest;
    }
  }

  /**
   * In plain notation with a positive scale, exactly `scale` characters
   * follow the point.
   */
  lemma FractionDigitsAreScale(d: BigDecimal)
    requires IsPlain(d) && d.scale > 0
    ensures var t := UnsignedText(d); var p := IndexOf(t, '.');
      p < |t| && |t| - (p + 1) == d.scale
  {
    PlainTextReads(Coefficient(d), d.scale);
  }

  /**
   * A positive amount whose scale is 0, 1 or 2 is written in plain notation,
   * without an exponent.
   */
  lemma CurrencyAmountIsPlain(d: BigDecimal)
    requires d.unscaled > 0 && 0 <= d.scale <= 2
    ensures IsPlain(d)
    ensures 'E' !in ToString(d)
  {
    PlainTextHasNoExponent(Coefficient(d), d.scale);
    assert ToString(d) == UnsignedText(d);
  }

  /** A negative scale is written with an exponent: one hundred at scale -2 is `1E+2`. */
  lemma NegativeScaleIsScientific()
    ensures !IsPlain(BigDecimal(1, -2))
    ensures ToString(BigDecimal(1, -2)) == "1E+2"
  {
    var d := BigDecimal(1, -2);
    assert Coefficient(d) == "1";
    assert Adjusted(d) == 2;
    assert Numeral(2) == "2";
  }
}
