/**
 * The text form of fixed-scale decimals (src/modules/stock/decimal.ts). Text is taken as already
 * trimmed; a value of scale s is the integer of its 10^-s units.
 */
module Decimal {
  import opened Common
  import opened LineArithmetic

  const MAX_SCALE := 12

  predicate IsDigit(c: char) { '0' <= c <= '9' }

  function DigitValue(c: char): (d: nat)
    requires IsDigit(c)
    ensures d <= 9
  {
    c as int - '0' as int
  }

  function DigitChar(d: nat): (c: char)
    requires d <= 9
    ensures IsDigit(c) && DigitValue(c) == d
  {
    (d + '0' as int) as char
  }

  predicate AllDigits(s: string) { forall i :: 0 <= i < |s| ==> IsDigit(s[i]) }

  function Number(s: string): nat
    requires AllDigits(s)
  {
    if s == "" then 0 else 10 * Number(s[..|s| - 1]) + DigitValue(s[|s| - 1])
  }

  /** Decimal digits of a natural number, most significant first. */
  function Digits(n: nat): string {
    if n < 10 then [DigitChar(n)] else Digits(n / 10) + [DigitChar(n % 10)]
  }

  function Zeros(n: nat): (s: string)
    ensures |s| == n && AllDigits(s)
  {
    seq(n, i => '0')
  }

  /** Position of the decimal point, or the length when there is none. */
  function Point(s: string): (i: nat)
    ensures i <= |s|
    ensures i < |s| ==> s[i] == '.'
    ensures forall j :: 0 <= j < i ==> s[j] != '.'
  {
    if s == "" || s[0] == '.' then 0 else Point(s[1..]) + 1
  }

  function Signed(text: string): string { if text != "" && text[0] in {'+', '-'} then text[1..] else text }

  function Whole(body: string): string { body[..Point(body)] }

  function Fraction(body: string): string { if Point(body) < |body| then body[Point(body) + 1..] else "" }

  /** A sign or none, digits, and perhaps a point with digits after it. */
  predicate WellFormed(text: string) {
    var body := Signed(text);
    && Whole(body) != "" && AllDigits(Whole(body)) && AllDigits(Fraction(body))
    && (Point(body) < |body| ==> Fraction(body) != "")
  }

  /** Digits beyond the scale must all be zero. */
  predicate FitsScale(fraction: string, scale: nat) {
    forall i :: scale <= i < |fraction| ==> fraction[i] == '0'
  }

  /** Cut or padded with zeros to exactly `scale` digits. */
  function Padded(fraction: string, scale: nat): (p: string)
    requires AllDigits(fraction)
    ensures |p| == scale && AllDigits(p)
  {
    if |fraction| >= scale then fraction[..scale] else fraction + Zeros(scale - |fraction|)
  }

  function WithSign(text: string, magnitude: nat): int {
    if text != "" && text[0] == '-' then -(magnitude as int) else magnitude
  }

  function Quotient(n: nat, p: nat): (q: nat)
    requires p >= 1
  {
    n / p
  }

  function Remainder(n: nat, p: nat): (r: nat)
    requires p >= 1
    ensures r < p
  {
    n % p
  }

  lemma QuotientRemainder(n: nat, p: nat)
    requires p >= 1
    ensures n == Quotient(n, p) * p + Remainder(n, p)
  {
  }

  function Magnitude(whole: string, fraction: string, scale: nat): nat
    requires AllDigits(whole) && AllDigits(fraction)
  {
    Number(whole) * Pow10(scale) + Number(Padded(fraction, scale))
  }

  function ParseFixed(text: string, scale: nat): Option<int> {
    var whole, fraction := Whole(Signed(text)), Fraction(Signed(text));
    if scale > MAX_SCALE || !WellFormed(text) || !FitsScale(fraction, scale) then None
    else Some(WithSign(text, Magnitude(whole, fraction, scale)))
  }

  function PadStart(s: string, width: nat): string { if |s| >= width then s else Zeros(width - |s|) + s }

  function FormatMagnitude(magnitude: nat, scale: nat): string {
    var whole := Digits(Quotient(magnitude, Pow10(scale)));
    if scale == 0 then whole else whole + "." + PadStart(Digits(Remainder(magnitude, Pow10(scale))), scale)
  }

  function FormatFixed(value: int, scale: nat): string {
    if value < 0 then "-" + FormatMagnitude(-value, scale) else FormatMagnitude(value, scale)
  }

  // ---------------------------------------------------------------------------
  // Digits

  lemma {:induction false} DigitsNumber(n: nat)
    ensures Digits(n) != "" && AllDigits(Digits(n)) && Number(Digits(n)) == n
  {
    var s := Digits(n);
    if n < 10 {
      assert s[..0] == "";
      assert Number(s) == 10 * Number(s[..0]) + DigitValue(s[0]);
    } else {
      DigitsNumber(n / 10);
      assert s[..|s| - 1] == Digits(n / 10);
    }
  }

  lemma {:induction false} NumberConcat(a: string, b: string)
    requires AllDigits(a) && AllDigits(b)
    ensures AllDigits(a + b) && Number(a + b) == Number(a) * Pow10(|b|) + Number(b)
  {
    if b == "" {
      assert a + b == a;
    } else {
      var n := |b| - 1;
      NumberConcat(a, b[..n]);
      assert (a + b)[..|a| + n] == a + b[..n];
      Shift(Number(a), Pow10(n), Number(b[..n]), DigitValue(b[n]));
    }
  }

  lemma Shift(a: nat, p: nat, b: nat, d: nat)
    ensures 10 * (a * p + b) + d == a * (10 * p) + (10 * b + d)
  {
  }

  lemma {:induction false} ZerosNumber(n: nat)
    ensures Number(Zeros(n)) == 0
  {
    if n > 0 {
      ZerosNumber(n - 1);
      assert Zeros(n)[..n - 1] == Zeros(n - 1);
    }
  }

  lemma {:induction false} DigitsFit(n: nat, width: nat)
    requires width >= 1 && n < Pow10(width)
    ensures |Digits(n)| <= width
  {
    if n >= 10 {
      assert Pow10(1) == 10 * Pow10(0);
      TenthFits(n, Pow10(width - 1));
      DigitsFit(n / 10, width - 1);
    }
  }

  lemma TenthFits(n: nat, p: nat)
    requires n < 10 * p
    ensures n / 10 < p
  {
  }

  lemma NoPoint(s: string)
    requires AllDigits(s)
    ensures Point(s) == |s|
  {
  }

  lemma PointAfter(whole: string, fraction: string)
    requires AllDigits(whole)
    ensures Point(whole + "." + fraction) == |whole|
  {
    var s := whole + "." + fraction;
    forall j | 0 <= j < |whole| ensures s[j] != '.' {
      assert s[j] == whole[j] && IsDigit(whole[j]);
    }
    assert s[|whole|] == '.';
  }

  // ---------------------------------------------------------------------------
  // Round trip

  lemma PaddedNumber(d: string, width: nat)
    requires AllDigits(d) && |d| <= width
    ensures var p := PadStart(d, width); |p| == width && AllDigits(p) && Number(p) == Number(d)
  {
    if |d| < width {
      ZerosNumber(width - |d|);
      NumberConcat(Zeros(width - |d|), d);
    }
  }

  lemma PaddedFraction(fraction: nat, scale: nat)
    requires scale >= 1 && fraction < Pow10(scale)
    ensures var p := PadStart(Digits(fraction), scale);
      |p| == scale && AllDigits(p) && Number(p) == fraction && Padded(p, scale) == p && FitsScale(p, scale)
  {
    DigitsNumber(fraction);
    DigitsFit(fraction, scale);
    PaddedNumber(Digits(fraction), scale);
    var p := PadStart(Digits(fraction), scale);
    assert p[..scale] == p;
  }

  /** The text of a magnitude, taken apart again. */
  lemma FormatParts(magnitude: nat, scale: nat)
    ensures var s := FormatMagnitude(magnitude, scale);
      && s != "" && IsDigit(s[0]) && Whole(s) == Digits(Quotient(magnitude, Pow10(scale)))
      && (scale == 0 ==> Fraction(s) == "" && Point(s) == |s|)
      && (scale > 0 ==> Fraction(s) == PadStart(Digits(Remainder(magnitude, Pow10(scale))), scale) && Point(s) < |s|)
  {
    var s := FormatMagnitude(magnitude, scale);
    var whole := Digits(Quotient(magnitude, Pow10(scale)));
    DigitsNumber(Quotient(magnitude, Pow10(scale)));
    if scale == 0 {
      NoPoint(whole);
      assert s[..|s|] == whole;
    } else {
      var fraction := PadStart(Digits(Remainder(magnitude, Pow10(scale))), scale);
      PointAfter(whole, fraction);
      assert s[..|whole|] == whole && s[|whole| + 1..] == fraction;
      assert s[0] == whole[0];
    }
  }

  /** Its digits read as its quotient and remainder by the scale. */
  lemma PartsRead(magnitude: nat, scale: nat)
    ensures var s := FormatMagnitude(magnitude, scale);
      && Whole(s) != "" && AllDigits(Whole(s)) && Number(Whole(s)) == Quotient(magnitude, Pow10(scale))
      && AllDigits(Fraction(s)) && FitsScale(Fraction(s), scale) && (Point(s) < |s| ==> Fraction(s) != "")
      && Number(Padded(Fraction(s), scale)) == Remainder(magnitude, Pow10(scale))
  {
    FormatParts(magnitude, scale);
    DigitsNumber(Quotient(magnitude, Pow10(scale)));
    if scale > 0 {
      PaddedFraction(Remainder(magnitude, Pow10(scale)), scale);
    } else {
      assert Padded("", 0) == "";
    }
  }

  lemma ParseMagnitude(text: string, magnitude: nat, scale: nat)
    requires scale <= MAX_SCALE && Signed(text) == FormatMagnitude(magnitude, scale) && text != ""
    ensures ParseFixed(text, scale) == Some(WithSign(text, magnitude))
  {
    PartsRead(magnitude, scale);
    QuotientRemainder(magnitude, Pow10(scale));
  }

  /** Every value is read back from its own text, at every scale the code accepts. */
  lemma RoundTrip(value: int, scale: nat)
    requires scale <= MAX_SCALE
    ensures ParseFixed(FormatFixed(value, scale), scale) == Some(value)
  {
    var magnitude: nat := if value < 0 then -value else value;
    var body, text := FormatMagnitude(magnitude, scale), FormatFixed(value, scale);
    FormatParts(magnitude, scale);
    if value < 0 { assert text[1..] == body; }
    assert Signed(text) == body;
    ParseMagnitude(text, magnitude, scale);
  }

  /** `normalizeFixed`: the text as the code itself would write it. */
  function Normalize(text: string, scale: nat): Option<string> {
    var value := ParseFixed(text, scale);
    if value.None? then None else Some(FormatFixed(value.value, scale))
  }

  /** A normalized text is its own normal form, and means what the text meant. */
  lemma NormalizedOnce(text: string, scale: nat)
    requires ParseFixed(text, scale).Some?
    ensures var normal := Normalize(text, scale).value;
      ParseFixed(normal, scale) == ParseFixed(text, scale) && Normalize(normal, scale) == Some(normal)
  {
    RoundTrip(ParseFixed(text, scale).value, scale);
  }

  /** Two texts have the same normal form exactly when they are the same number. */
  lemma NormalFormsDecide(a: string, b: string, scale: nat)
    requires ParseFixed(a, scale).Some? && ParseFixed(b, scale).Some?
    ensures Normalize(a, scale) == Normalize(b, scale) <==> ParseFixed(a, scale) == ParseFixed(b, scale)
  {
    NormalizedOnce(a, scale);
    NormalizedOnce(b, scale);
  }

  // ---------------------------------------------------------------------------
  // Reading is exact

  lemma {:induction false} TrailingZeros(s: string, k: nat)
    requires AllDigits(s) && k <= |s| && forall i :: k <= i < |s| ==> s[i] == '0'
    ensures Number(s) == Number(s[..k]) * Pow10(|s| - k)
  {
    if k == |s| {
      assert s[..k] == s;
    } else {
      var n := |s| - 1;
      TrailingZeros(s[..n], k);
      assert s[..n][..k] == s[..k];
      Shift(Number(s[..k]), Pow10(n - k), 0, 0);
    }
  }

  lemma {:induction false} Pow10Adds(a: nat, b: nat)
    ensures Pow10(a + b) == Pow10(a) * Pow10(b)
  {
    if b > 0 {
      Pow10Adds(a, b - 1);
      Shift(Pow10(a), Pow10(b - 1), 0, 0);
    }
  }

  /** A number shifted by as many digits as the scale gains keeps its worth. */
  lemma ShiftedExact(m: nat, n: nat, few: nat, many: nat)
    requires few <= many && n == m * Pow10(many - few)
    ensures m * Pow10(many) == n * Pow10(few)
  {
    var k := many - few;
    Pow10Adds(few, k);
    Regroup(m, Pow10(few), Pow10(k), Pow10(many), n);
  }

  lemma CutExact(fraction: string, cut: string, scale: nat)
    requires AllDigits(fraction) && FitsScale(fraction, scale) && |fraction| >= scale && cut == fraction[..scale]
    ensures AllDigits(cut) && Number(cut) * Pow10(|fraction|) == Number(fraction) * Pow10(scale)
  {
    TrailingZeros(fraction, scale);
    ShiftedExact(Number(cut), Number(fraction), scale, |fraction|);
  }

  lemma ZerosAppended(fraction: string, k: nat)
    requires AllDigits(fraction)
    ensures AllDigits(fraction + Zeros(k)) && Number(fraction + Zeros(k)) == Number(fraction) * Pow10(k)
  {
    ZerosNumber(k);
    NumberConcat(fraction, Zeros(k));
  }

  lemma LengthenedExact(fraction: string, longer: string, scale: nat)
    requires AllDigits(fraction) && |fraction| <= scale && longer == fraction + Zeros(scale - |fraction|)
    ensures AllDigits(longer) && Number(longer) * Pow10(|fraction|) == Number(fraction) * Pow10(scale)
  {
    ZerosAppended(fraction, scale - |fraction|);
    ShiftedExact(Number(fraction), Number(longer), |fraction|, scale);
  }

  lemma Regroup(a: nat, p: nat, k: nat, pk: nat, ak: nat)
    requires pk == p * k && ak == a * k
    ensures a * pk == ak * p
  {
  }

  /** Cutting or padding to the scale keeps the fraction's worth: p / 10^scale == f / 10^|f|. */
  lemma PaddedExact(fraction: string, scale: nat)
    requires AllDigits(fraction) && FitsScale(fraction, scale)
    ensures Number(Padded(fraction, scale)) * Pow10(|fraction|) == Number(fraction) * Pow10(scale)
  {
    if |fraction| >= scale {
      assert Padded(fraction, scale) == fraction[..scale];
      CutExact(fraction, Padded(fraction, scale), scale);
    } else {
      assert Padded(fraction, scale) == fraction + Zeros(scale - |fraction|);
      LengthenedExact(fraction, Padded(fraction, scale), scale);
    }
  }

  lemma ExactParts(whole: string, fraction: string, scale: nat)
    requires AllDigits(whole) && AllDigits(fraction) && FitsScale(fraction, scale)
    ensures AllDigits(whole + fraction)
    ensures Magnitude(whole, fraction, scale) * Pow10(|fraction|) == Number(whole + fraction) * Pow10(scale)
  {
    NumberConcat(whole, fraction);
    PaddedExact(fraction, scale);
    Scaled(Number(whole), Number(Padded(fraction, scale)), Number(fraction), Pow10(scale), Pow10(|fraction|));
  }

  lemma SignedProduct(text: string, a: nat, p: nat, b: nat, q: nat)
    requires a * p == b * q
    ensures WithSign(text, a) * p == WithSign(text, b) * q
  {
    if text != "" && text[0] == '-' {
      NegatedProduct(a, p);
      NegatedProduct(b, q);
    }
  }

  /**
   * Reading never rounds: the value in units of 10^-scale is exactly the decimal written, that is its
   * digits without the point, in units of 10^-(digits after the point).
   */
  lemma ParseExact(text: string, scale: nat)
    requires ParseFixed(text, scale).Some?
    ensures var whole, fraction := Whole(Signed(text)), Fraction(Signed(text));
      && AllDigits(whole + fraction)
      && ParseFixed(text, scale).value * Pow10(|fraction|) == WithSign(text, Number(whole + fraction)) * Pow10(scale)
  {
    var whole, fraction := Whole(Signed(text)), Fraction(Signed(text));
    ExactParts(whole, fraction, scale);
    SignedProduct(text, Magnitude(whole, fraction, scale), Pow10(|fraction|), Number(whole + fraction), Pow10(scale));
  }

  /** A sign or none, digits, and perhaps a point with digits after it. */
  function Written(sign: string, whole: string, fraction: string): string { sign + (whole + Tail(fraction)) }

  function Tail(fraction: string): string { if fraction == "" then "" else "." + fraction }

  predicate IsWritten(sign: string, whole: string, fraction: string) {
    sign in {"", "+", "-"} && whole != "" && AllDigits(whole) && AllDigits(fraction)
  }

  lemma BodyParts(whole: string, fraction: string)
    requires AllDigits(whole)
    ensures Whole(whole + Tail(fraction)) == whole && Fraction(whole + Tail(fraction)) == fraction
    ensures Point(whole + Tail(fraction)) < |whole + Tail(fraction)| ==> fraction != ""
  {
    if fraction == "" {
      assert whole + "" == whole;
      NoPoint(whole);
    } else {
      assert whole + ("." + fraction) == whole + "." + fraction;
      PointAfter(whole, fraction);
    }
  }

  lemma SignedIs(sign: string, body: string)
    requires sign in {"", "+", "-"} && body != "" && IsDigit(body[0])
    ensures Signed(sign + body) == body && ((sign + body)[0] == '-' <==> sign == "-")
  {
    if sign == "" {
      assert "" + body == body;
    } else {
      assert (sign + body)[1..] == body;
    }
  }

  lemma WrittenParts(sign: string, whole: string, fraction: string)
    requires IsWritten(sign, whole, fraction)
    ensures var text := Written(sign, whole, fraction);
      && Whole(Signed(text)) == whole && Fraction(Signed(text)) == fraction && WellFormed(text)
      && text != "" && (text[0] == '-' <==> sign == "-")
  {
    var body := whole + Tail(fraction);
    assert body[0] == whole[0];
    BodyParts(whole, fraction);
    SignedIs(sign, body);
  }

  /** Every such decimal is read, at scales up to twelve that hold its digits, and its sign is heeded. */
  lemma ReadsWritten(sign: string, whole: string, fraction: string, scale: nat)
    requires IsWritten(sign, whole, fraction)
    ensures var r := ParseFixed(Written(sign, whole, fraction), scale);
      && (r.Some? <==> scale <= 12 && forall i :: scale <= i < |fraction| ==> fraction[i] == '0')
      && (r.Some? ==>
           var digits: int := Number(whole + fraction);
           r.value * Pow10(|fraction|) == (if sign == "-" then -digits else digits) * Pow10(scale))
  {
    WrittenParts(sign, whole, fraction);
    if ParseFixed(Written(sign, whole, fraction), scale).Some? { ParseExact(Written(sign, whole, fraction), scale); }
  }

  lemma SplitSign(text: string) returns (sign: string)
    ensures sign in {"", "+", "-"} && text == sign + Signed(text)
  {
    sign := if text != "" && text[0] in {'+', '-'} then text[..1] else "";
    assert sign == "" || sign == "+" || sign == "-";
  }

  lemma SplitAt(s: string, i: nat)
    requires i < |s| && s[i] == '.'
    ensures s == s[..i] + ("." + s[i + 1..])
  {
    assert s[i..] == "." + s[i + 1..];
    assert s == s[..i] + s[i..];
  }

  lemma SplitPoint(body: string)
    requires Point(body) < |body| ==> Fraction(body) != ""
    ensures body == Whole(body) + Tail(Fraction(body))
  {
    if Point(body) < |body| {
      SplitAt(body, Point(body));
    } else {
      assert Whole(body) + "" == body;
    }
  }

  /** And nothing else is. */
  lemma OnlyWritten(text: string, scale: nat) returns (sign: string)
    requires ParseFixed(text, scale).Some?
    ensures var whole, fraction := Whole(Signed(text)), Fraction(Signed(text));
      IsWritten(sign, whole, fraction) && text == Written(sign, whole, fraction)
  {
    assert WellFormed(text);
    sign := SplitSign(text);
    SplitPoint(Signed(text));
  }

  /** Only a negative value is written with a sign. */
  lemma WritesSign(value: int, scale: nat)
    ensures FormatFixed(value, scale) != "" && (FormatFixed(value, scale)[0] == '-' <==> value < 0)
  {
    var magnitude: nat := if value < 0 then -value else value;
    var whole := Digits(Quotient(magnitude, Pow10(scale)));
    DigitsNumber(Quotient(magnitude, Pow10(scale)));
    assert whole != "" && IsDigit(whole[0]);
    assert FormatMagnitude(magnitude, scale)[0] == whole[0];
  }

  lemma Scaled(w: nat, p: nat, f: nat, s: nat, k: nat)
    requires p * k == f * s
    ensures (w * s + p) * k == (w * k + f) * s
  {
    assert (w * s + p) * k == w * s * k + p * k;
    assert (w * k + f) * s == w * k * s + f * s;
    assert w * s * k == w * k * s;
  }

  lemma NegatedProduct(a: int, b: int)
    ensures -a * b == -(a * b)
  {
  }
}
