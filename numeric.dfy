/** Python's `round`, fixed-point formatting and `int()`/`float()` text
    conversion, on exact reals. Binary floating point is not modelled: a value
    is the real number it denotes. */
module Numeric {
  import opened Wrappers
  import opened Strings

  function Pow10(d: nat): (p: nat)
    ensures p >= 1
  {
    if d == 0 then 1 else 10 * Pow10(d - 1)
  }

  function Abs(x: real): (r: real)
    ensures r >= 0.0 && (r == x || r == -x)
  {
    if x < 0.0 then -x else x
  }

  function MinReal(a: real, b: real): (r: real)
    ensures r <= a && r <= b && (r == a || r == b)
  {
    if b < a then b else a
  }

  function MaxReal(a: real, b: real): (r: real)
    ensures r >= a && r >= b && (r == a || r == b)
  {
    if b > a then b else a
  }

  /** The nearest integer, ties going to the even one (Python's `round(x)`). */
  function RoundToInt(x: real): (n: int)
    ensures -0.5 <= x - n as real <= 0.5
    ensures (x - n as real == 0.5 || x - n as real == -0.5) ==> n % 2 == 0
    ensures x >= 0.0 ==> n >= 0
  {
    var f := x.Floor;
    var d := x - f as real;
    if d < 0.5 then f
    else if d > 0.5 then f + 1
    else if f % 2 == 0 then f
    else f + 1
  }

  /** `round(x, digits)` */
  function Round(x: real, digits: nat): real {
    RoundToInt(x * Pow10(digits) as real) as real / Pow10(digits) as real
  }

  function ZeroPad(k: nat): (z: string)
    ensures |z| == k
  {
    if k == 0 then "" else "0" + ZeroPad(k - 1)
  }

  /** Python `format(x, ".{digits}f")`, or `"+.{digits}f"` when `plus` holds.
      The sign follows `x`, so a small negative value prints as "-0.00". */
  function FormatFixed(x: real, digits: nat, plus: bool): string {
    var n := RoundToInt(Abs(x) * Pow10(digits) as real);
    var m: nat := n;
    var t := NatToString(m);
    var body := if |t| > digits then t else ZeroPad(digits + 1 - |t|) + t;
    var point := |body| - digits;
    var sign := if x < 0.0 then "-" else if plus then "+" else "";
    sign + body[..point] + (if digits == 0 then "" else "." + body[point..])
  }

  /** `repr(x)` for a value with at most four decimals, such as one produced
      by `round(v, 4)`: the shortest decimal text, with at least one digit
      after the point. */
  function ReprRounded4(x: real): string {
    var n := RoundToInt(Abs(x) * 10000.0);
    var m: nat := n;
    var whole := NatToString(m / 10000);
    var frac := TrimTrailingZeros(PadTo4(NatToString(m % 10000)));
    (if x < 0.0 then "-" else "") + whole + "." + frac
  }

  function PadTo4(t: string): string {
    if |t| >= 4 then t else ZeroPad(4 - |t|) + t
  }

  /** Drops trailing zeros but keeps at least one character. */
  function TrimTrailingZeros(t: string): string {
    if |t| > 1 && t[|t| - 1] == '0' then TrimTrailingZeros(t[..|t| - 1]) else t
  }

  /** `float(text)` for text matched by `\d+(\.\d+)?` split into its two parts. */
  function DecimalValue(whole: string, frac: string): real
    requires AllDigits(whole) && AllDigits(frac)
  {
    DigitsValue(whole) as real + DigitsValue(frac) as real / Pow10(|frac|) as real
  }

  /** Digits with single underscores between them, as Python's `int()`
      accepts: a digit, then digits each optionally preceded by one `_`. */
  predicate IsDigitGroupText(s: string)
    decreases |s|
  {
    |s| > 0 && IsDigit(s[0])
    && (|s| == 1 || if s[1] == '_' then |s| > 2 && IsDigitGroupText(s[2..]) else IsDigitGroupText(s[1..]))
  }

  function DropUnderscores(s: string): (r: string)
    requires IsDigitGroupText(s)
    ensures |r| > 0 && AllDigits(r)
    decreases |s|
  {
    if |s| == 1 then [s[0]]
    else if s[1] == '_' then [s[0]] + DropUnderscores(s[2..])
    else [s[0]] + DropUnderscores(s[1..])
  }

  /** Python `int(text)` for a `str`: surrounding whitespace, an optional sign,
      and decimal digits (ASCII) with single underscores between them. */
  function ParseIntText(text: string): (r: Option<int>)
    ensures r.Some? ==> |Strip(text)| > 0
  {
    var t := Strip(text);
    var neg := |t| > 0 && t[0] == '-';
    var body := if |t| > 0 && (t[0] == '-' || t[0] == '+') then t[1..] else t;
    if IsDigitGroupText(body) then
      var v := DigitsValue(DropUnderscores(body)) as int;
      Some(if neg then -v else v)
    else None
  }

  /** `int(x)` for a float: truncation toward zero. */
  function Truncate(x: real): int {
    if x >= 0.0 then x.Floor else -((-x).Floor)
  }

  /** A string of n digits denotes a number below 10^n. */
  lemma {:induction false} DigitsValueBound(s: string)
    requires AllDigits(s)
    ensures DigitsValue(s) < Pow10(|s|)
  {
    if |s| > 0 { DigitsValueBound(s[..|s| - 1]); }
  }

  /** The fraction `0.<frac>` is below one. */
  lemma FractionBelowOne(frac: string)
    requires AllDigits(frac)
    ensures 0.0 <= DigitsValue(frac) as real / Pow10(|frac|) as real < 1.0
  {
    DigitsValueBound(frac);
    DivideBelowOne(DigitsValue(frac) as real, Pow10(|frac|) as real);
  }

  lemma DivideBelowOne(a: real, p: real)
    requires 0.0 <= a < p
    ensures 0.0 <= a / p < 1.0
  {
    var q := a / p;
    assert q * p == a;
  }
}
