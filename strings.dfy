/** The parts of Python's `str` behaviour that the plan-review code relies on.
    Case mapping and digit classes cover ASCII only; whitespace is the full
    set of characters for which Python's `str.isspace` holds. */
module Strings {
  import opened Wrappers

  /** Python `str.isspace` (also what `\s` matches in a `str` pattern). */
  predicate IsSpace(c: char) {
    ('\t' <= c <= '\r') || ('\U{1C}' <= c <= ' ') || c == '\U{85}' || c == '\U{A0}'
    || c == '\U{1680}' || ('\U{2000}' <= c <= '\U{200A}') || c == '\U{2028}' || c == '\U{2029}'
    || c == '\U{202F}' || c == '\U{205F}' || c == '\U{3000}'
  }

  predicate IsDigit(c: char) { '0' <= c <= '9' }

  predicate IsUpperLetter(c: char) { 'A' <= c <= 'Z' }

  /** The class `[A-Z0-9]`. */
  predicate IsUpperAlnum(c: char) { IsUpperLetter(c) || IsDigit(c) }

  predicate AllDigits(s: string) { forall i :: 0 <= i < |s| ==> IsDigit(s[i]) }

  function UpperChar(c: char): char {
    if 'a' <= c <= 'z' then (c as int - 32) as char else c
  }

  function LowerChar(c: char): char {
    if 'A' <= c <= 'Z' then (c as int + 32) as char else c
  }

  /** `s.upper()` */
  function Upper(s: string): string {
    seq(|s|, i requires 0 <= i < |s| => UpperChar(s[i]))
  }

  /** `s.lower()` */
  function Lower(s: string): string {
    seq(|s|, i requires 0 <= i < |s| => LowerChar(s[i]))
  }

  /** `s.lstrip(chars)` where `drop` says which characters are in `chars`. */
  function StripLeftBy(s: string, drop: char -> bool): (r: string)
    ensures |r| <= |s|
  {
    if |s| > 0 && drop(s[0]) then StripLeftBy(s[1..], drop) else s
  }

  function StripRightBy(s: string, drop: char -> bool): (r: string)
    ensures |r| <= |s|
  {
    if |s| > 0 && drop(s[|s| - 1]) then StripRightBy(s[..|s| - 1], drop) else s
  }

  function StripBy(s: string, drop: char -> bool): string {
    StripRightBy(StripLeftBy(s, drop), drop)
  }

  /** `s.strip()` */
  function Strip(s: string): string {
    StripBy(s, IsSpace)
  }

  /** Python's `sub in s`. */
  predicate Contains(s: string, sub: string) {
    sub <= s || (|s| > 0 && Contains(s[1..], sub))
  }

  /** `s.find(c)` for a single character, as an Option. */
  function FindChar(s: string, c: char): (r: Option<nat>)
    ensures r.Some? ==> r.value < |s| && s[r.value] == c && c !in s[..r.value]
    ensures r.None? ==> c !in s
  {
    if |s| == 0 then None
    else if s[0] == c then Some(0)
    else match FindChar(s[1..], c)
      case None => None
      case Some(k) => Some(k + 1)
  }

  /** `s.rfind(c)` for a single character, as an Option. */
  function RFindChar(s: string, c: char): (r: Option<nat>)
    ensures r.Some? ==> r.value < |s| && s[r.value] == c && c !in s[r.value + 1..]
    ensures r.None? ==> c !in s
  {
    if |s| == 0 then None
    else if s[|s| - 1] == c then Some(|s| - 1)
    else RFindChar(s[..|s| - 1], c)
  }

  /** `s.split(sep)` for a one-character separator. */
  function Split(s: string, sep: char): seq<string>
    decreases |s|
  {
    match FindChar(s, sep)
    case None => [s]
    case Some(i) => [s[..i]] + Split(s[i + 1..], sep)
  }

  /** `sep.join(parts)` */
  function Join(parts: seq<string>, sep: string): string {
    if |parts| == 0 then ""
    else if |parts| == 1 then parts[0]
    else parts[0] + sep + Join(parts[1..], sep)
  }

  /** `s.replace(c, rep)` for a one-character pattern. */
  function ReplaceChar(s: string, c: char, rep: string): string {
    if |s| == 0 then ""
    else (if s[0] == c then rep else [s[0]]) + ReplaceChar(s[1..], c, rep)
  }

  /** The line boundaries of `str.splitlines`. */
  predicate IsLineBreak(c: char) {
    ('\n' <= c <= '\r') || ('\U{1C}' <= c <= '\U{1E}') || c == '\U{85}' || c == '\U{2028}' || c == '\U{2029}'
  }

  function FindLineBreak(s: string): (r: Option<nat>)
    ensures r.Some? ==> r.value < |s| && IsLineBreak(s[r.value])
  {
    if |s| == 0 then None
    else if IsLineBreak(s[0]) then Some(0)
    else match FindLineBreak(s[1..])
      case None => None
      case Some(k) => Some(k + 1)
  }

  /** `s.splitlines()`: "\r\n" is one boundary and no empty last line is produced. */
  function SplitLines(s: string): seq<string>
    decreases |s|
  {
    if |s| == 0 then []
    else match FindLineBreak(s)
      case None => [s]
      case Some(i) =>
        var w := if s[i] == '\r' && i + 1 < |s| && s[i + 1] == '\n' then 2 else 1;
        [s[..i]] + SplitLines(s[i + w..])
  }

  /** `re.sub(r"\s+", " ", s)` */
  function CollapseSpaces(s: string): string
    decreases |s|
  {
    if |s| == 0 then ""
    else if IsSpace(s[0]) then " " + CollapseSpaces(StripLeftBy(s[1..], IsSpace))
    else [s[0]] + CollapseSpaces(s[1..])
  }

  /** The maximal runs of characters satisfying `keep`: the non-empty pieces of
      `re.split` on the complementary class. */
  function Runs(s: string, keep: char -> bool): seq<string>
    decreases |s|
  {
    if |s| == 0 then []
    else if !keep(s[0]) then Runs(s[1..], keep)
    else
      var n := RunLength(s, keep);
      [s[..n]] + Runs(s[n..], keep)
  }

  function RunLength(s: string, keep: char -> bool): (n: nat)
    ensures n <= |s|
    ensures forall i :: 0 <= i < n ==> keep(s[i])
    ensures n < |s| ==> !keep(s[n])
  {
    if |s| == 0 || !keep(s[0]) then 0 else 1 + RunLength(s[1..], keep)
  }

  function DigitChar(d: nat): char
    requires d < 10
  {
    "0123456789"[d]
  }

  function DigitValue(c: char): nat
    requires IsDigit(c)
  {
    c as int - '0' as int
  }

  /** The value of a string of decimal digits. */
  function DigitsValue(s: string): nat
    requires AllDigits(s)
  {
    if |s| == 0 then 0 else DigitsValue(s[..|s| - 1]) * 10 + DigitValue(s[|s| - 1])
  }

  /** `str(n)` for a natural number. */
  function NatToString(n: nat): string {
    if n < 10 then [DigitChar(n)] else NatToString(n / 10) + [DigitChar(n % 10)]
  }

  /** `str(i)` for an integer. */
  function IntToString(i: int): string {
    if i < 0 then "-" + NatToString(-i) else NatToString(i)
  }

  lemma {:induction false} RunLengthOfPrefix(a: string, b: string, keep: char -> bool)
    requires forall i :: 0 <= i < |a| ==> keep(a[i])
    requires |b| == 0 || !keep(b[0])
    ensures RunLength(a + b, keep) == |a|
  {
    if |a| > 0 {
      assert (a + b)[1..] == a[1..] + b;
      RunLengthOfPrefix(a[1..], b, keep);
    }
  }

  lemma {:induction false} RunLengthAtLeast(s: string, k: nat, keep: char -> bool)
    requires k <= |s| && forall i :: 0 <= i < k ==> keep(s[i])
    ensures RunLength(s, keep) >= k
  {
    if k > 0 { RunLengthAtLeast(s[1..], k - 1, keep); }
  }

  lemma {:induction false} UpperIdentity(s: string)
    requires forall i :: 0 <= i < |s| ==> !('a' <= s[i] <= 'z')
    ensures Upper(s) == s
  {
  }

  lemma LowerIdentity(s: string)
    requires forall i :: 0 <= i < |s| ==> !('A' <= s[i] <= 'Z')
    ensures Lower(s) == s
  {
  }

  /** Replacing a character by nothing removes it and adds no other. */
  lemma {:induction false} ReplaceCharDrops(s: string, c: char)
    ensures c !in ReplaceChar(s, c, "")
    ensures forall d :: d in ReplaceChar(s, c, "") ==> d in s
  {
    if |s| > 0 {
      ReplaceCharDrops(s[1..], c);
    }
  }

  lemma {:induction false} ReplaceCharAbsent(s: string, c: char, rep: string)
    requires c !in s
    ensures ReplaceChar(s, c, rep) == s
  {
    if |s| > 0 {
      assert c !in s[1..];
      ReplaceCharAbsent(s[1..], c, rep);
      assert s == [s[0]] + s[1..];
    }
  }

  lemma DigitsValueOfTwo(s: string)
    requires |s| == 2 && AllDigits(s)
    ensures DigitsValue(s) == DigitValue(s[0]) * 10 + DigitValue(s[1])
  {
    var a := s[..1];
    assert a[..0] == [] && a[0] == s[0];
    assert DigitsValue(a) == DigitValue(s[0]);
    assert s[..|s| - 1] == a;
  }

  /** The length of the run of digits starting at position `q`. */
  function DigitsFrom(s: string, q: nat): (n: nat)
    requires q <= |s|
    ensures q + n <= |s|
    ensures forall i :: q <= i < q + n ==> IsDigit(s[i])
    ensures q + n < |s| ==> !IsDigit(s[q + n])
    decreases |s| - q
  {
    if q == |s| || !IsDigit(s[q]) then 0 else 1 + DigitsFrom(s, q + 1)
  }

  /** The length of the run of whitespace starting at position `q`. */
  function SpacesFrom(s: string, q: nat): (n: nat)
    requires q <= |s|
    ensures q + n <= |s|
    ensures forall i :: q <= i < q + n ==> IsSpace(s[i])
    ensures q + n < |s| ==> !IsSpace(s[q + n])
    decreases |s| - q
  {
    if q == |s| || !IsSpace(s[q]) then 0 else 1 + SpacesFrom(s, q + 1)
  }

  lemma {:induction false} DigitsFromExact(s: string, q: nat, n: nat)
    requires q + n <= |s|
    requires forall i :: q <= i < q + n ==> IsDigit(s[i])
    requires q + n == |s| || !IsDigit(s[q + n])
    ensures DigitsFrom(s, q) == n
    decreases n
  {
    if n > 0 { DigitsFromExact(s, q + 1, n - 1); }
  }

  lemma {:induction false} DigitsFromAtLeast(s: string, q: nat, n: nat)
    requires q + n <= |s|
    requires forall i :: q <= i < q + n ==> IsDigit(s[i])
    ensures DigitsFrom(s, q) >= n
    decreases n
  {
    if n > 0 { DigitsFromAtLeast(s, q + 1, n - 1); }
  }

  lemma DigitCharValue(d: nat)
    requires d < 10
    ensures IsDigit(DigitChar(d)) && DigitValue(DigitChar(d)) == d
  {
  }

  /** `str(n)` is a non-empty string of digits whose value is `n`. */
  lemma {:induction false} NatToStringDigits(n: nat)
    ensures |NatToString(n)| > 0 && AllDigits(NatToString(n)) && DigitsValue(NatToString(n)) == n
  {
    DigitCharValue(n % 10);
    if n >= 10 {
      NatToStringDigits(n / 10);
      var s := NatToString(n);
      assert s[..|s| - 1] == NatToString(n / 10);
    }
  }

  /** Text with no whitespace at either end is its own `strip()`. */
  lemma StripNoEdgeSpace(s: string)
    requires |s| == 0 || (!IsSpace(s[0]) && !IsSpace(s[|s| - 1]))
    ensures Strip(s) == s
  {
  }

  /** `strip()` leaves no whitespace at either end. */
  lemma {:induction false} StripEdges(s: string)
    ensures var t := Strip(s); |t| == 0 || (!IsSpace(t[0]) && !IsSpace(t[|t| - 1]))
  {
    StripLeftEdge(s, IsSpace);
    StripRightEdge(StripLeftBy(s, IsSpace), IsSpace);
  }

  lemma {:induction false} StripLeftEdge(s: string, drop: char -> bool)
    ensures var t := StripLeftBy(s, drop); |t| == 0 || !drop(t[0])
    ensures var t := StripLeftBy(s, drop); |t| > 0 ==> t[|t| - 1] == s[|s| - 1]
  {
    if |s| > 0 && drop(s[0]) { StripLeftEdge(s[1..], drop); }
  }

  lemma {:induction false} StripRightEdge(s: string, drop: char -> bool)
    ensures var t := StripRightBy(s, drop); |t| == 0 || !drop(t[|t| - 1])
    ensures var t := StripRightBy(s, drop); |t| > 0 ==> t[0] == s[0]
  {
    if |s| > 0 && drop(s[|s| - 1]) { StripRightEdge(s[..|s| - 1], drop); }
  }

  /** Stripping twice is stripping once. */
  lemma StripIdempotent(s: string)
    ensures Strip(Strip(s)) == Strip(s)
  {
    StripEdges(s);
    StripNoEdgeSpace(Strip(s));
  }
}
