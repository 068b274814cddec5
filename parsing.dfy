/** Civil station ("16+82.45") and offset ("28.00' RT") parsing
    (src/utils/parsing.py). The two regular expressions are written out as
    matchers that take the same branches the regex engine takes. */
module Parsing {
  import opened Wrappers
  import opened Strings
  import opened Numeric

  /** The two groups of the station pattern: up to four major digits, and a
      minor part of one or two digits with an optional fraction. */
  datatype StationMatch = StationMatch(major: string, minorWhole: string, minorFrac: string)

  predicate WellFormedStation(m: StationMatch) {
    1 <= |m.major| <= 4 && AllDigits(m.major) && 1 <= |m.minorWhole| <= 2
    && AllDigits(m.minorWhole) && AllDigits(m.minorFrac)
  }

  function SkipSpaces(s: string, q: nat): (r: nat)
    requires q <= |s|
    ensures q <= r <= |s|
  {
    q + SpacesFrom(s, q)
  }

  /** The optional fraction `(?:\.\d+)?` at position `e`: its digits and the
      position after it. A point not followed by a digit is not part of it. */
  function FractionAt(s: string, e: nat): (r: (string, nat))
    requires e <= |s|
    ensures AllDigits(r.0) && e <= r.1 <= |s|
  {
    var f := if e < |s| && s[e] == '.' then DigitsFrom(s, e + 1) else 0;
    if f > 0 then (s[e + 1..e + 1 + f], e + 1 + f) else ("", e)
  }

  /** The minor group `\d{1,2}(?:\.\d+)?` at position `m`: two digits when
      there are two, then a fraction when a point and a digit follow. */
  function MinorAt(s: string, m: nat): (r: Option<(string, string)>)
    requires m <= |s|
    ensures r.Some? ==> 1 <= |r.value.0| <= 2 && AllDigits(r.value.0) && AllDigits(r.value.1)
  {
    var w := DigitsFrom(s, m);
    if w == 0 then None
    else
      var e := m + (if w >= 2 then 2 else 1);
      Some((s[m..e], FractionAt(s, e).0))
  }

  /** The station pattern matched at position `q`. The optional "STA" prefix
      never changes the groups: a match that uses it has its digits at the
      position this function is asked about later. A digit run longer than four
      cannot be the major part, because the pattern then needs a `+` where a
      digit stands. */
  function StationAt(s: string, q: nat): (r: Option<StationMatch>)
    requires q <= |s|
    ensures r.Some? ==> WellFormedStation(r.value)
  {
    var len := DigitsFrom(s, q);
    if len < 1 || len > 4 then None
    else
      var p := SkipSpaces(s, q + len);
      if p >= |s| || s[p] != '+' then None
      else
        match MinorAt(s, SkipSpaces(s, p + 1))
        case None => None
        case Some((whole, frac)) => Some(StationMatch(s[q..q + len], whole, frac))
  }

  /** The station pattern at every position of the text, end included. */
  function StationsAt(s: string): (xs: seq<Option<StationMatch>>)
    ensures |xs| == |s| + 1
  {
    seq(|s| + 1, k requires 0 <= k <= |s| => StationAt(s, k))
  }

  /** `STATION_PATTERN.search(s)`: the match at the leftmost position that has one. */
  function SearchStation(s: string): (r: Option<StationMatch>)
    ensures r.Some? ==> WellFormedStation(r.value)
  {
    FirstSome(StationsAt(s))
  }

  function StationValue(m: StationMatch): real
    requires AllDigits(m.major) && AllDigits(m.minorWhole) && AllDigits(m.minorFrac)
  {
    DigitsValue(m.major) as real * 100.0 + DecimalValue(m.minorWhole, m.minorFrac)
  }

  /** `parse_station`: major * 100 + minor of the first station in the text. */
  function ParseStation(s: string): (r: Option<real>)
    ensures r.Some? == SearchStation(s).Some?
    ensures r.Some? ==>
      var m := SearchStation(s).value;
      DigitsValue(m.major) as real * 100.0 <= r.value < (DigitsValue(m.major) + 1) as real * 100.0
  {
    match SearchStation(s)
    case None => None
    case Some(m) =>
      DigitsValueBound(m.minorWhole);
      FractionBelowOne(m.minorFrac);
      assert DigitsValue(m.minorWhole) < 100 by {
        if |m.minorWhole| == 1 { } else { assert Pow10(2) == 100; }
      }
      Some(StationValue(m))
  }

  /** The search finds nothing exactly when no position matches. */
  lemma SearchStationNone(s: string)
    ensures SearchStation(s).None? <==> forall k :: 0 <= k <= |s| ==> StationAt(s, k).None?
  {
    FirstSomeNone(StationsAt(s));
    assert forall k :: 0 <= k <= |s| ==> StationsAt(s)[k] == StationAt(s, k);
  }

  /** The search returns the match at the first position that has one. */
  lemma SearchStationFirst(s: string, k: nat)
    requires k <= |s| && StationAt(s, k).Some?
    requires forall j :: 0 <= j < k ==> StationAt(s, j).None?
    ensures SearchStation(s) == StationAt(s, k)
  {
    FirstSomeAt(StationsAt(s), k);
  }

  /** `parse_station` returns None exactly when no station pattern occurs
      anywhere in the text. */
  lemma ParseStationNone(s: string)
    ensures ParseStation(s).None? <==> forall k :: 0 <= k <= |s| ==> StationAt(s, k).None?
  {
    SearchStationNone(s);
  }

  /** The text a plan prints for a station: `major+minor[.frac]`. */
  function StationText(major: string, minor: string, frac: string): string {
    major + "+" + minor + FractionText(frac)
  }

  /** A digit string `w` standing at `d` and not followed by a digit is the
      digit run there. */
  lemma DigitsAtText(t: string, d: nat, w: string)
    requires AllDigits(w) && d + |w| <= |t| && t[d..d + |w|] == w
    requires d + |w| == |t| || !IsDigit(t[d + |w|])
    ensures DigitsFrom(t, d) == |w|
  {
    assert forall i :: d <= i < d + |w| ==> t[i] == w[i - d];
    DigitsFromExact(t, d, |w|);
  }

  /** The printed form of an optional fraction: nothing, or a point and its digits. */
  function FractionText(frac: string): (t: string)
    ensures |t| == if |frac| == 0 then 0 else 1 + |frac|
  {
    if |frac| == 0 then "" else "." + frac
  }

  /** A fraction stands in `[e, n)` of `t`: a point and its digits, or nothing
      with no point at `e`. Read back, it gives those digits. */
  lemma FractionAtPieces(t: string, e: nat, frac: string, n: nat)
    requires AllDigits(frac) && n == e + |FractionText(frac)| && n <= |t|
    requires |frac| > 0 ==> t[e] == '.' && t[e + 1..n] == frac && (n == |t| || !IsDigit(t[n]))
    requires |frac| == 0 ==> e == |t| || t[e] != '.'
    ensures FractionAt(t, e) == (frac, n)
  {
    if |frac| > 0 {
      assert n == e + 1 + |frac|;
      DigitsAtText(t, e + 1, frac);
      assert DigitsFrom(t, e + 1) == |frac|;
    } else {
      assert n == e;
    }
  }

  /** Two minor digits in `[m, m + 2)` followed by a fraction ending at `n`. */
  lemma MinorAtPieces(t: string, m: nat, minor: string, frac: string, n: nat)
    requires |minor| == 2 && AllDigits(minor) && m + 2 <= |t| && t[m..m + 2] == minor
    requires AllDigits(frac) && n == m + 2 + |FractionText(frac)| && n <= |t|
    requires |frac| > 0 ==> t[m + 2] == '.' && t[m + 3..n] == frac && (n == |t| || !IsDigit(t[n]))
    requires |frac| == 0 ==> m + 2 == |t| || t[m + 2] != '.'
    ensures MinorAt(t, m) == Some((minor, frac))
  {
    assert t[m] == minor[0] && t[m + 1] == minor[1];
    DigitsFromAtLeast(t, m, 2);
    FractionAtPieces(t, m + 2, frac, n);
  }

  /** Where the pieces of printed station text stand. */
  lemma StationTextPieces(major: string, minor: string, frac: string)
    requires |minor| == 2
    ensures var t := StationText(major, minor, frac);
            var p := |major|;
            |t| == p + 3 + |FractionText(frac)| && t[..p] == major && t[p] == '+' && t[p + 1..p + 3] == minor
            && (|frac| > 0 ==> t[p + 3] == '.' && t[p + 4..] == frac)
  {
    var t := StationText(major, minor, frac);
    var p := |major|;
    var tail := FractionText(frac);
    assert t == major + "+" + minor + tail;
    assert t[..p] == major;
    assert t[p + 1..p + 3] == minor;
    assert t[p + 3..] == tail;
    if |frac| > 0 {
      assert t[p + 3] == tail[0];
      assert t[p + 4..] == tail[1..];
    }
  }

  lemma StationAtText(major: string, minor: string, frac: string)
    requires 1 <= |major| <= 4 && AllDigits(major)
    requires |minor| == 2 && AllDigits(minor) && AllDigits(frac)
    ensures StationAt(StationText(major, minor, frac), 0) == Some(StationMatch(major, minor, frac))
  {
    var t := StationText(major, minor, frac);
    var p := |major|;
    StationTextPieces(major, minor, frac);
    assert t[0..p] == major;
    DigitsAtText(t, 0, major);
    assert SkipSpaces(t, p) == p;
    assert SkipSpaces(t, p + 1) == p + 1 by {
      assert t[p + 1] == minor[0];
    }
    MinorAtPieces(t, p + 1, minor, frac, |t|);
  }

  /** Printing a station and parsing it back gives its value. */
  lemma StationRoundTrip(major: string, minor: string, frac: string)
    requires 1 <= |major| <= 4 && AllDigits(major)
    requires |minor| == 2 && AllDigits(minor) && AllDigits(frac)
    ensures ParseStation(StationText(major, minor, frac)) == Some(StationValue(StationMatch(major, minor, frac)))
  {
    var t := StationText(major, minor, frac);
    var m := StationMatch(major, minor, frac);
    StationAtText(major, minor, frac);
    SearchStationFirst(t, 0);
    assert ParseStation(t) == Some(StationValue(m));
  }

  /** A text without digits holds no station. */
  lemma NoDigitsNoStation(s: string)
    requires forall i :: 0 <= i < |s| ==> !IsDigit(s[i])
    ensures ParseStation(s) == None
  {
    forall k | 0 <= k <= |s| ensures StationAt(s, k).None? {
    }
    ParseStationNone(s);
  }

  lemma StationExample(s: string)
    requires s == "16+82.45"
    ensures ParseStation(s) == Some(1682.45)
  {
    var t := StationText("16", "82", "45");
    assert t == "16" + "+" + "82" + ("." + "45");
    assert t == s;
    assert AllDigits("16") && AllDigits("82") && AllDigits("45");
    DigitsValueOfTwo("16");
    DigitsValueOfTwo("82");
    DigitsValueOfTwo("45");
    assert Pow10(2) == 100;
    assert StationValue(StationMatch("16", "82", "45")) == 1682.45;
    StationRoundTrip("16", "82", "45");
  }

  lemma StationExampleShortMajor(s: string)
    requires s == "9+94.00"
    ensures ParseStation(s) == Some(994.0)
  {
    var t := StationText("9", "94", "00");
    assert t == "9" + "+" + "94" + ("." + "00");
    assert t == s;
    assert AllDigits("9") && AllDigits("94") && AllDigits("00");
    assert DigitsValue("9") == 9;
    DigitsValueOfTwo("94");
    DigitsValueOfTwo("00");
    assert Pow10(2) == 100;
    assert StationValue(StationMatch("9", "94", "00")) == 994.0;
    StationRoundTrip("9", "94", "00");
  }

  datatype Side = Right | Left

  /** The groups of the offset pattern: an optionally negative decimal number
      and the side letter (R/RT or L/LT). */
  datatype OffsetMatch = OffsetMatch(negative: bool, whole: string, frac: string, side: Side)

  /** The number group `-?\d+(?:\.\d+)?` at position `q`: its sign, its whole
      and fraction digits, and the position after it. */
  function NumberAt(s: string, q: nat): (r: Option<(bool, string, string, nat)>)
    requires q <= |s|
    ensures r.Some? ==> |r.value.1| >= 1 && AllDigits(r.value.1) && AllDigits(r.value.2) && r.value.3 <= |s|
  {
    var neg := q < |s| && s[q] == '-';
    var d := if neg then q + 1 else q;
    var w := DigitsFrom(s, d);
    if w == 0 then None
    else
      var (frac, n) := FractionAt(s, d + w);
      Some((neg, s[d..d + w], frac, n))
  }

  /** The position after the optional unit `'`, `FT` or `FEET` at `u`. */
  function UnitEnd(s: string, u: nat): (v: nat)
    requires u <= |s|
    ensures u <= v <= |s|
  {
    if u < |s| && s[u] == '\'' then u + 1
    else if "FT" <= s[u..] then u + 2
    else if "FEET" <= s[u..] then u + 4
    else u
  }

  /** The offset pattern matched at position `q` of upper-cased text. Every
      part of the pattern is greedy and nothing it gives back lets the match
      continue, so the engine's first success is the one computed here. */
  function OffsetAt(s: string, q: nat): (r: Option<OffsetMatch>)
    requires q <= |s|
    ensures r.Some? ==> WellFormedOffset(r.value)
  {
    match NumberAt(s, q)
    case None => None
    case Some((neg, whole, frac, n)) =>
      var k := SkipSpaces(s, UnitEnd(s, SkipSpaces(s, n)));
      if k < |s| && (s[k] == 'L' || s[k] == 'R') then
        Some(OffsetMatch(neg, whole, frac, if s[k] == 'R' then Right else Left))
      else None
  }

  predicate WellFormedOffset(m: OffsetMatch) {
    |m.whole| >= 1 && AllDigits(m.whole) && AllDigits(m.frac)
  }

  /** The offset pattern at every position of the text, end included. */
  function OffsetsAt(s: string): (xs: seq<Option<OffsetMatch>>)
    ensures |xs| == |s| + 1
  {
    seq(|s| + 1, k requires 0 <= k <= |s| => OffsetAt(s, k))
  }

  /** `OFFSET_PATTERN.search(s)`: the match at the leftmost position that has one. */
  function SearchOffset(s: string): (r: Option<OffsetMatch>)
    ensures r.Some? ==> WellFormedOffset(r.value)
  {
    FirstSome(OffsetsAt(s))
  }

  /** The text `parse_offset` searches: upper-cased, commas turned into spaces. */
  function NormalizeOffsetText(s: string): string {
    ReplaceChar(Upper(s), ',', " ")
  }

  function OffsetValue(m: OffsetMatch): real
    requires AllDigits(m.whole) && AllDigits(m.frac)
  {
    var d := DecimalValue(m.whole, m.frac);
    if m.negative then -d else d
  }

  /** `parse_offset`: (distance, side) of the first offset in the text. The
      distance is negative exactly when the matched number carries a minus
      sign and is not zero. */
  function ParseOffset(s: string): (r: Option<(real, Side)>)
    ensures r.Some? == SearchOffset(NormalizeOffsetText(s)).Some?
    ensures r.Some? ==>
      var m := SearchOffset(NormalizeOffsetText(s)).value;
      r.value.1 == m.side && Abs(r.value.0) == DecimalValue(m.whole, m.frac)
      && (r.value.0 < 0.0 <==> m.negative && DecimalValue(m.whole, m.frac) != 0.0)
  {
    match SearchOffset(NormalizeOffsetText(s))
    case None => None
    case Some(m) =>
      FractionBelowOne(m.frac);
      Some((OffsetValue(m), m.side))
  }

  /** The search finds nothing exactly when no position matches. */
  lemma SearchOffsetNone(s: string)
    ensures SearchOffset(s).None? <==> forall k :: 0 <= k <= |s| ==> OffsetAt(s, k).None?
  {
    FirstSomeNone(OffsetsAt(s));
    assert forall k :: 0 <= k <= |s| ==> OffsetsAt(s)[k] == OffsetAt(s, k);
  }

  /** The search returns the match at the first position that has one. */
  lemma SearchOffsetFirst(s: string, k: nat)
    requires k <= |s| && OffsetAt(s, k).Some?
    requires forall j :: 0 <= j < k ==> OffsetAt(s, j).None?
    ensures SearchOffset(s) == OffsetAt(s, k)
  {
    FirstSomeAt(OffsetsAt(s), k);
  }

  /** `parse_offset` returns None exactly when the normalized text holds no
      offset pattern at any position. */
  lemma ParseOffsetNone(s: string)
    ensures ParseOffset(s).None? <==>
            forall k :: 0 <= k <= |NormalizeOffsetText(s)| ==> OffsetAt(NormalizeOffsetText(s), k).None?
  {
    SearchOffsetNone(NormalizeOffsetText(s));
  }

  /** `parse_signed_offset`: right of centerline is positive, left negative. */
  function ParseSignedOffset(s: string): (r: Option<real>)
    ensures r.None? <==> ParseOffset(s).None?
    ensures r.Some? ==> r.value == (if ParseOffset(s).value.1 == Right then ParseOffset(s).value.0
                                    else -ParseOffset(s).value.0)
  {
    match ParseOffset(s)
    case None => None
    case Some((d, side)) => Some(if side == Right then d else -d)
  }

  function SideText(side: Side): string {
    if side == Right then "RT" else "LT"
  }

  /** The text a plan prints for an offset: `[-]whole[.frac]' RT` or `... LT`. */
  function OffsetText(negative: bool, whole: string, frac: string, side: Side): string {
    (if negative then "-" else "") + whole + FractionText(frac) + "' " + SideText(side)
  }

  /** The offset text is its own normalization: it has no lower-case letter
      and no comma. */
  lemma OffsetTextNormal(negative: bool, whole: string, frac: string, side: Side)
    requires AllDigits(whole) && AllDigits(frac)
    ensures NormalizeOffsetText(OffsetText(negative, whole, frac, side)) == OffsetText(negative, whole, frac, side)
  {
    var sign := if negative then "-" else "";
    var tail := FractionText(frac);
    var t := OffsetText(negative, whole, frac, side);
    assert t == sign + whole + tail + "' " + SideText(side);
    forall i | 0 <= i < |t| ensures t[i] != ',' && !('a' <= t[i] <= 'z') {
      if i < |sign| { } else if i < |sign| + |whole| { assert t[i] == whole[i - |sign|]; }
      else if i < |sign| + |whole| + |tail| {
        assert t[i] == tail[i - |sign| - |whole|];
        if i > |sign| + |whole| { assert t[i] == frac[i - |sign| - |whole| - 1]; }
      }
    }
    UpperIdentity(t);
    ReplaceCharAbsent(t, ',', " ");
  }

  /** The number group read back from text whose pieces stand at known
      positions: the sign in `[0, d)`, the whole digits in `[d, e)`, the
      fraction (with its point) in `[e, n)`, and no digit or point at `n`. */
  lemma NumberAtPieces(t: string, negative: bool, d: nat, whole: string, frac: string, n: nat)
    requires d == (if negative then 1 else 0) && (0 < |t| && t[0] == '-') == negative
    requires |whole| >= 1 && AllDigits(whole) && AllDigits(frac)
    requires n == d + |whole| + |FractionText(frac)| && n < |t|
    requires t[d..d + |whole|] == whole
    requires |frac| > 0 ==> t[d + |whole|] == '.' && t[d + |whole| + 1..n] == frac
    requires !IsDigit(t[n]) && t[n] != '.'
    ensures NumberAt(t, 0) == Some((negative, whole, frac, n))
  {
    var e := d + |whole|;
    assert !IsDigit(t[e]);
    DigitsAtText(t, d, whole);
    FractionAtPieces(t, e, frac, n);
  }

  /** The rest of the offset pattern after a number ending at `n`: a foot
      mark, one space and the side letter. */
  lemma OffsetAtPieces(t: string, negative: bool, whole: string, frac: string, n: nat)
    requires NumberAt(t, 0) == Some((negative, whole, frac, n))
    requires n + 2 < |t| && t[n] == '\'' && t[n + 1] == ' ' && (t[n + 2] == 'L' || t[n + 2] == 'R')
    ensures OffsetAt(t, 0) == Some(OffsetMatch(negative, whole, frac, if t[n + 2] == 'R' then Right else Left))
  {
    assert SkipSpaces(t, n) == n;
    assert UnitEnd(t, n) == n + 1;
    assert SpacesFrom(t, n + 2) == 0;
    assert SkipSpaces(t, n + 1) == n + 2;
  }

  /** Where the pieces of printed offset text stand. */
  lemma OffsetTextPieces(negative: bool, whole: string, frac: string, side: Side)
    requires |whole| >= 1 && AllDigits(whole)
    ensures var t := OffsetText(negative, whole, frac, side);
            var d := if negative then 1 else 0;
            var e := d + |whole|;
            var n := e + |FractionText(frac)|;
            n + 2 < |t| && t[d..e] == whole && (0 < |t| && t[0] == '-') == negative
            && (|frac| > 0 ==> t[e] == '.' && t[e + 1..n] == frac)
            && t[n] == '\'' && t[n + 1] == ' ' && t[n + 2] == SideText(side)[0]
  {
    var sign := if negative then "-" else "";
    var tail := FractionText(frac);
    var rest := "' " + SideText(side);
    var t := OffsetText(negative, whole, frac, side);
    var d := |sign|;
    var e := d + |whole|;
    var n := e + |tail|;
    assert t == sign + whole + tail + rest;
    assert t[d..e] == whole;
    assert t[e..n] == tail;
    assert t[n..] == rest;
    if !negative { assert t[0] == whole[0]; }
    if |frac| > 0 {
      assert t[e] == tail[0];
      assert t[e + 1..n] == tail[1..];
    }
  }

  /** The offset pattern matches printed offset text at its first character. */
  lemma OffsetAtText(negative: bool, whole: string, frac: string, side: Side)
    requires |whole| >= 1 && AllDigits(whole) && AllDigits(frac)
    ensures OffsetAt(OffsetText(negative, whole, frac, side), 0) == Some(OffsetMatch(negative, whole, frac, side))
  {
    var t := OffsetText(negative, whole, frac, side);
    var d := if negative then 1 else 0;
    var n := d + |whole| + |FractionText(frac)|;
    OffsetTextPieces(negative, whole, frac, side);
    NumberAtPieces(t, negative, d, whole, frac, n);
    OffsetAtPieces(t, negative, whole, frac, n);
  }

  /** Printing an offset and parsing it back gives its distance and side. */
  lemma OffsetRoundTrip(negative: bool, whole: string, frac: string, side: Side)
    requires |whole| >= 1 && AllDigits(whole) && AllDigits(frac)
    ensures ParseOffset(OffsetText(negative, whole, frac, side))
            == Some((OffsetValue(OffsetMatch(negative, whole, frac, side)), side))
  {
    var t := OffsetText(negative, whole, frac, side);
    OffsetTextNormal(negative, whole, frac, side);
    OffsetAtText(negative, whole, frac, side);
    SearchOffsetFirst(t, 0);
  }

  lemma OffsetExampleRight(s: string)
    requires s == "28.00' RT"
    ensures ParseSignedOffset(s) == Some(28.0)
  {
    var t := OffsetText(false, "28", "00", Right);
    assert t == "28" + ".00" + "' " + "RT";
    assert t == s;
    assert AllDigits("28") && AllDigits("00");
    DigitsValueOfTwo("28");
    DigitsValueOfTwo("00");
    assert OffsetValue(OffsetMatch(false, "28", "00", Right)) == 28.0;
    OffsetRoundTrip(false, "28", "00", Right);
  }

  lemma OffsetExampleLeft(s: string)
    requires s == "6.00' LT"
    ensures ParseSignedOffset(s) == Some(-6.0)
  {
    var t := OffsetText(false, "6", "00", Left);
    assert t == "6" + ".00" + "' " + "LT";
    assert t == s;
    assert AllDigits("6") && AllDigits("00");
    assert DigitsValue("6") == 6;
    DigitsValueOfTwo("00");
    assert OffsetValue(OffsetMatch(false, "6", "00", Left)) == 6.0;
    OffsetRoundTrip(false, "6", "00", Left);
  }
}
