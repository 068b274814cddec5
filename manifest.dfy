/** Sheet-manifest text rules: sheet labels such as "C-1", sheet types by
    keyword counting, the utilities a sheet mentions, and the label to
    description map of a cover-sheet index. Reading the PDF is not modelled;
    the page texts are inputs. */
module Manifest {
  import opened Wrappers
  import opened Strings

  /** The keyword table, in its dict order (the order `max` breaks ties by). */
  const SheetTypeKeywords: seq<(string, seq<string>)> := [
    ("cover", ["CIVIL IMPROVEMENT PLANS", "SHEET INDEX", "VICINITY MAP"]),
    ("notes", ["GENERAL NOTES", "ABBREVIATIONS", "LEGEND"]),
    ("demolition", ["DEMOLITION", "DEMO KEY NOTES", "REMOVALS"]),
    ("plan_view", ["STORM DRAIN PLAN", "UTILITY PLAN", "SEWER PLAN", "WATER PLAN", "GRADING PLAN", "IMPROVEMENT PLAN"]),
    ("profile", ["PROFILE", "STA:", "EXISTING GRADE"]),
    ("detail", ["TYPICAL", "DETAIL", "SECTION", "STANDARD"]),
    ("signing", ["SIGN", "STRIPING", "PAVEMENT MARKING", "TRAFFIC"]),
    ("erosion", ["EROSION", "SWPPP", "BMP"])
  ]

  const ExtractSheetTypes: set<string> := {"plan_view", "profile", "detail"}

  // ---------------------------------------------------------------------
  // The sheet-label pattern  \b([A-Z]{1,4})\s*[-]?\s*(\d{1,3}[A-Z]?)\b
  // ---------------------------------------------------------------------

  /** The regex class `\w` (ASCII part). */
  predicate IsWordChar(c: char) { 'a' <= c <= 'z' || IsUpperAlnum(c) || c == '_' }

  /** The length of the run of capital letters starting at position `q`. */
  function UpperFrom(s: string, q: nat): (n: nat)
    requires q <= |s|
    ensures q + n <= |s|
    ensures forall i :: q <= i < q + n ==> IsUpperLetter(s[i])
    ensures q + n < |s| ==> !IsUpperLetter(s[q + n])
    decreases |s| - q
  {
    if q == |s| || !IsUpperLetter(s[q]) then 0 else 1 + UpperFrom(s, q + 1)
  }

  lemma {:induction false} UpperFromExact(s: string, q: nat, n: nat)
    requires q + n <= |s|
    requires forall i :: q <= i < q + n ==> IsUpperLetter(s[i])
    requires q + n == |s| || !IsUpperLetter(s[q + n])
    ensures UpperFrom(s, q) == n
    decreases n
  {
    if n > 0 { UpperFromExact(s, q + 1, n - 1); }
  }

  /** 1 to 4 capital letters: the first group. */
  predicate IsLabelPrefix(s: string) {
    1 <= |s| <= 4 && forall i :: 0 <= i < |s| ==> IsUpperLetter(s[i])
  }

  /** The number of leading digits of a label suffix. */
  function SuffixDigits(s: string): nat {
    if |s| > 0 && IsUpperLetter(s[|s| - 1]) then |s| - 1 else |s|
  }

  /** 1 to 3 digits and an optional capital letter: the second group. */
  predicate IsLabelSuffix(s: string) {
    1 <= SuffixDigits(s) <= 3 && forall i :: 0 <= i < SuffixDigits(s) ==> IsDigit(s[i])
  }

  datatype LabelMatch = LabelMatch(prefix: string, suffix: string, end: nat)

  /** Where the digits start after the letters end at `q`: blanks, at most
      one hyphen, blanks. Any other split leaves a blank or a hyphen where the
      digits must begin, so Python's backtracking finds only this one. */
  function DigitStart(t: string, q: nat): (q3: nat)
    requires q <= |t|
    ensures q <= q3 <= |t|
  {
    var q1 := q + SpacesFrom(t, q);
    var q2 := if q1 < |t| && t[q1] == '-' then q1 + 1 else q1;
    q2 + SpacesFrom(t, q2)
  }

  /** Where the second group ends when it starts at `q`: the whole digit run
      (1 to 3 digits), then at most one capital letter, then a word boundary. */
  function SuffixEnd(t: string, q: nat): (r: Option<nat>)
    requires q <= |t|
    ensures r.Some? ==> q < r.value <= |t| && IsLabelSuffix(t[q..r.value])
    ensures r.Some? ==> r.value == |t| || !IsWordChar(t[r.value])
  {
    var n := DigitsFrom(t, q);
    if n == 0 || n > 3 then None
    else
      var e := q + n;
      if e < |t| && IsUpperLetter(t[e]) then
        if e + 1 == |t| || !IsWordChar(t[e + 1]) then
          assert SuffixDigits(t[q..e + 1]) == n;
          Some(e + 1)
        else None
      else if e == |t| || !IsWordChar(t[e]) then
        assert SuffixDigits(t[q..e]) == n;
        Some(e)
      else None
  }

  /** The pattern matched at position `p`, with Python's backtracking resolved:
      the letter run must be the whole run at `p` (a shorter one leaves a
      letter where a blank, hyphen or digit must follow). */
  function LabelAt(t: string, p: nat): (r: Option<LabelMatch>)
    requires p <= |t|
    ensures r.Some? ==> IsLabelPrefix(r.value.prefix) && IsLabelSuffix(r.value.suffix)
    ensures r.Some? ==> p < r.value.end <= |t|
    ensures r.Some? ==> r.value.end == |t| || !IsWordChar(t[r.value.end])
  {
    if p == |t| || !IsUpperLetter(t[p]) || (p > 0 && IsWordChar(t[p - 1])) then None
    else
      var a := UpperFrom(t, p);
      if a > 4 then None
      else
        var q := DigitStart(t, p + a);
        match SuffixEnd(t, q)
        case None => None
        case Some(e) => Some(LabelMatch(t[p..p + a], t[q..e], e))
  }

  /** `pattern.search(t[p:])`: the leftmost match, with its start. */
  function SearchLabel(t: string, p: nat): (r: Option<(nat, LabelMatch)>)
    requires p <= |t|
    ensures r.Some? ==> p <= r.value.0 <= |t| && LabelAt(t, r.value.0) == Some(r.value.1)
    decreases |t| - p
  {
    match LabelAt(t, p)
    case Some(m) => Some((p, m))
    case None => if p == |t| then None else SearchLabel(t, p + 1)
  }

  /** The search reports the leftmost match, and finds nothing only when
      no position matches. */
  lemma {:induction false} SearchLabelLeftmost(t: string, p: nat)
    requires p <= |t|
    ensures SearchLabel(t, p).None? ==> forall q :: p <= q <= |t| ==> LabelAt(t, q).None?
    ensures SearchLabel(t, p).Some? ==> forall q :: p <= q < SearchLabel(t, p).value.0 ==> LabelAt(t, q).None?
    decreases |t| - p
  {
    var here := LabelAt(t, p);
    if here.Some? {
      assert SearchLabel(t, p) == Some((p, here.value));
    } else if p == |t| {
      assert SearchLabel(t, p) == None;
    } else {
      var rest := SearchLabel(t, p + 1);
      assert SearchLabel(t, p) == rest;
      SearchLabelLeftmost(t, p + 1);
      if rest.None? {
        forall q | p <= q <= |t| ensures LabelAt(t, q).None? {
          if q > p { assert p + 1 <= q; }
        }
      } else {
        forall q | p <= q < rest.value.0 ensures LabelAt(t, q).None? {
          if q > p { assert p + 1 <= q; }
        }
      }
    }
  }

  /** The formatted label `f"{prefix}-{suffix}"`. */
  function LabelText(m: LabelMatch): string {
    m.prefix + "-" + m.suffix
  }

  /** The shape of every label the manifest produces. */
  predicate IsSheetLabel(s: string) {
    var a := UpperFrom(s, 0);
    a < |s| && s[a] == '-' && IsLabelPrefix(s[..a]) && IsLabelSuffix(s[a + 1..])
  }

  lemma LabelTextShape(m: LabelMatch)
    requires IsLabelPrefix(m.prefix) && IsLabelSuffix(m.suffix)
    ensures IsSheetLabel(LabelText(m))
  {
    var s := LabelText(m);
    UpperFromExact(s, 0, |m.prefix|);
    assert s[..|m.prefix|] == m.prefix;
    assert s[|m.prefix| + 1..] == m.suffix;
  }

  // ---------------------------------------------------------------------
  // _normalize_sheet_label and _extract_sheet_label
  // ---------------------------------------------------------------------

  /** The class `[A-Z0-9-]`. */
  predicate IsLabelChar(c: char) { IsUpperAlnum(c) || c == '-' }

  /** `re.sub(r"[^A-Z0-9-]", "", s)` */
  function KeepLabelChars(s: string): (r: string)
    ensures |r| <= |s|
    ensures forall i :: 0 <= i < |r| ==> IsLabelChar(r[i])
  {
    if |s| == 0 then ""
    else (if IsLabelChar(s[0]) then [s[0]] else "") + KeepLabelChars(s[1..])
  }

  lemma {:induction false} KeepLabelCharsIdentity(s: string)
    requires forall i :: 0 <= i < |s| ==> IsLabelChar(s[i])
    ensures KeepLabelChars(s) == s
  {
    if |s| > 0 {
      KeepLabelCharsIdentity(s[1..]);
      assert s == [s[0]] + s[1..];
    }
  }

  /** `_normalize_sheet_label`: upper-case, keep `[A-Z0-9-]`, and format the
      first label found as "PREFIX-NUM". */
  function NormalizeSheetLabel(raw: string): (r: Option<string>)
    ensures r.Some? ==> IsSheetLabel(r.value)
  {
    var t := KeepLabelChars(Strip(Upper(raw)));
    match SearchLabel(t, 0)
    case None => None
    case Some((_, m)) =>
      LabelTextShape(m);
      Some(LabelText(m))
  }

  lemma DigitStartAfterHyphen(t: string, a: nat)
    requires a + 1 < |t| && t[a] == '-' && IsDigit(t[a + 1])
    ensures DigitStart(t, a) == a + 1
  {
    assert SpacesFrom(t, a) == 0;
    assert SpacesFrom(t, a + 1) == 0;
  }

  lemma DigitStartAtDigit(t: string, a: nat)
    requires a < |t| && IsDigit(t[a])
    ensures DigitStart(t, a) == a
  {
    assert SpacesFrom(t, a) == 0;
  }

  /** A suffix that runs to the end of the text is matched whole. */
  lemma SuffixEndWhole(t: string, q: nat)
    requires q < |t| && IsLabelSuffix(t[q..])
    ensures SuffixEnd(t, q) == Some(|t|)
  {
    var n := SuffixDigits(t[q..]);
    assert forall i :: q <= i < q + n ==> t[i] == t[q..][i - q];
    DigitsFromExact(t, q, n);
    if n < |t| - q {
      assert t[q + n] == t[q..][n];
    }
  }

  /** A label in normal form is found whole at the start of its own text. */
  lemma LabelAtWhole(s: string)
    requires IsSheetLabel(s)
    ensures LabelAt(s, 0) == Some(LabelMatch(s[..UpperFrom(s, 0)], s[UpperFrom(s, 0) + 1..], |s|))
  {
    var a := UpperFrom(s, 0);
    assert IsUpperLetter(s[..a][0]) && s[..a][0] == s[0];
    assert IsDigit(s[a + 1..][0]);
    DigitStartAfterHyphen(s, a);
    SuffixEndWhole(s, a + 1);
    assert s[0..0 + a] == s[..a];
    assert s[a + 1..|s|] == s[a + 1..];
    assert LabelAt(s, 0) == Some(LabelMatch(s[0..0 + a], s[a + 1..|s|], |s|));
  }

  lemma RejoinAt(s: string, a: nat)
    requires a < |s| && s[a] == '-'
    ensures s[..a] + "-" + s[a + 1..] == s
  {
    assert s == s[..a] + [s[a]] + s[a + 1..];
  }

  /** Text made only of label characters that matches at its very start
      normalizes to that match. */
  lemma NormalizeLabelChars(t: string, m: LabelMatch)
    requires forall i :: 0 <= i < |t| ==> IsLabelChar(t[i])
    requires LabelAt(t, 0) == Some(m)
    ensures NormalizeSheetLabel(t) == Some(LabelText(m))
  {
    UpperIdentity(t);
    StripNoEdgeSpace(t);
    KeepLabelCharsIdentity(t);
    assert KeepLabelChars(Strip(Upper(t))) == t;
    assert SearchLabel(t, 0) == Some((0, m));
  }

  lemma SuffixChars(suffix: string)
    requires IsLabelSuffix(suffix)
    ensures forall j :: 0 <= j < |suffix| ==> IsLabelChar(suffix[j])
  {
    forall j | 0 <= j < |suffix| ensures IsLabelChar(suffix[j]) {
      if j >= SuffixDigits(suffix) {
        assert j == |suffix| - 1;
      }
    }
  }

  lemma SheetLabelChars(lab: string)
    requires IsSheetLabel(lab)
    ensures forall i :: 0 <= i < |lab| ==> IsLabelChar(lab[i])
  {
    var a := UpperFrom(lab, 0);
    SuffixChars(lab[a + 1..]);
    forall i | a < i < |lab| ensures IsLabelChar(lab[i]) {
      assert lab[i] == lab[a + 1..][i - a - 1];
    }
  }

  /** Normalizing a normalized label gives it back. */
  lemma NormalizeLabelIdentity(lab: string)
    requires IsSheetLabel(lab)
    ensures NormalizeSheetLabel(lab) == Some(lab)
  {
    var a := UpperFrom(lab, 0);
    SheetLabelChars(lab);
    LabelAtWhole(lab);
    NormalizeLabelChars(lab, LabelMatch(lab[..a], lab[a + 1..], |lab|));
    RejoinAt(lab, a);
  }

  /** `_normalize_sheet_label` is idempotent. */
  lemma NormalizeIdempotent(raw: string)
    requires NormalizeSheetLabel(raw).Some?
    ensures NormalizeSheetLabel(NormalizeSheetLabel(raw).value) == NormalizeSheetLabel(raw)
  {
    NormalizeLabelIdentity(NormalizeSheetLabel(raw).value);
  }

  lemma LabelAtGlued(prefix: string, suffix: string)
    requires IsLabelPrefix(prefix) && IsLabelSuffix(suffix)
    ensures LabelAt(prefix + suffix, 0) == Some(LabelMatch(prefix, suffix, |prefix + suffix|))
  {
    var t := prefix + suffix;
    var a := |prefix|;
    assert forall i :: 0 <= i < a ==> t[i] == prefix[i];
    assert t[a..] == suffix;
    assert IsDigit(t[a]) by { assert t[a] == suffix[0]; }
    UpperFromExact(t, 0, a);
    DigitStartAtDigit(t, a);
    SuffixEndWhole(t, a);
    assert t[0..0 + a] == prefix && t[a..|t|] == suffix;
  }

  /** A label written without its hyphen gets one: "C1" gives "C-1". */
  lemma NormalizeInsertsHyphen(prefix: string, suffix: string)
    requires IsLabelPrefix(prefix) && IsLabelSuffix(suffix)
    ensures NormalizeSheetLabel(prefix + suffix) == Some(prefix + "-" + suffix)
  {
    var t := prefix + suffix;
    LabelAtGlued(prefix, suffix);
    SuffixChars(suffix);
    forall i | 0 <= i < |t| ensures IsLabelChar(t[i]) {
      if i >= |prefix| {
        assert t[i] == suffix[i - |prefix|];
      } else {
        assert t[i] == prefix[i];
      }
    }
    NormalizeLabelChars(t, LabelMatch(prefix, suffix, |t|));
  }

  /** "C1" normalizes to "C-1". */
  lemma NormalizeGluedExample()
    ensures NormalizeSheetLabel("C1") == Some("C-1")
  {
    var prefix, suffix := "C", "1";
    assert prefix + suffix == "C1" && prefix + "-" + suffix == "C-1";
    assert SuffixDigits(suffix) == 1;
    NormalizeInsertsHyphen(prefix, suffix);
  }

  /** "C-1" normalizes to itself. */
  lemma NormalizeHyphenExample()
    ensures NormalizeSheetLabel("C-1") == Some("C-1")
  {
    assert SuffixDigits("1") == 1;
    LabelTextShape(LabelMatch("C", "1", 2));
    assert LabelText(LabelMatch("C", "1", 2)) == "C-1";
    NormalizeLabelIdentity("C-1");
  }

  function LineLabels(lines: seq<string>): seq<Option<string>> {
    seq(|lines|, i requires 0 <= i < |lines| => NormalizeSheetLabel(lines[i]))
  }

  /** `_extract_sheet_label`: the raw of the first line that has one,
      else the first label anywhere in the upper-cased text. */
  function ExtractSheetLabel(text: string): (r: Option<string>)
    ensures r.Some? ==> IsSheetLabel(r.value)
  {
    match FirstSome(LineLabels(SplitLines(text)))
    case Some(l) => Some(l)
    case None =>
      match SearchLabel(Upper(text), 0)
      case None => None
      case Some((_, m)) =>
        LabelTextShape(m);
        Some(LabelText(m))
  }

  lemma {:induction false} NoLineBreak(s: string)
    requires forall i :: 0 <= i < |s| ==> !IsLineBreak(s[i])
    ensures FindLineBreak(s).None?
  {
    if |s| > 0 { NoLineBreak(s[1..]); }
  }

  /** A label written alone is read back as itself. */
  lemma ExtractLabelIdentity(lab: string)
    requires IsSheetLabel(lab)
    ensures ExtractSheetLabel(lab) == Some(lab)
  {
    var a := UpperFrom(lab, 0);
    forall i | 0 <= i < |lab| ensures !IsLineBreak(lab[i]) {
      if i > a {
        assert lab[i] == lab[a + 1..][i - a - 1];
      }
    }
    NoLineBreak(lab);
    assert SplitLines(lab) == [lab];
    NormalizeLabelIdentity(lab);
    assert LineLabels([lab])[0] == Some(lab);
  }

  /** A line that carries a label decides the result over every later line
      and over the whole-text fallback. */
  lemma ExtractFirstLabelledLine(text: string, k: nat)
    requires k < |SplitLines(text)| && NormalizeSheetLabel(SplitLines(text)[k]).Some?
    requires forall j :: 0 <= j < k ==> NormalizeSheetLabel(SplitLines(text)[j]).None?
    ensures ExtractSheetLabel(text) == NormalizeSheetLabel(SplitLines(text)[k])
  {
    FirstSomeAt(LineLabels(SplitLines(text)), k);
  }

  // ---------------------------------------------------------------------
  // _classify_sheet_type
  // ---------------------------------------------------------------------

  /** `"\n".join(texts).upper()` */
  function Merged(texts: seq<string>): string {
    Upper(Join(texts, "\n"))
  }

  /** How many of the keywords occur in the text. */
  function Hits(merged: string, keywords: seq<string>): (n: nat)
    ensures n <= |keywords|
  {
    if |keywords| == 0 then 0
    else Hits(merged, keywords[..|keywords| - 1]) + (if Contains(merged, keywords[|keywords| - 1]) then 1 else 0)
  }

  /** The index of the first maximal score: Python's `max` over the dict. */
  function FirstMax(xs: seq<nat>): (b: nat)
    requires |xs| > 0
    ensures b < |xs|
    ensures forall i :: 0 <= i < |xs| ==> xs[i] <= xs[b]
    ensures forall i :: 0 <= i < b ==> xs[i] < xs[b]
  {
    if |xs| == 1 then 0
    else
      var b := FirstMax(xs[..|xs| - 1]);
      if xs[|xs| - 1] > xs[b] then |xs| - 1 else b
  }

  function Scores(merged: string): (s: seq<nat>)
    ensures |s| == |SheetTypeKeywords|
  {
    seq(|SheetTypeKeywords|, i requires 0 <= i < |SheetTypeKeywords| => Hits(merged, SheetTypeKeywords[i].1))
  }

  /** The sheet type with the most keyword hits, the first in table order on a
      tie, and "other" when no keyword occurs. */
  function SheetType(texts: seq<string>): (r: string)
    ensures var s := Scores(Merged(texts));
      r == "other" <==> forall i :: 0 <= i < |s| ==> s[i] == 0
    ensures var s := Scores(Merged(texts));
      r != "other" ==> exists b :: (0 <= b < |s| && r == SheetTypeKeywords[b].0 && s[b] > 0
        && (forall i :: 0 <= i < |s| ==> s[i] <= s[b]) && (forall i :: 0 <= i < b ==> s[i] < s[b]))
  {
    var s := Scores(Merged(texts));
    var b := FirstMax(s);
    if s[b] == 0 then "other" else SheetTypeKeywords[b].0
  }

  method ClassifySheetType(texts: seq<string>) returns (sheetType: string)
    ensures sheetType == SheetType(texts)
  {
    var merged := Merged(texts);
    var scores: seq<nat> := [];
    for i := 0 to |SheetTypeKeywords|
      invariant |scores| == i
      invariant forall j :: 0 <= j < i ==> scores[j] == Hits(merged, SheetTypeKeywords[j].1)
    {
      var keywords := SheetTypeKeywords[i].1;
      var count := 0;
      for k := 0 to |keywords|
        invariant count == Hits(merged, keywords[..k])
      {
        assert keywords[..k + 1][..k] == keywords[..k];
        if Contains(merged, keywords[k]) {
          count := count + 1;
        }
      }
      assert keywords[..|keywords|] == keywords;
      scores := scores + [count];
    }
    assert scores == Scores(merged);
    var best := FirstMax(scores);
    if scores[best] == 0 {
      sheetType := "other";
    } else {
      sheetType := SheetTypeKeywords[best].0;
    }
  }

  /** `needs_deep_extraction`: only plan, profile and detail sheets. */
  predicate NeedsDeepExtraction(sheetType: string) {
    sheetType in ExtractSheetTypes
  }

  /** A sheet goes to deep extraction only when a plan, profile or detail
      keyword occurs in its text and beats every earlier type. */
  lemma DeepExtractionNeedsKeyword(texts: seq<string>)
    requires NeedsDeepExtraction(SheetType(texts))
    ensures var s := Scores(Merged(texts)); s[3] > 0 || s[4] > 0 || s[5] > 0
  {
    var s := Scores(Merged(texts));
    var b :| 0 <= b < |s| && SheetType(texts) == SheetTypeKeywords[b].0 && s[b] > 0;
    assert b == 3 || b == 4 || b == 5;
  }

  // ---------------------------------------------------------------------
  // _extract_utility_types
  // ---------------------------------------------------------------------

  predicate HasSd(m: string) {
    Contains(" " + m + " ", " SD ") || Contains(m, "STORM DRAIN")
  }

  predicate HasSs(m: string) {
    Contains(" " + m + " ", " SS ") || Contains(m, "SANITARY SEWER") || Contains(m, "SEWER")
  }

  predicate HasW(m: string) {
    Contains(" " + m + " ", " W ") || Contains(" " + m + " ", " WATER ") || Contains(m, "POTABLE WATER")
  }

  function UtilityRank(u: string): nat {
    if u == "SD" then 0 else if u == "SS" then 1 else 2
  }

  /** The utilities a sheet mentions, as a subsequence of SD, SS, W. */
  method ExtractUtilityTypes(texts: seq<string>) returns (types: seq<string>)
    ensures var m := Merged(texts);
      forall u :: u in types <==> (u == "SD" && HasSd(m)) || (u == "SS" && HasSs(m)) || (u == "W" && HasW(m))
    ensures forall i, j :: 0 <= i < j < |types| ==> UtilityRank(types[i]) < UtilityRank(types[j])
    ensures Contains(Merged(texts), "SEWER") ==> "SS" in types
  {
    var merged := Merged(texts);
    types := [];
    if HasSd(merged) {
      types := types + ["SD"];
    }
    if HasSs(merged) {
      types := types + ["SS"];
    }
    if HasW(merged) {
      types := types + ["W"];
    }
  }

  // ---------------------------------------------------------------------
  // _parse_cover_sheet_index
  // ---------------------------------------------------------------------

  /** The characters `strip(" -:\t")` removes. */
  predicate IsDescriptionTrim(c: char) { c == ' ' || c == '-' || c == ':' || c == '\t' }

  /** `line[end:].strip(" -:\t")` */
  function Description(line: string, end: nat): (d: string)
    requires end <= |line|
    ensures |d| > 0 ==> !IsDescriptionTrim(d[0]) && !IsDescriptionTrim(d[|d| - 1])
  {
    StripLeftEdge(line[end..], IsDescriptionTrim);
    StripRightEdge(StripLeftBy(line[end..], IsDescriptionTrim), IsDescriptionTrim);
    StripBy(line[end..], IsDescriptionTrim)
  }

  /** The label an index line starts with, normalized, and where its match
      ends. */
  function LineLabel(line: string): (r: Option<(string, nat)>)
    ensures r.Some? ==> IsSheetLabel(r.value.0) && r.value.1 <= |line|
  {
    var u := Upper(line);
    match SearchLabel(u, 0)
    case None => None
    case Some((start, m)) =>
      match NormalizeSheetLabel(u[start..m.end])
      case None => None
      case Some(lab) => Some((lab, m.end))
  }

  /** The (label, description) pair one index line contributes, if any. */
  function CoverEntry(rawLine: string): (r: Option<(string, string)>)
    ensures r.Some? ==> IsSheetLabel(r.value.0) && |r.value.1| > 0
    ensures r.Some? ==> !IsDescriptionTrim(r.value.1[0]) && !IsDescriptionTrim(r.value.1[|r.value.1| - 1])
  {
    var line := Strip(rawLine);
    if |line| == 0 then None
    else
      match LineLabel(line)
      case None => None
      case Some((lab, end)) =>
        var description := Description(line, end);
        if |description| > 0 then Some((lab, description)) else None
  }

  /** The dict a loop of `d[key] = value` assignments fills from a sequence
      of optional entries: a later entry for the same key replaces an earlier
      one. */
  function Fill(entries: seq<Option<(string, string)>>): map<string, string> {
    if |entries| == 0 then map[]
    else
      var d := Fill(entries[..|entries| - 1]);
      match entries[|entries| - 1]
      case Some((k, v)) => d[k := v]
      case None => d
  }

  /** A key is present exactly when some entry carries it, and its value is
      that of the last entry carrying it. */
  lemma {:induction false} FillRule(entries: seq<Option<(string, string)>>, k: string)
    ensures k in Fill(entries) <==> exists i :: 0 <= i < |entries| && entries[i].Some? && entries[i].value.0 == k
    ensures k in Fill(entries) ==> exists i :: (0 <= i < |entries| && entries[i] == Some((k, Fill(entries)[k]))
      && forall j :: i < j < |entries| ==> entries[j].None? || entries[j].value.0 != k)
  {
    if |entries| > 0 {
      var init := entries[..|entries| - 1];
      FillRule(init, k);
      assert forall i :: 0 <= i < |init| ==> init[i] == entries[i];
      var last := entries[|entries| - 1];
      if last.Some? && last.value.0 == k {
        assert entries[|entries| - 1] == Some((k, Fill(entries)[k]));
      } else if k in Fill(entries) {
        var i :| 0 <= i < |init| && init[i] == Some((k, Fill(init)[k]))
          && forall j :: i < j < |init| ==> init[j].None? || init[j].value.0 != k;
        assert entries[i] == Some((k, Fill(entries)[k]));
      }
    }
  }

  function Entries(lines: seq<string>): (es: seq<Option<(string, string)>>)
    ensures |es| == |lines|
  {
    seq(|lines|, i requires 0 <= i < |lines| => CoverEntry(lines[i]))
  }

  /** `_parse_cover_sheet_index` on the lines of the index text. */
  function CoverIndex(lines: seq<string>): map<string, string> {
    Fill(Entries(lines))
  }

  method ParseCoverSheetIndex(indexText: string) returns (parsed: map<string, string>)
    ensures parsed == CoverIndex(SplitLines(indexText))
  {
    var lines := SplitLines(indexText);
    ghost var entries := Entries(lines);
    parsed := map[];
    for i := 0 to |lines|
      invariant parsed == Fill(entries[..i])
    {
      assert entries[..i + 1][..i] == entries[..i];
      var entry := CoverEntry(lines[i]);
      assert entries[i] == entry;
      if entry.Some? {
        parsed := parsed[entry.value.0 := entry.value.1];
      }
    }
    assert entries[..|lines|] == entries;
  }

  /** Every key of the index is a normalized label whose description is
      non-empty and trimmed, taken from the last index line with that label;
      a label is present exactly when some line carries it. */
  lemma CoverIndexRule(lines: seq<string>, lab: string)
    ensures lab in CoverIndex(lines) <==>
      exists i :: 0 <= i < |lines| && CoverEntry(lines[i]).Some? && CoverEntry(lines[i]).value.0 == lab
    ensures lab in CoverIndex(lines) ==> IsSheetLabel(lab) && |CoverIndex(lines)[lab]| > 0
    ensures lab in CoverIndex(lines) ==> exists i :: (0 <= i < |lines| && CoverEntry(lines[i]) == Some((lab, CoverIndex(lines)[lab]))
      && forall j :: i < j < |lines| ==> CoverEntry(lines[j]).None? || CoverEntry(lines[j]).value.0 != lab)
  {
    var es := Entries(lines);
    FillRule(es, lab);
    assert forall i :: 0 <= i < |lines| ==> es[i] == CoverEntry(lines[i]);
  }
}
