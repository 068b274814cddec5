/** The decisions graph assembly makes one value at a time: the tile-quality
    grade, which pages are reference-only, a node's representative invert,
    pipe diameters, endpoint matching by hint text and station distance, the
    length-inferred endpoint, and the comparisons the duplicate-edge pass
    uses (src/graph/assembly.py). */
module Assembly {
  import opened Wrappers
  import opened Strings
  import opened Numeric
  import opened Ordering
  import opened Json
  import opened Parsing
  import opened Schemas
  import opened Graph

  // ---------------------------------------------------------------------------
  // Quality summary

  /** `_quality_grade` */
  function GradeOf(badRatio: real): (g: Grade)
    ensures g == GradeA <==> badRatio <= 0.10
    ensures g == GradeD <==> badRatio > 0.50
  {
    if badRatio <= 0.10 then GradeA
    else if badRatio <= 0.30 then GradeB
    else if badRatio <= 0.50 then GradeC
    else GradeD
  }

  function GradeLevel(g: Grade): nat {
    match g
    case GradeA => 0
    case GradeB => 1
    case GradeC => 2
    case GradeD => 3
  }

  /** A worse ratio never earns a better grade. */
  lemma GradeMonotone(a: real, b: real)
    requires a <= b
    ensures GradeLevel(GradeOf(a)) <= GradeLevel(GradeOf(b))
  {
  }

  /** The tile ids the summary counts: those of the extractions and those
      with a metadata record. */
  function TileIdSet(xs: seq<TileExtraction>, meta: TileMeta): set<string> {
    (set i | 0 <= i < |xs| :: xs[i].tileId) + meta.Keys
  }

  /** `str(meta.get("status", "ok"))`; only a text value can print as one
      of the two statuses the code compares with. */
  function Status(meta: TileMeta, t: string): Json {
    GetOr(JObject(MetaOf(meta, t)), "status", JString("ok"))
  }

  predicate OkTile(meta: TileMeta, t: string) { Status(meta, t) == JString("ok") }

  predicate SkippedTile(meta: TileMeta, t: string) {
    Status(meta, t) == JString("skipped_low_coherence")
  }

  predicate SanitizedTile(meta: TileMeta, t: string) { OkTile(meta, t) && MetaSanitized(meta, t) }

  /** The members of `ids` that satisfy `p`. */
  function Filter(ids: set<string>, p: string -> bool): set<string> {
    set t | t in ids && p(t)
  }

  function IsOk(meta: TileMeta): string -> bool { t => OkTile(meta, t) }

  function IsSanitized(meta: TileMeta): string -> bool { t => SanitizedTile(meta, t) }

  function IsSkipped(meta: TileMeta): string -> bool { t => SkippedTile(meta, t) }

  /** The warning lines, in the order the code appends them. */
  function QualityWarnings(sanitized: nat, skipped: nat, badRatio: real): seq<string> {
    (if sanitized > 0 then [NatToString(sanitized) + " tiles had sanitizer recovery"] else [])
    + (if skipped > 0 then [NatToString(skipped) + " tiles skipped (low coherence)"] else [])
    + (if badRatio > 0.30 then [LowQualityWarning] else [])
  }

  const LowQualityWarning := "Extraction quality below threshold \U{2014} findings may be incomplete"

  /** The summary of `total` tiles, `total` > 0, once the three counts are
      known. */
  function SummaryOf(total: nat, ok: nat, sanitized: nat, skipped: nat): QualitySummary
    requires total > 0
  {
    var ratio := (sanitized + skipped) as real / total as real;
    QualitySummary(total, ok, sanitized, skipped, GradeOf(ratio), QualityWarnings(sanitized, skipped, ratio))
  }

  const NoTilesSummary := QualitySummary(0, 0, 0, 0, GradeD, ["No extraction tiles were loaded."])

  /** `build_quality_summary` */
  function QualityOf(xs: seq<TileExtraction>, meta: TileMeta): QualitySummary {
    var ids := TileIdSet(xs, meta);
    if |ids| == 0 then NoTilesSummary
    else SummaryOf(|ids|, |Filter(ids, IsOk(meta))|, |Filter(ids, IsSanitized(meta))|, |Filter(ids, IsSkipped(meta))|)
  }

  lemma {:induction false} SubsetCard(a: set<string>, b: set<string>)
    requires a <= b
    ensures |a| <= |b|
  {
    assert b == a + (b - a);
  }

  /** The low-quality warning is among the warnings exactly when the bad
      ratio exceeds 0.30. */
  lemma QualityWarningsRule(sanitized: nat, skipped: nat, badRatio: real)
    ensures LowQualityWarning in QualityWarnings(sanitized, skipped, badRatio) <==> badRatio > 0.30
    ensures |QualityWarnings(sanitized, skipped, badRatio)| <= 3
  {
    var a := NatToString(sanitized) + " tiles had sanitizer recovery";
    var b := NatToString(skipped) + " tiles skipped (low coherence)";
    assert a[|a| - 1] == 'y' && b[|b| - 1] == ')';
    assert LowQualityWarning[|LowQualityWarning| - 1] == 'e';
  }

  /** Sanitized tiles are ok tiles, and ok and skipped tiles are different
      tiles. */
  lemma FilterCounts(ids: set<string>, meta: TileMeta)
    ensures |Filter(ids, IsSanitized(meta))| <= |Filter(ids, IsOk(meta))|
    ensures |Filter(ids, IsOk(meta))| + |Filter(ids, IsSkipped(meta))| <= |ids|
  {
    var ok, san, skip := Filter(ids, IsOk(meta)), Filter(ids, IsSanitized(meta)), Filter(ids, IsSkipped(meta));
    assert san <= ok;
    SubsetCard(san, ok);
    assert ok * skip == {};
    SubsetCard(ok + skip, ids);
  }

  /** With counts that fit the total, the bad ratio lies in [0, 1] and the
      grade and warnings follow it. */
  lemma SummaryOfRule(total: nat, ok: nat, sanitized: nat, skipped: nat)
    requires total > 0 && sanitized <= ok && ok + skipped <= total
    ensures var q := SummaryOf(total, ok, sanitized, skipped);
      var ratio := (sanitized + skipped) as real / total as real;
      && q.totalTiles == total && q.okTiles == ok
      && q.sanitizedTiles == sanitized && q.skippedTiles == skipped
      && 0.0 <= ratio <= 1.0 && q.grade == GradeOf(ratio)
      && (LowQualityWarning in q.warnings <==> ratio > 0.30)
  {
    var ratio := (sanitized + skipped) as real / total as real;
    RatioBounded(sanitized + skipped, total);
    QualityWarningsRule(sanitized, skipped, ratio);
  }

  /** The counts partition part of the tiles: sanitized tiles are ok tiles,
      ok and skipped tiles are different tiles, the grade follows the bad
      ratio (SummaryOfRule), and no tiles at all grade D with a single
      warning. */
  lemma QualityCounts(xs: seq<TileExtraction>, meta: TileMeta)
    ensures var q := QualityOf(xs, meta);
      && q.sanitizedTiles <= q.okTiles && q.okTiles + q.skippedTiles <= q.totalTiles
      && q.totalTiles == |TileIdSet(xs, meta)|
      && (q.totalTiles == 0 ==> q.grade == GradeD && q.warnings == ["No extraction tiles were loaded."])
      && (q.totalTiles > 0 ==> q == SummaryOf(q.totalTiles, q.okTiles, q.sanitizedTiles, q.skippedTiles))
  {
    var ids := TileIdSet(xs, meta);
    FilterCounts(ids, meta);
  }

  lemma RatioBounded(a: nat, b: nat)
    requires 0 < b && a <= b
    ensures 0.0 <= a as real / b as real <= 1.0
  {
  }

  /** Adding one tile to the counted ones adds one to a count exactly when
      the tile has that count's property. */
  lemma {:induction false} FilterAdd(seen: set<string>, t: string, p: string -> bool)
    requires t !in seen
    ensures |Filter(seen + {t}, p)| == |Filter(seen, p)| + (if p(t) then 1 else 0)
  {
    if p(t) {
      assert Filter(seen + {t}, p) == Filter(seen, p) + {t};
    } else {
      assert Filter(seen + {t}, p) == Filter(seen, p);
    }
  }

  /** The body of the counting loop: one tile's status and flag. */
  method CountTile(ghost seen: set<string>, t: string, meta: TileMeta, ok: nat, sanitized: nat, skipped: nat)
    returns (ok': nat, sanitized': nat, skipped': nat)
    requires t !in seen
    requires ok == |Filter(seen, IsOk(meta))|
    requires sanitized == |Filter(seen, IsSanitized(meta))|
    requires skipped == |Filter(seen, IsSkipped(meta))|
    ensures ok' == |Filter(seen + {t}, IsOk(meta))|
    ensures sanitized' == |Filter(seen + {t}, IsSanitized(meta))|
    ensures skipped' == |Filter(seen + {t}, IsSkipped(meta))|
  {
    FilterAdd(seen, t, IsOk(meta));
    FilterAdd(seen, t, IsSanitized(meta));
    FilterAdd(seen, t, IsSkipped(meta));
    ok', sanitized', skipped' := ok, sanitized, skipped;
    var status := Status(meta, t);
    if status == JString("ok") {
      ok' := ok + 1;
      if MetaSanitized(meta, t) {
        sanitized' := sanitized + 1;
      }
    } else if status == JString("skipped_low_coherence") {
      skipped' := skipped + 1;
    }
  }

  lemma RestStep<T>(all: set<T>, seen: set<T>, rest: set<T>, t: T)
    requires seen <= all && rest == all - seen && t in rest
    ensures seen + {t} <= all && rest - {t} == all - (seen + {t}) && |rest - {t}| < |rest|
  {
  }

  /** The counting loop over the tile ids. */
  method CountTiles(ids: set<string>, meta: TileMeta) returns (ok: nat, sanitized: nat, skipped: nat)
    ensures ok == |Filter(ids, IsOk(meta))|
    ensures sanitized == |Filter(ids, IsSanitized(meta))|
    ensures skipped == |Filter(ids, IsSkipped(meta))|
  {
    ok, sanitized, skipped := 0, 0, 0;
    var rest := ids;
    ghost var seen: set<string> := {};
    assert Filter(seen, IsOk(meta)) == {} && Filter(seen, IsSanitized(meta)) == {} && Filter(seen, IsSkipped(meta)) == {};
    while rest != {}
      invariant seen <= ids && rest == ids - seen
      invariant ok == |Filter(seen, IsOk(meta))|
      invariant sanitized == |Filter(seen, IsSanitized(meta))|
      invariant skipped == |Filter(seen, IsSkipped(meta))|
      decreases |rest|
    {
      var t :| t in rest;
      ok, sanitized, skipped := CountTile(seen, t, meta, ok, sanitized, skipped);
      RestStep(ids, seen, rest, t);
      rest := rest - {t};
      seen := seen + {t};
    }
    assert seen == ids;
  }

  /** The grade and the warning lines of `build_quality_summary`, once the
      counts are known. */
  method Summarize(total: nat, ok: nat, sanitized: nat, skipped: nat) returns (q: QualitySummary)
    requires total > 0
    ensures q == SummaryOf(total, ok, sanitized, skipped)
  {
    var ratio := (sanitized + skipped) as real / total as real;
    var warnings := [];
    if sanitized > 0 {
      warnings := warnings + [NatToString(sanitized) + " tiles had sanitizer recovery"];
    }
    if skipped > 0 {
      warnings := warnings + [NatToString(skipped) + " tiles skipped (low coherence)"];
    }
    if ratio > 0.30 {
      warnings := warnings + [LowQualityWarning];
    }
    q := QualitySummary(total, ok, sanitized, skipped, GradeOf(ratio), warnings);
  }

  /** `build_quality_summary`, as the code computes it. */
  method BuildQualitySummary(xs: seq<TileExtraction>, meta: TileMeta) returns (q: QualitySummary)
    ensures q == QualityOf(xs, meta)
  {
    var ids := TileIdSet(xs, meta);
    if |ids| == 0 {
      return NoTilesSummary;
    }
    var ok, sanitized, skipped := CountTiles(ids, meta);
    q := Summarize(|ids|, ok, sanitized, skipped);
  }

  // ---------------------------------------------------------------------------
  // Reference-only pages

  /** `str(sheet_type or "").strip().lower()` */
  function SheetTypeOf(e: TileExtraction): string {
    Lower(Strip(e.sheetType))
  }

  /** The loop filling `page_sheet_types`: each page's non-empty sheet types. */
  function PageSheetTypes(xs: seq<TileExtraction>): map<int, set<string>> {
    if |xs| == 0 then map[]
    else
      var m := PageSheetTypes(xs[..|xs| - 1]);
      var e := xs[|xs| - 1];
      var t := SheetTypeOf(e);
      if |t| == 0 then m else m[e.page := (if e.page in m then m[e.page] else {}) + {t}]
  }

  /** Some tile of page `p` has sheet type `t`. */
  predicate OnPage(xs: seq<TileExtraction>, p: int, t: string) {
    exists i :: 0 <= i < |xs| && xs[i].page == p && SheetTypeOf(xs[i]) == t
  }

  lemma {:induction false} PageSheetTypesRule(xs: seq<TileExtraction>, p: int, t: string)
    requires |t| > 0
    ensures p in PageSheetTypes(xs) && t in PageSheetTypes(xs)[p] <==> OnPage(xs, p, t)
  {
    if |xs| > 0 {
      var init := xs[..|xs| - 1];
      PageSheetTypesRule(init, p, t);
      assert forall i :: 0 <= i < |init| ==> init[i] == xs[i];
      if OnPage(xs, p, t) && !OnPage(init, p, t) {
        var i :| 0 <= i < |xs| && xs[i].page == p && SheetTypeOf(xs[i]) == t;
        assert i == |xs| - 1;
      }
    }
  }

  /** `_reference_only_pages` */
  function ReferenceOnlyPages(xs: seq<TileExtraction>): set<int> {
    var m := PageSheetTypes(xs);
    set p | p in m && "signing_striping" in m[p] && "profile_view" !in m[p]
  }

  /** A page is reference-only exactly when one of its tiles is a signing and
      striping sheet and none is a profile view. */
  lemma ReferenceOnlyPagesRule(xs: seq<TileExtraction>, p: int)
    ensures p in ReferenceOnlyPages(xs) <==>
      OnPage(xs, p, "signing_striping") && !OnPage(xs, p, "profile_view")
  {
    PageSheetTypesRule(xs, p, "signing_striping");
    PageSheetTypesRule(xs, p, "profile_view");
  }

  /** `_reference_only_pages`, as the code computes it: the loop filling
      `page_sheet_types`, then the pages that qualify. */
  method FindReferenceOnlyPages(xs: seq<TileExtraction>) returns (pages: set<int>)
    ensures pages == ReferenceOnlyPages(xs)
  {
    var m: map<int, set<string>> := map[];
    var i := 0;
    while i < |xs|
      invariant 0 <= i <= |xs|
      invariant m == PageSheetTypes(xs[..i])
    {
      var e := xs[i];
      assert xs[..i + 1][..i] == xs[..i] && xs[..i + 1][i] == e;
      var t := SheetTypeOf(e);
      if |t| > 0 {
        m := m[e.page := (if e.page in m then m[e.page] else {}) + {t}];
      }
      i := i + 1;
    }
    assert xs[..i] == xs;
    pages := set p | p in m && "signing_striping" in m[p] && "profile_view" !in m[p];
  }

  // ---------------------------------------------------------------------------
  // Inverts and pipe sizes

  function MinOf(xs: seq<real>): (r: real)
    requires |xs| > 0
    ensures r in xs && forall i :: 0 <= i < |xs| ==> r <= xs[i]
  {
    if |xs| == 1 then xs[0] else MinReal(xs[0], MinOf(xs[1..]))
  }

  function MaxOf(xs: seq<real>): (r: real)
    requires |xs| > 0
    ensures r in xs && forall i :: 0 <= i < |xs| ==> xs[i] <= r
  {
    if |xs| == 1 then xs[0] else MaxReal(xs[0], MaxOf(xs[1..]))
  }

  function Elevations(inverts: seq<Invert>): (r: seq<real>)
    ensures |r| == |inverts| && forall i :: 0 <= i < |r| ==> r[i] == inverts[i].elevation
  {
    seq(|inverts|, i requires 0 <= i < |inverts| => inverts[i].elevation)
  }

  /** `_node_representative_invert`: the lowest invert elevation, or None
      for a structure without inverts. */
  function RepresentativeInvert(inverts: seq<Invert>): (r: Option<real>)
    ensures r.None? <==> |inverts| == 0
    ensures r.Some? ==>
      (exists i :: 0 <= i < |inverts| && inverts[i].elevation == r.value)
      && forall i :: 0 <= i < |inverts| ==> r.value <= inverts[i].elevation
  {
    if |inverts| == 0 then None
    else
      var es := Elevations(inverts);
      var m := MinOf(es);
      var i :| 0 <= i < |es| && es[i] == m;
      Some(m)
  }

  /** The position of the first digit of `s`. */
  function FirstDigit(s: string): (r: Option<nat>)
    ensures r.None? <==> forall i :: 0 <= i < |s| ==> !IsDigit(s[i])
    ensures r.Some? ==> r.value < |s| && IsDigit(s[r.value])
    ensures r.Some? ==> forall i :: 0 <= i < r.value ==> !IsDigit(s[i])
  {
    if |s| == 0 then None
    else if IsDigit(s[0]) then Some(0)
    else match FirstDigit(s[1..])
      case None => None
      case Some(k) => Some(k + 1)
  }

  /** `_parse_pipe_diameter_ft`: the first number `\d+(\.\d+)?` of the size
      text, in inches, as feet. */
  function PipeDiameterFt(size: string): (r: Option<real>)
    ensures r.Some? <==> exists i :: 0 <= i < |size| && IsDigit(size[i])
    ensures r.Some? ==> r.value >= 0.0
  {
    match FirstDigit(size)
    case None => None
    case Some(q) =>
      var w := DigitsFrom(size, q);
      var frac := FractionAt(size, q + w).0;
      assert AllDigits(size[q..q + w]);
      FractionNonNegative(size[q..q + w], frac);
      Some(DecimalValue(size[q..q + w], frac) / 12.0)
  }

  lemma FractionNonNegative(whole: string, frac: string)
    requires AllDigits(whole) && AllDigits(frac)
    ensures DecimalValue(whole, frac) >= 0.0
  {
  }

  /** An 18-inch pipe is 1.5 ft across; a size without digits has none. */
  lemma PipeDiameterExamples()
    ensures PipeDiameterFt("18\"") == Some(1.5)
    ensures PipeDiameterFt("") == None
  {
    var s := "18\"";
    assert DigitsFrom(s, 2) == 0;
    assert DigitsFrom(s, 0) == 2;
    assert s[0..2] == "18";
    DigitsValueOfTwo("18");
    assert FractionAt(s, 2).0 == "";
  }

  // ---------------------------------------------------------------------------
  // Endpoint matching

  /** `" | ".join` of the node's id, structure type and notes, upper-cased. */
  function Blob(n: Node): string {
    var id := if n.StructureNode? then TextOr(n.item.id) else "";
    var kind := if n.StructureNode? then n.item.structureType else "ORPHAN";
    var notes := if n.StructureNode? then TextOr(n.item.notes) else "";
    Upper(id) + " | " + Upper(kind) + " | " + Upper(notes)
  }

  /** `re.sub(r"\s+", " ", hint.upper()).strip()` */
  function NormalizeHint(hint: string): string {
    Strip(CollapseSpaces(Upper(hint)))
  }

  /** The hint's tokens: its maximal runs of capital letters and digits. */
  function HintTokens(norm: string): seq<string> {
    Runs(norm, IsUpperAlnum)
  }

  predicate SomeTokenIn(tokens: seq<string>, blob: string) {
    exists i :: 0 <= i < |tokens| && Contains(blob, tokens[i])
  }

  /** `_hint_score`: 2 when the whole normalised hint occurs in the node's
      text, 1 when one of its tokens does, else 0. */
  function HintScore(n: Node, hint: Option<string>): (r: nat)
    ensures r <= 2
  {
    if !Given(hint) then 0
    else
      var norm := NormalizeHint(hint.value);
      if |norm| == 0 then 0
      else if Contains(Blob(n), norm) then 2
      else
        var tokens := HintTokens(norm);
        if |tokens| == 0 then 0
        else if SomeTokenIn(tokens, Blob(n)) then 1
        else 0
  }

  /** The score is 2 exactly when the normalised hint is in the node's text,
      and a positive score needs a hint and some shared text. */
  lemma HintScoreRule(n: Node, hint: Option<string>)
    ensures HintScore(n, hint) == 2 <==>
      Given(hint) && |NormalizeHint(hint.value)| > 0 && Contains(Blob(n), NormalizeHint(hint.value))
    ensures HintScore(n, hint) == 1 ==>
      Given(hint) && SomeTokenIn(HintTokens(NormalizeHint(hint.value)), Blob(n))
    ensures !Given(hint) ==> HintScore(n, hint) == 0
  {
  }

  lemma UpperOfLowerText(s: string)
    ensures Upper(Lower(s)) == Upper(s)
  {
    assert forall i :: 0 <= i < |s| ==> UpperChar(LowerChar(s[i])) == UpperChar(s[i]);
  }

  /** The score does not depend on the letter case of the hint. */
  lemma HintScoreIgnoresCase(n: Node, hint: string)
    ensures HintScore(n, Some(Lower(hint))) == HintScore(n, Some(hint))
  {
    UpperOfLowerText(hint);
    assert |Lower(hint)| == |hint|;
  }

  /** `_pick_match_confidence` */
  function PickMatchConfidence(distance: Option<real>, hintScore: nat): (c: Confidence)
    ensures c == High <==> distance.Some? && hintScore >= 2 && distance.value <= 5.0
    ensures distance.None? ==> c == (if hintScore >= 1 then Medium else CNone)
  {
    if distance.None? then (if hintScore >= 1 then Medium else CNone)
    else
      var d := distance.value;
      if hintScore >= 2 && d <= 5.0 then High
      else if hintScore >= 1 && d <= 10.0 then Medium
      else if d <= 5.0 then Medium
      else if d <= 25.0 then Low
      else CNone
  }

  /** A closer station and a better hint never lower the confidence. */
  lemma PickMatchMonotone(d1: real, d2: real, h1: nat, h2: nat)
    requires d1 <= d2 && h1 >= h2
    ensures Level(PickMatchConfidence(Some(d1), h1)) >= Level(PickMatchConfidence(Some(d2), h2))
  {
  }

  /** `_worse_confidence` */
  function WorseConfidence(a: Confidence, b: Confidence): (r: Confidence)
    ensures r == a || r == b
    ensures Level(r) <= Level(a) && Level(r) <= Level(b)
  {
    if Level(a) <= Level(b) then a else b
  }

  /** The worse of two confidences does not depend on their order. */
  lemma WorseConfidenceSymmetric(a: Confidence, b: Confidence)
    ensures WorseConfidence(a, b) == WorseConfidence(b, a)
  {
    LevelInjective(a, b);
  }

  /** `_confidence_from_station_delta` */
  function ConfidenceFromStationDelta(delta: real): (c: Confidence)
    ensures c == CNone <==> delta > 30.0
  {
    if delta <= 2.0 then High
    else if delta <= 10.0 then Medium
    else if delta <= 30.0 then Low
    else CNone
  }

  /** A smaller residual never lowers the confidence. */
  lemma StationDeltaMonotone(a: real, b: real)
    requires a <= b
    ensures Level(ConfidenceFromStationDelta(a)) >= Level(ConfidenceFromStationDelta(b))
  {
  }

  /** A matching candidate: a structure node's id and attributes. */
  type Candidate = (string, Node)

  /** `dict(candidates)`: a later row with the same id replaces an earlier one. */
  function CandidateMap(cands: seq<Candidate>): (m: map<string, Node>)
    ensures forall i :: 0 <= i < |cands| ==> cands[i].0 in m
    ensures forall id :: id in m ==> exists i :: 0 <= i < |cands| && cands[i].0 == id
  {
    if |cands| == 0 then map[]
    else
      var init := cands[..|cands| - 1];
      var m := CandidateMap(init);
      assert forall i :: 0 <= i < |init| ==> init[i] == cands[i];
      m[cands[|cands| - 1].0 := cands[|cands| - 1].1]
  }

  /** The station distance, when both stations are known. */
  function Distance(nodeStation: Option<real>, station: Option<real>): Option<real> {
    if nodeStation.Some? && station.Some? then Some(Abs(nodeStation.value - station.value)) else None
  }

  /** The sort key `(-hint_score, distance or inf, node_id)`, for a given
      way of scoring a node against the hint. */
  function MatchKey(c: Candidate, station: Option<real>, score: Node -> nat): SortKey {
    var d := Distance(StationFt(c.1), station);
    [KNum(-(score(c.1) as real)), if d.Some? then KNum(d.value) else KTop, KStr(c.0)]
  }

  function MatchKeys(cands: seq<Candidate>, station: Option<real>, score: Node -> nat): (r: seq<SortKey>)
    ensures |r| == |cands| && forall i :: 0 <= i < |r| ==> r[i] == MatchKey(cands[i], station, score)
  {
    seq(|cands|, i requires 0 <= i < |cands| => MatchKey(cands[i], station, score))
  }

  /** `exclude_node_id and node_id == exclude_node_id` */
  predicate Excluded(id: string, exclude: Option<string>) {
    Given(exclude) && id == exclude.value
  }

  /** The rows that take part in the ranking. */
  function Eligible(cands: seq<Candidate>, exclude: Option<string>): (r: seq<Option<Candidate>>)
    ensures |r| == |cands|
    ensures forall i :: 0 <= i < |r| ==> (r[i].Some? <==> !Excluded(cands[i].0, exclude))
  {
    seq(|cands|, i requires 0 <= i < |cands| => if Excluded(cands[i].0, exclude) then None else Some(cands[i]))
  }

  /** The ranking of `_best_node_match` under a given score: the first row
      with the least key, and the confidence its distance and score earn. */
  function BestMatchBy(cands: seq<Candidate>, station: Option<real>, score: Node -> nat,
                       exclude: Option<string>): (Option<string>, Confidence)
  {
    match LeastWith(MatchKeys(cands, station, score), Eligible(cands, exclude))
    case None => (None, CNone)
    case Some(b) =>
      var id := cands[b].0;
      var d := Distance(StationFt(cands[b].1), station);
      (Some(id), PickMatchConfidence(d, score(CandidateMap(cands)[id])))
  }

  lemma BestMatchByRule(cands: seq<Candidate>, station: Option<real>, score: Node -> nat,
                        exclude: Option<string>)
    ensures var (node, conf) := BestMatchBy(cands, station, score, exclude);
      (node.None? <==> forall i :: 0 <= i < |cands| ==> Excluded(cands[i].0, exclude))
      && (node.None? ==> conf == CNone)
      && (node.Some? ==> exists b :: (0 <= b < |cands| && cands[b].0 == node.value
            && !Excluded(cands[b].0, exclude)
            && (forall j :: 0 <= j < |cands| && !Excluded(cands[j].0, exclude) ==>
                  KeyLe(MatchKey(cands[b], station, score), MatchKey(cands[j], station, score)))
            && conf == PickMatchConfidence(Distance(StationFt(cands[b].1), station),
                                           score(CandidateMap(cands)[node.value]))))
  {
    var keys, vals := MatchKeys(cands, station, score), Eligible(cands, exclude);
    LeastWithRule(keys, vals);
    var r := LeastWith(keys, vals);
    if r.Some? {
      var b := r.value;
      forall j | 0 <= j < |cands| && !Excluded(cands[j].0, exclude)
        ensures KeyLe(MatchKey(cands[b], station, score), MatchKey(cands[j], station, score))
      {
        assert vals[j].Some?;
      }
    }
  }

  /** Scoring by `_hint_score` against one hint. */
  function ScoreBy(hint: Option<string>): Node -> nat {
    n => HintScore(n, hint)
  }

  /** `_best_node_match` */
  function BestNodeMatch(cands: seq<Candidate>, station: Option<real>, hint: Option<string>,
                         exclude: Option<string>): (Option<string>, Confidence)
  {
    BestMatchBy(cands, station, ScoreBy(hint), exclude)
  }

  /** No match exactly when every row is excluded; otherwise the match is a
      row that is not excluded and whose key `(-hint score, distance, id)`
      no other eligible row beats, and its confidence comes from that row's
      distance and hint score. */
  lemma BestNodeMatchRule(cands: seq<Candidate>, station: Option<real>, hint: Option<string>,
                          exclude: Option<string>)
    ensures var (node, conf) := BestNodeMatch(cands, station, hint, exclude);
      (node.None? <==> forall i :: 0 <= i < |cands| ==> Excluded(cands[i].0, exclude))
      && (node.None? ==> conf == CNone)
      && (node.Some? ==> exists b :: (0 <= b < |cands| && cands[b].0 == node.value
            && !Excluded(cands[b].0, exclude)
            && (forall j :: 0 <= j < |cands| && !Excluded(cands[j].0, exclude) ==>
                  KeyLe(MatchKey(cands[b], station, ScoreBy(hint)), MatchKey(cands[j], station, ScoreBy(hint))))
            && conf == PickMatchConfidence(Distance(StationFt(cands[b].1), station),
                                           HintScore(CandidateMap(cands)[node.value], hint))))
  {
    BestMatchByRule(cands, station, ScoreBy(hint), exclude);
  }

  /** The exclusion is honoured: the match is never the excluded node. */
  lemma BestNodeMatchExcludes(cands: seq<Candidate>, station: Option<real>, hint: Option<string>,
                              exclude: string)
    requires |exclude| > 0
    ensures BestNodeMatch(cands, station, hint, Some(exclude)).0 != Some(exclude)
  {
    BestNodeMatchRule(cands, station, hint, Some(exclude));
  }

  // ---------------------------------------------------------------------------
  // The length-inferred endpoint

  /** `min(|s - (a + L)|, |s - (a - L)|)` */
  function Residual(s: real, anchor: real, length: real): real {
    MinReal(Abs(s - (anchor + length)), Abs(s - (anchor - length)))
  }

  /** The rows the projection may land on: not the anchor, with a station. */
  function Projectable(cands: seq<Candidate>, anchorId: string): (r: seq<Option<Candidate>>)
    ensures |r| == |cands|
    ensures forall i :: 0 <= i < |r| ==> (r[i].Some? <==> cands[i].0 != anchorId && StationFt(cands[i].1).Some?)
  {
    seq(|cands|, i requires 0 <= i < |cands| =>
      if cands[i].0 != anchorId && StationFt(cands[i].1).Some? then Some(cands[i]) else None)
  }

  function ResidualKeys(cands: seq<Candidate>, anchor: real, length: real): (r: seq<SortKey>)
    ensures |r| == |cands|
    ensures forall i :: 0 <= i < |r| ==>
      r[i] == (if StationFt(cands[i].1).Some? then [KNum(Residual(StationFt(cands[i].1).value, anchor, length))] else [])
  {
    seq(|cands|, i requires 0 <= i < |cands| =>
      if StationFt(cands[i].1).Some? then [KNum(Residual(StationFt(cands[i].1).value, anchor, length))] else [])
  }

  /** The anchor's station, looked up as `candidate_map.get(anchor, {})`. */
  function AnchorStation(cands: seq<Candidate>, anchorId: string): Option<real> {
    var m := CandidateMap(cands);
    if anchorId in m then StationFt(m[anchorId]) else None
  }

  /** `_infer_other_endpoint_from_length`: the first candidate whose station
      is nearest to the anchor's station plus or minus the pipe length,
      accepted with low confidence when it is within 30 ft. */
  function InferOtherEndpoint(cands: seq<Candidate>, anchorId: string, length: Option<real>)
    : (Option<string>, Confidence)
  {
    if length.None? || length.value <= 0.0 then (None, CNone)
    else match AnchorStation(cands, anchorId)
      case None => (None, CNone)
      case Some(a) =>
        var keys := ResidualKeys(cands, a, length.value);
        match LeastWith(keys, Projectable(cands, anchorId))
        case None => (None, CNone)
        case Some(b) =>
          var c := ConfidenceFromStationDelta(Residual(StationFt(cands[b].1).value, a, length.value));
          var c' := if c == High || c == Medium then Low else c;
          if c' == CNone then (None, CNone) else (Some(cands[b].0), c')
  }

  /** An inferred endpoint is never the anchor, has a station whose residual
      is at most 30 ft and no greater than any other projectable row's, and
      is accepted with low confidence; without an endpoint the confidence is
      none. */
  lemma InferOtherEndpointRule(cands: seq<Candidate>, anchorId: string, length: Option<real>)
    ensures var (node, conf) := InferOtherEndpoint(cands, anchorId, length);
      (node.None? ==> conf == CNone)
      && (node.Some? ==>
            conf == Low && length.Some? && length.value > 0.0 && AnchorStation(cands, anchorId).Some?
            && exists b :: 0 <= b < |cands| && cands[b].0 == node.value && node.value != anchorId
                 && StationFt(cands[b].1).Some?
                 && var a := AnchorStation(cands, anchorId).value;
                    var rb := Residual(StationFt(cands[b].1).value, a, length.value);
                    rb <= 30.0
                    && forall j :: 0 <= j < |cands| && cands[j].0 != anchorId && StationFt(cands[j].1).Some? ==>
                         rb <= Residual(StationFt(cands[j].1).value, a, length.value))
  {
    if length.Some? && length.value > 0.0 && AnchorStation(cands, anchorId).Some? {
      var a := AnchorStation(cands, anchorId).value;
      var keys := ResidualKeys(cands, a, length.value);
      var vals := Projectable(cands, anchorId);
      LeastWithRule(keys, vals);
      match LeastWith(keys, vals)
      case None =>
      case Some(b) =>
        forall j | 0 <= j < |cands| && cands[j].0 != anchorId && StationFt(cands[j].1).Some?
          ensures Residual(StationFt(cands[b].1).value, a, length.value)
               <= Residual(StationFt(cands[j].1).value, a, length.value)
        {
          assert KeyLe(keys[b], keys[j]);
          SingleKeyLess(keys[j][0], keys[b][0]);
        }
    }
  }

  /** The loop of `_infer_other_endpoint_from_length`, keeping the best row
      so far and replacing it only on a strictly smaller residual. */
  method InferOtherEndpointLoop(cands: seq<Candidate>, anchorId: string, length: Option<real>)
    returns (node: Option<string>, conf: Confidence)
    ensures (node, conf) == InferOtherEndpoint(cands, anchorId, length)
  {
    if length.None? || length.value <= 0.0 {
      return None, CNone;
    }
    var anchor := AnchorStation(cands, anchorId);
    if anchor.None? {
      return None, CNone;
    }
    var a, len := anchor.value, length.value;
    ghost var keys := ResidualKeys(cands, a, len);
    ghost var vals := Projectable(cands, anchorId);
    var best: Option<nat> := None;
    var bestDelta := 0.0;
    var i := 0;
    while i < |cands|
      invariant 0 <= i <= |cands|
      invariant best == LeastWith(keys[..i], vals[..i])
      invariant best.Some? ==> best.value < i && StationFt(cands[best.value].1).Some?
      invariant best.Some? ==> bestDelta == Residual(StationFt(cands[best.value].1).value, a, len)
    {
      LeastWithStep(keys, vals, i);
      var station := StationFt(cands[i].1);
      if cands[i].0 != anchorId && station.Some? {
        var delta := Residual(station.value, a, len);
        if best.Some? {
          SingleKeyLess(KNum(delta), KNum(bestDelta));
        }
        if best.None? || delta < bestDelta {
          best, bestDelta := Some(i), delta;
        }
      }
      i := i + 1;
    }
    assert keys[..|cands|] == keys && vals[..|cands|] == vals;
    if best.None? {
      return None, CNone;
    }
    conf := ConfidenceFromStationDelta(bestDelta);
    if conf == High || conf == Medium {
      conf := Low;
    }
    if conf == CNone {
      return None, CNone;
    }
    node := Some(cands[best.value].0);
  }

  // ---------------------------------------------------------------------------
  // Duplicate-edge comparisons

  /** `str(size or "").upper().replace(" ", "")`, which is also
      `_normalize_pipe_size` of the checks: upper case with every space
      removed. */
  function NormalizeSize(size: string): (r: string)
    ensures ' ' !in r
  {
    ReplaceCharDrops(Upper(size), ' ');
    ReplaceChar(Upper(size), ' ', "")
  }

  /** `_edges_are_similar` with its default tolerances: equal normalised
      sizes, and lengths within 2.0 and slopes within 0.0010 where both
      edges have them. */
  predicate EdgesAreSimilar(a: Edge, b: Edge) {
    NormalizeSize(a.size) == NormalizeSize(b.size)
    && !(a.length.Some? && b.length.Some? && Abs(a.length.value - b.length.value) > 2.0)
    && !(a.slope.Some? && b.slope.Some? && Abs(a.slope.value - b.slope.value) > 0.0010)
  }

  /** Similarity does not depend on which edge comes first, and every edge
      is similar to itself. */
  lemma EdgesAreSimilarSymmetric(a: Edge, b: Edge)
    ensures EdgesAreSimilar(a, b) == EdgesAreSimilar(b, a)
    ensures EdgesAreSimilar(a, a)
  {
    if a.length.Some? && b.length.Some? {
      assert Abs(a.length.value - b.length.value) == Abs(b.length.value - a.length.value);
    }
    if a.slope.Some? && b.slope.Some? {
      assert Abs(a.slope.value - b.slope.value) == Abs(b.slope.value - a.slope.value);
    }
  }

  /** `int(bool(x))` for an optional text. */
  function Flag(s: Option<string>): int {
    if Given(s) then 1 else 0
  }

  /** `_edge_rank`: overall confidence, summed endpoint confidence, how many
      station fields are present, note length and text-id count. */
  function EdgeRank(e: Edge): (k: SortKey)
    ensures |k| == 5 && k[0] == KNum(Level(e.matched) as real)
  {
    Tuple([Level(e.matched), Level(e.fromConf) + Level(e.toConf),
           Flag(e.fromStation) + Flag(e.toStation), |TextOr(e.notes)|, |e.textIds|])
  }

  /** A better overall confidence always ranks higher. */
  lemma EdgeRankConfidenceFirst(a: Edge, b: Edge)
    requires Level(a.matched) < Level(b.matched)
    ensures KeyLess(EdgeRank(a), EdgeRank(b))
  {
    var ka, kb := EdgeRank(a), EdgeRank(b);
    assert ka[0] != kb[0];
  }

  /** `not kept.get(f) and dropped.get(f)` decides whether to copy a field. */
  function Fill(kept: Option<string>, dropped: Option<string>): (r: Option<string>)
    ensures Given(kept) ==> r == kept
    ensures !Given(kept) && Given(dropped) ==> r == dropped
    ensures Given(r) <==> Given(kept) || Given(dropped)
  {
    if !Given(kept) && Given(dropped) then dropped else kept
  }

  /** `bool(x)` for an optional flag. */
  predicate Set(b: Option<bool>) { b == Some(true) }

  /** `_merge_edge_provenance`: sorted unions of tile ids, pages and text ids,
      OR-ed flags, and empty station, hint and notes fields filled from the
      dropped edge. */
  function MergeEdgeProvenance(kept: Edge, dropped: Edge): (r: Edge)
    ensures forall t :: t in r.tileIds <==> t in kept.tileIds || t in dropped.tileIds
    ensures forall p :: p in r.pages <==> p in kept.pages || p in dropped.pages
    ensures forall t :: t in r.textIds <==> t in kept.textIds || t in dropped.textIds
    ensures forall i, j :: 0 <= i < j < |r.tileIds| ==> StrLess(r.tileIds[i], r.tileIds[j])
    ensures forall i, j :: 0 <= i < j < |r.pages| ==> r.pages[i] < r.pages[j]
    ensures forall i, j :: 0 <= i < j < |r.textIds| ==> r.textIds[i] < r.textIds[j]
    ensures r.sanitized == (kept.sanitized || dropped.sanitized)
    ensures r.referenceOnly == (kept.referenceOnly || dropped.referenceOnly)
    ensures Set(r.crownCandidate) == (Set(kept.crownCandidate) || Set(dropped.crownCandidate))
  {
    kept.(tileIds := UniqueStrings(kept.tileIds + dropped.tileIds),
          pages := UniqueInts(kept.pages + dropped.pages),
          textIds := UniqueInts(kept.textIds + dropped.textIds),
          sanitized := kept.sanitized || dropped.sanitized,
          crownCandidate := Some(Set(kept.crownCandidate) || Set(dropped.crownCandidate)),
          referenceOnly := kept.referenceOnly || dropped.referenceOnly,
          fromStation := Fill(kept.fromStation, dropped.fromStation),
          toStation := Fill(kept.toStation, dropped.toStation),
          fromHint := Fill(kept.fromHint, dropped.fromHint),
          toHint := Fill(kept.toHint, dropped.toHint),
          notes := Fill(kept.notes, dropped.notes))
  }

  /** Merging keeps the kept edge's identity, endpoints confidence and
      measurements; it never changes a field the kept edge already had. */
  lemma MergeEdgeProvenanceKeeps(kept: Edge, dropped: Edge)
    ensures var r := MergeEdgeProvenance(kept, dropped);
      r.edgeId == kept.edgeId && r.size == kept.size && r.length == kept.length
      && r.slope == kept.slope && r.matched == kept.matched
      && (Given(kept.fromStation) ==> r.fromStation == kept.fromStation)
      && (Given(kept.notes) ==> r.notes == kept.notes)
      && (Given(r.toHint) <==> Given(kept.toHint) || Given(dropped.toHint))
  {
  }
}
