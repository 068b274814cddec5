/** The pre-analysis package contract (src/extraction/package_contract.py):
    tile ids of the form "p{page}_r{row}_c{col}", artifact statuses, and
    the artifact list built from a batch summary. */
module PackageContract {
  import opened Wrappers
  import opened Strings
  import opened Ordering
  import opened Json
  import Tiler

  /** `ArtifactStatus` */
  datatype ArtifactStatus =
    | StatusOk
    | DryRun
    | SkippedLowCoherence
    | ValidationError
    | RuntimeError
    | MissingTextLayer

  /** The enum value of a status. */
  function StatusValue(st: ArtifactStatus): string {
    match st
    case StatusOk => "ok"
    case DryRun => "dry_run"
    case SkippedLowCoherence => "skipped_low_coherence"
    case ValidationError => "validation_error"
    case RuntimeError => "runtime_error"
    case MissingTextLayer => "missing_text_layer"
  }

  /** The status text `normalize_status` compares: `str(raw or "")` trimmed
      and lower-cased. Only a string can give one of the status values, since
      `str()` of a number, a boolean, a list or a dict never spells one; such
      values give None here. */
  function StatusText(raw: Json): Option<string> {
    if raw.JString? then Some(Lower(Strip(raw.s))) else None
  }

  /** `normalize_status`: an exact match of one of the six values, anything
      else a runtime error. */
  function NormalizeStatus(raw: Json): ArtifactStatus {
    match StatusText(raw)
    case None => RuntimeError
    case Some(t) =>
      if t == "ok" then StatusOk
      else if t == "dry_run" then DryRun
      else if t == "skipped_low_coherence" then SkippedLowCoherence
      else if t == "validation_error" then ValidationError
      else if t == "runtime_error" then RuntimeError
      else if t == "missing_text_layer" then MissingTextLayer
      else RuntimeError
  }

  /** Each status is read back from its own value. */
  lemma StatusRoundTrip(st: ArtifactStatus)
    ensures NormalizeStatus(JString(StatusValue(st))) == st
  {
    StatusValueClean(st);
    KnownStatus(JString(StatusValue(st)), st);
  }

  lemma StatusValueClean(st: ArtifactStatus)
    ensures StatusText(JString(StatusValue(st))) == Some(StatusValue(st))
  {
    match st
    case StatusOk => StatusTextOfValue("ok");
    case DryRun => StatusTextOfValue("dry_run");
    case SkippedLowCoherence => StatusTextOfValue("skipped_low_coherence");
    case ValidationError => StatusTextOfValue("validation_error");
    case RuntimeError => StatusTextOfValue("runtime_error");
    case MissingTextLayer => StatusTextOfValue("missing_text_layer");
  }

  /** Trimming and lower-casing leave text without edge spaces and capitals
      as it is. */
  lemma StatusTextOfValue(v: string)
    requires |v| > 0 && !IsSpace(v[0]) && !IsSpace(v[|v| - 1])
    requires forall i :: 0 <= i < |v| ==> !('A' <= v[i] <= 'Z')
    ensures StatusText(JString(v)) == Some(v)
  {
    StripNoEdgeSpace(v);
    LowerIdentity(v);
  }

  /** A missing or non-string status, and text naming none of the six
      values, is a runtime error. */
  lemma UnknownStatus(raw: Json)
    requires forall st :: StatusText(raw) != Some(StatusValue(st))
    ensures NormalizeStatus(raw) == RuntimeError
  {
    assert StatusText(raw) != Some(StatusValue(StatusOk));
    assert StatusText(raw) != Some(StatusValue(DryRun));
    assert StatusText(raw) != Some(StatusValue(SkippedLowCoherence));
    assert StatusText(raw) != Some(StatusValue(ValidationError));
    assert StatusText(raw) != Some(StatusValue(MissingTextLayer));
  }

  /** Text naming a status, after trimming and lower-casing, gives it. */
  lemma KnownStatus(raw: Json, st: ArtifactStatus)
    requires StatusText(raw) == Some(StatusValue(st))
    ensures NormalizeStatus(raw) == st
  {
  }

  /** The case-insensitive letter `letter` at `q` followed by one or more
      digits: the digits and the position after them. */
  function Field(s: string, q: nat, letter: char): (r: Option<(string, nat)>)
    requires q <= |s|
    ensures r.Some? ==> r.value.1 <= |s| && |r.value.0| > 0 && AllDigits(r.value.0)
  {
    if q < |s| && LowerChar(s[q]) == letter then
      var n := DigitsFrom(s, q + 1);
      if n > 0 then Some((s[q + 1..q + 1 + n], q + 1 + n)) else None
    else None
  }

  /** How `TILE_ID_PATTERN.match` reads `s`: the page, row and column digits
      of `^p(\d+)_r\d+_c\d+$` (letters in either case), or None. As in
      Python, `$` also matches before a final newline. */
  function MatchTileId(s: string): (r: Option<(string, string, string)>) {
    match Field(s, 0, 'p')
    case None => None
    case Some(page) =>
      if !(page.1 < |s| && s[page.1] == '_') then None
      else match Field(s, page.1 + 1, 'r')
        case None => None
        case Some(row) =>
          if !(row.1 < |s| && s[row.1] == '_') then None
          else match Field(s, row.1 + 1, 'c')
            case None => None
            case Some(col) =>
              if col.1 == |s| || (col.1 == |s| - 1 && s[col.1] == '\n') then Some((page.0, row.0, col.0))
              else None
  }

  predicate IsTileId(s: string) { MatchTileId(s).Some? }

  /** `page_number_from_tile_id`: the page digits of the trimmed id. */
  function PageNumberFromTileId(tileId: string): (r: Option<nat>) {
    match MatchTileId(Strip(tileId))
    case None => None
    case Some(m) => Some(DigitsValue(m.0))
  }

  /** `PackageArtifact`'s tile-id validator: the trimmed id, or an error. */
  function ValidateTileId(value: string): (r: Result<string>) {
    var token := Strip(value);
    if IsTileId(token) then Ok(token) else Err("tile_id must match pNN_rX_cY")
  }

  /** The fallback id of a malformed row. */
  function FallbackTileId(index: nat): string {
    "p0_r0_c" + NatToString(index)
  }

  /** `_normalize_tile_id` */
  function NormalizeTileId(value: Json, fallbackIndex: nat): string {
    if value.JString? && IsTileId(Strip(value.s)) then Strip(value.s) else FallbackTileId(fallbackIndex)
  }

  lemma FieldOf(t: string, q: nat, letter: char, digits: string)
    requires AllDigits(digits) && |digits| > 0
    requires q + 1 + |digits| <= |t| && LowerChar(t[q]) == letter && t[q + 1..q + 1 + |digits|] == digits
    requires q + 1 + |digits| == |t| || !IsDigit(t[q + 1 + |digits|])
    ensures Field(t, q, letter) == Some((digits, q + 1 + |digits|))
  {
    forall i | q + 1 <= i < q + 1 + |digits| ensures IsDigit(t[i]) {
      assert t[i] == digits[i - q - 1];
    }
    DigitsFromExact(t, q + 1, |digits|);
  }

  /** The pieces of "p{a}_r{b}_c{c}" sit where the matcher looks for them. */
  lemma TileIdPieces(a: string, b: string, c: string)
    requires AllDigits(a) && AllDigits(b) && AllDigits(c) && |a| > 0 && |b| > 0 && |c| > 0
    ensures var t := "p" + a + "_r" + b + "_c" + c;
            var i := 1 + |a|;
            var j := i + 2 + |b|;
            |t| == j + 2 + |c|
            && t[0] == 'p' && t[1..i] == a && t[i] == '_'
            && t[i + 1] == 'r' && t[i + 2..j] == b && t[j] == '_'
            && t[j + 1] == 'c' && t[j + 2..] == c
  {
  }

  /** The matcher reads each piece of an id it is given back. */
  lemma MatchTileIdPieces(a: string, b: string, c: string)
    requires AllDigits(a) && AllDigits(b) && AllDigits(c) && |a| > 0 && |b| > 0 && |c| > 0
    ensures MatchTileId("p" + a + "_r" + b + "_c" + c) == Some((a, b, c))
  {
    var t := "p" + a + "_r" + b + "_c" + c;
    var i := 1 + |a|;
    var j := i + 2 + |b|;
    TileIdPieces(a, b, c);
    FieldOf(t, 0, 'p', a);
    FieldOf(t, i + 1, 'r', b);
    FieldOf(t, j + 1, 'c', c);
  }

  /** Every id `tile_page` produces is already trimmed and matches the
      pattern, which reads its three numbers back. */
  lemma TileIdRoundTrip(page: nat, row: nat, col: nat)
    ensures var t := Tiler.TileId(page, row, col);
            Strip(t) == t
            && MatchTileId(t) == Some((NatToString(page), NatToString(row), NatToString(col)))
  {
    NatToStringDigits(page);
    NatToStringDigits(row);
    NatToStringDigits(col);
    var t := Tiler.TileId(page, row, col);
    MatchTileIdPieces(NatToString(page), NatToString(row), NatToString(col));
    var c := NatToString(col);
    assert t[|t| - 1] == c[|c| - 1];
    StripNoEdgeSpace(t);
  }

  /** `page_number_from_tile_id` reads back the page of every id `tile_page`
      produces. */
  lemma PageNumberOfTileId(page: nat, row: nat, col: nat)
    ensures PageNumberFromTileId(Tiler.TileId(page, row, col)) == Some(page)
  {
    TileIdRoundTrip(page, row, col);
    NatToStringDigits(page);
  }

  lemma NatToStringInjective(m: nat, n: nat)
    requires NatToString(m) == NatToString(n)
    ensures m == n
  {
    NatToStringDigits(m);
    NatToStringDigits(n);
  }

  /** Distinct grid cells get distinct ids. */
  lemma TileIdInjective(p1: nat, r1: nat, c1: nat, p2: nat, r2: nat, c2: nat)
    requires Tiler.TileId(p1, r1, c1) == Tiler.TileId(p2, r2, c2)
    ensures p1 == p2 && r1 == r2 && c1 == c2
  {
    TileIdRoundTrip(p1, r1, c1);
    TileIdRoundTrip(p2, r2, c2);
    NatToStringInjective(p1, p2);
    NatToStringInjective(r1, r2);
    NatToStringInjective(c1, c2);
  }

  /** The fallback id is the id of cell (0, index) on page 0, so the
      validator accepts it unchanged. */
  lemma FallbackTileIdValid(index: nat)
    ensures ValidateTileId(FallbackTileId(index)) == Ok(FallbackTileId(index))
  {
    TileIdRoundTrip(0, 0, index);
    assert NatToString(0) == "0";
    assert Tiler.TileId(0, 0, index) == FallbackTileId(index);
  }

  /** `_normalize_tile_id` keeps a valid trimmed id, and anything else
      becomes the fallback id; either way the result passes the validator
      unchanged, so every artifact the builder makes is accepted. */
  lemma NormalizeTileIdValid(value: Json, fallbackIndex: nat)
    ensures value.JString? && IsTileId(Strip(value.s)) ==> NormalizeTileId(value, fallbackIndex) == Strip(value.s)
    ensures !(value.JString? && IsTileId(Strip(value.s))) ==> NormalizeTileId(value, fallbackIndex) == FallbackTileId(fallbackIndex)
    ensures ValidateTileId(NormalizeTileId(value, fallbackIndex)) == Ok(NormalizeTileId(value, fallbackIndex))
  {
    if value.JString? && IsTileId(Strip(value.s)) {
      StripIdempotent(value.s);
    } else {
      FallbackTileIdValid(fallbackIndex);
    }
  }

  /** The fields of `PackageArtifact` this model keeps (paths, hashes and
      the coherence score and corrected fields of the meta summary are not
      part of it). */
  datatype Artifact = Artifact(tileId: string, pageNumber: nat, status: ArtifactStatus, sanitized: bool)

  /** The page number of a row: the meta `page_number` when `int()` gives a
      value of at least 0, otherwise the page of the tile id, otherwise 0. */
  function RowPage(meta: Json, tileId: string): nat {
    var p := ToInt(Get(meta, "page_number")).GetOr(-1);
    if p >= 0 then p else PageNumberFromTileId(tileId).GetOr(0)
  }

  /** The artifact of result row number `index` (1-based), or None for a row
      that is not a mapping. */
  function RowArtifact(row: Json, index: nat): (r: Option<Artifact>)
    ensures r.Some? <==> row.JObject?
  {
    if !row.JObject? then None
    else
      var meta := if Get(row, "meta").JObject? then Get(row, "meta") else JObject([]);
      var tileId := NormalizeTileId(Or(Get(meta, "tile_id"), Get(row, "tile_stem")), index);
      Some(Artifact(tileId, RowPage(meta, tileId), NormalizeStatus(Get(row, "status")),
                    Truthy(GetOr(meta, "sanitized", JBool(false)))))
  }

  /** The artifacts of the rows, in row order. */
  function RowArtifacts(rows: seq<Json>): seq<Artifact> {
    Keep(rows, RowArtifact)
  }

  function TileIdKey(a: Artifact): SortKey { StrKey(a.tileId) }

  /** The artifact list of `build_analysis_package_from_summary`: the
      artifacts of the `results` rows when that is a list, sorted by tile
      id. */
  function Artifacts(results: Json): seq<Artifact> {
    if results.JArray? then SortBy(RowArtifacts(results.items), TileIdKey) else []
  }

  /** The row loop of `build_analysis_package_from_summary`, then the sort. */
  method BuildArtifacts(results: Json) returns (artifacts: seq<Artifact>)
    ensures artifacts == Artifacts(results)
  {
    artifacts := [];
    if results.JArray? {
      var rows := results.items;
      var i := 0;
      while i < |rows|
        invariant 0 <= i <= |rows|
        invariant artifacts == Keep(rows[..i], RowArtifact)
      {
        KeepStep(rows, RowArtifact, i);
        var a := RowArtifact(rows[i], i + 1);
        if a.Some? {
          artifacts := artifacts + [a.value];
        }
        i := i + 1;
      }
      assert rows[..|rows|] == rows;
      artifacts := SortBy(artifacts, TileIdKey);
    }
  }

  /** One artifact per mapping row, each carrying a tile id the validator
      accepts unchanged. */
  lemma RowArtifactsValid(rows: seq<Json>)
    ensures |RowArtifacts(rows)| == |set k | 0 <= k < |rows| && rows[k].JObject?|
    ensures forall a :: a in RowArtifacts(rows) ==> ValidateTileId(a.tileId) == Ok(a.tileId)
  {
    KeepDicts(rows, RowArtifact);
    forall a | a in RowArtifacts(rows) ensures ValidateTileId(a.tileId) == Ok(a.tileId) {
      KeepMembers(rows, RowArtifact, a);
      var k :| 0 <= k < |rows| && RowArtifact(rows[k], k + 1) == Some(a);
      var row := rows[k];
      var meta := if Get(row, "meta").JObject? then Get(row, "meta") else JObject([]);
      NormalizeTileIdValid(Or(Get(meta, "tile_id"), Get(row, "tile_stem")), k + 1);
    }
  }

  /** The artifact list is sorted by tile id, is a permutation of the
      artifacts of the mapping rows, and every tile id in it is valid. */
  lemma ArtifactsProperties(results: Json)
    ensures results.JArray? ==>
              multiset(Artifacts(results)) == multiset(RowArtifacts(results.items))
              && |Artifacts(results)| == |set k | 0 <= k < |results.items| && results.items[k].JObject?|
    ensures !results.JArray? ==> Artifacts(results) == []
    ensures forall i, j :: 0 <= i < j < |Artifacts(results)| ==>
              !StrLess(Artifacts(results)[j].tileId, Artifacts(results)[i].tileId)
    ensures forall a :: a in Artifacts(results) ==> ValidateTileId(a.tileId) == Ok(a.tileId)
  {
    if results.JArray? {
      var arts := RowArtifacts(results.items);
      SortByProperties(arts, TileIdKey);
      RowArtifactsValid(results.items);
      var sorted := Artifacts(results);
      assert |multiset(sorted)| == |multiset(arts)|;
      forall a | a in sorted ensures ValidateTileId(a.tileId) == Ok(a.tileId) {
        assert a in multiset(sorted);
      }
      forall i, j | 0 <= i < j < |sorted| ensures !StrLess(sorted[j].tileId, sorted[i].tileId) {
        assert KeyLe(TileIdKey(sorted[i]), TileIdKey(sorted[j]));
        SingleKeyLess(KStr(sorted[j].tileId), KStr(sorted[i].tileId));
      }
    }
  }
}
