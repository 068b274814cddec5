/** The pass/warn/fail gate over a pre-analysis package
    (src/extraction/validate_package.py): duplicate tile ids, declared
    counts against the artifacts, and the bad-tile ratio against two
    thresholds. The per-artifact file checks read the filesystem; here they
    are a parameter `check` giving each artifact's critical errors and
    warnings. */
module ValidatePackage {
  import opened Wrappers
  import opened Strings
  import opened Numeric
  import opened PackageContract

  const DefaultWarnThreshold: real := 0.15
  const DefaultFailThreshold: real := 0.30

  /** `PackageCounts` (each field is at least 0). */
  datatype Counts = Counts(
    totalCandidates: nat, pairedTiles: nat, missingTextLayers: nat, ok: nat,
    dryRun: nat, skippedLowCoherence: nat, validationError: nat, runtimeError: nat)

  /** The parts of `AnalysisPackage` the gate reads. */
  datatype Package = Package(counts: Counts, artifacts: seq<Artifact>)

  /** What the per-artifact path, hash and payload checks report for one
      artifact: critical errors, then warnings. */
  type ArtifactCheck = Artifact -> (seq<string>, seq<string>)

  /** One entry of the report's `critical_errors` or `warnings`. */
  datatype Issue =
    | DuplicateTileId(tileId: string)
    | ArtifactIssue(text: string)
    | TotalCandidatesMismatch(declared: nat, actual: nat)
    | PairedTilesMismatch(declared: nat, expected: int)
    | MissingTextLayersMismatch(declared: nat, actual: nat)
    | StatusCountMismatch(field: string, declared: nat, actual: nat)
    | FailThresholdExceeded(badRatio: real, threshold: real)
    | WarnThresholdExceeded(badRatio: real, threshold: real)

  /** The report text of an issue. */
  function IssueText(i: Issue): string {
    match i
    case DuplicateTileId(id) => "duplicate tile_id in package: " + id
    case ArtifactIssue(t) => t
    case TotalCandidatesMismatch(d, a) =>
      "counts.total_candidates does not match artifact count (" + NatToString(d) + " vs " + NatToString(a) + ")"
    case PairedTilesMismatch(d, e) => "counts.paired_tiles mismatch (" + NatToString(d) + " vs " + IntToString(e) + ")"
    case MissingTextLayersMismatch(d, a) =>
      "counts.missing_text_layers mismatch (" + NatToString(d) + " vs " + NatToString(a) + ")"
    case StatusCountMismatch(f, d, a) => "counts." + f + " mismatch (" + NatToString(d) + " vs " + NatToString(a) + ")"
    case FailThresholdExceeded(b, t) =>
      "quality gate exceeded fail threshold: bad_ratio=" + FormatFixed(b, 3, false) + " > " + FormatFixed(t, 3, false)
    case WarnThresholdExceeded(b, t) =>
      "quality gate exceeded warn threshold: bad_ratio=" + FormatFixed(b, 3, false) + " > " + FormatFixed(t, 3, false)
  }

  function Wrap(texts: seq<string>): (r: seq<Issue>)
    ensures |r| == |texts| && forall k :: 0 <= k < |r| ==> r[k] == ArtifactIssue(texts[k])
  {
    seq(|texts|, k requires 0 <= k < |texts| => ArtifactIssue(texts[k]))
  }

  /** The lists and the set of tile ids the artifact loop has built. */
  datatype Scan = Scan(critical: seq<Issue>, warnings: seq<Issue>, seen: set<string>)

  /** The artifact loop of `validate_analysis_package`: a tile id seen
      before is a critical error and that artifact is not checked further;
      a new one is recorded and checked. */
  function ScanArtifacts(arts: seq<Artifact>, check: ArtifactCheck): Scan {
    if |arts| == 0 then Scan([], [], {})
    else
      var s := ScanArtifacts(arts[..|arts| - 1], check);
      var a := arts[|arts| - 1];
      if a.tileId in s.seen then Scan(s.critical + [DuplicateTileId(a.tileId)], s.warnings, s.seen)
      else Scan(s.critical + Wrap(check(a).0), s.warnings + Wrap(check(a).1), s.seen + {a.tileId})
  }

  /** How many of the artifacts satisfy `p`. */
  function CountWhere(arts: seq<Artifact>, p: Artifact -> bool): (n: nat)
    ensures n <= |arts|
  {
    if |arts| == 0 then 0 else CountWhere(arts[..|arts| - 1], p) + (if p(arts[|arts| - 1]) then 1 else 0)
  }

  function StatusCount(arts: seq<Artifact>, st: ArtifactStatus): nat {
    CountWhere(arts, (a: Artifact) => a.status == st)
  }

  /** `_reconcile_counts`: the critical errors, then the warnings. */
  function Reconcile(pkg: Package): (seq<Issue>, seq<Issue>) {
    var arts, c := pkg.artifacts, pkg.counts;
    var missing := StatusCount(arts, MissingTextLayer);
    var expectedPaired := |arts| - missing;
    var critical :=
      (if c.totalCandidates != |arts| then [TotalCandidatesMismatch(c.totalCandidates, |arts|)] else [])
      + (if c.pairedTiles != expectedPaired then [PairedTilesMismatch(c.pairedTiles, expectedPaired)] else [])
      + (if c.missingTextLayers != missing then [MissingTextLayersMismatch(c.missingTextLayers, missing)] else []);
    (critical, StatusWarnings(pkg))
  }

  /** The warnings of `_reconcile_counts`, in its order. */
  function StatusWarnings(pkg: Package): seq<Issue> {
    var arts, c := pkg.artifacts, pkg.counts;
    Mismatch("ok", c.ok, StatusCount(arts, StatusOk))
    + Mismatch("dry_run", c.dryRun, StatusCount(arts, DryRun))
    + Mismatch("skipped_low_coherence", c.skippedLowCoherence, StatusCount(arts, SkippedLowCoherence))
    + Mismatch("validation_error", c.validationError, StatusCount(arts, ValidationError))
    + Mismatch("runtime_error", c.runtimeError, StatusCount(arts, RuntimeError))
  }

  function Mismatch(field: string, declared: nat, actual: nat): (r: seq<Issue>)
    ensures r == [] <==> declared == actual
  {
    if declared != actual then [StatusCountMismatch(field, declared, actual)] else []
  }

  /** `ValidationQuality` */
  datatype Quality = Quality(
    badRatio: real, warnThreshold: real, failThreshold: real,
    pairedTiles: nat, sanitizedTiles: nat, skippedLowCoherence: nat)

  /** `_compute_quality`. `ValidationQuality` refuses a negative threshold,
      so such a call raises. */
  function ComputeQuality(pkg: Package, warnThreshold: real, failThreshold: real): Result<Quality> {
    var paired: nat :=
      if pkg.counts.pairedTiles > 0 then pkg.counts.pairedTiles
      else if |pkg.artifacts| > pkg.counts.missingTextLayers then |pkg.artifacts| - pkg.counts.missingTextLayers
      else 0;
    var sanitized := CountWhere(pkg.artifacts, (a: Artifact) => a.sanitized);
    var skipped := StatusCount(pkg.artifacts, SkippedLowCoherence);
    var bad := if paired > 0 then (sanitized + skipped) as real / paired as real else 0.0;
    if warnThreshold < 0.0 || failThreshold < 0.0 then Err("threshold must be >= 0")
    else Ok(Quality(bad, warnThreshold, failThreshold, paired, sanitized, skipped))
  }

  datatype ValidationResult = Pass | Warn | Fail

  /** The verdict of a finished report. */
  function Verdict(critical: seq<Issue>, warnings: seq<Issue>): ValidationResult {
    if |critical| > 0 then Fail else if |warnings| > 0 then Warn else Pass
  }

  datatype Report = Report(result: ValidationResult, critical: seq<Issue>, warnings: seq<Issue>, quality: Quality)

  /** The threshold step: above the fail threshold is one critical error,
      otherwise above the warn threshold is one warning. */
  function Gate(q: Quality, critical: seq<Issue>, warnings: seq<Issue>): Report {
    var c := if q.badRatio > q.failThreshold then critical + [FailThresholdExceeded(q.badRatio, q.failThreshold)] else critical;
    var w := if q.badRatio <= q.failThreshold && q.badRatio > q.warnThreshold
             then warnings + [WarnThresholdExceeded(q.badRatio, q.warnThreshold)] else warnings;
    Report(Verdict(c, w), c, w, q)
  }

  /** `validate_analysis_package`: the artifact loop, the count
      reconciliation, the quality gate and the verdict. */
  function Validate(pkg: Package, warnThreshold: real, failThreshold: real, check: ArtifactCheck): Result<Report> {
    var s := ScanArtifacts(pkg.artifacts, check);
    var rc := Reconcile(pkg);
    match ComputeQuality(pkg, warnThreshold, failThreshold)
    case Err(e) => Err(e)
    case Ok(q) => Ok(Gate(q, s.critical + rc.0, s.warnings + rc.1))
  }

  /** The loop of `validate_analysis_package` over the artifacts, with its
      `seen_tile_ids` set, then the remaining steps. */
  method ValidateAnalysisPackage(pkg: Package, warnThreshold: real, failThreshold: real, check: ArtifactCheck)
    returns (r: Result<Report>)
    ensures r == Validate(pkg, warnThreshold, failThreshold, check)
  {
    var critical: seq<Issue> := [];
    var warnings: seq<Issue> := [];
    var seen: set<string> := {};
    var arts := pkg.artifacts;
    var i := 0;
    while i < |arts|
      invariant 0 <= i <= |arts|
      invariant ScanArtifacts(arts[..i], check) == Scan(critical, warnings, seen)
    {
      assert arts[..i + 1][..i] == arts[..i];
      var a := arts[i];
      if a.tileId in seen {
        critical := critical + [DuplicateTileId(a.tileId)];
      } else {
        seen := seen + {a.tileId};
        var found := check(a);
        critical := critical + Wrap(found.0);
        warnings := warnings + Wrap(found.1);
      }
      i := i + 1;
    }
    assert arts[..|arts|] == arts;
    var rc := ReconcileCounts(pkg);
    critical := critical + rc.0;
    warnings := warnings + rc.1;
    var quality := ComputeQuality(pkg, warnThreshold, failThreshold);
    if quality.Err? {
      return Err(quality.message);
    }
    var q := quality.value;
    if q.badRatio > failThreshold {
      critical := critical + [FailThresholdExceeded(q.badRatio, failThreshold)];
    } else if q.badRatio > warnThreshold {
      warnings := warnings + [WarnThresholdExceeded(q.badRatio, warnThreshold)];
    }
    var result := if |critical| > 0 then Fail else if |warnings| > 0 then Warn else Pass;
    return Ok(Report(result, critical, warnings, q));
  }

  /** `_reconcile_counts`, with its `status_counts` loop. */
  method ReconcileCounts(pkg: Package) returns (r: (seq<Issue>, seq<Issue>))
    ensures r == Reconcile(pkg)
  {
    var counts := CountStatuses(pkg.artifacts);
    var arts, c := pkg.artifacts, pkg.counts;
    var critical: seq<Issue> := [];
    var warnings: seq<Issue> := [];
    if c.totalCandidates != |arts| {
      critical := critical + [TotalCandidatesMismatch(c.totalCandidates, |arts|)];
    }
    var expectedPaired := |arts| - counts[MissingTextLayer];
    if c.pairedTiles != expectedPaired {
      critical := critical + [PairedTilesMismatch(c.pairedTiles, expectedPaired)];
    }
    if c.missingTextLayers != counts[MissingTextLayer] {
      critical := critical + [MissingTextLayersMismatch(c.missingTextLayers, counts[MissingTextLayer])];
    }
    warnings := Mismatch("ok", c.ok, counts[StatusOk])
      + Mismatch("dry_run", c.dryRun, counts[DryRun])
      + Mismatch("skipped_low_coherence", c.skippedLowCoherence, counts[SkippedLowCoherence])
      + Mismatch("validation_error", c.validationError, counts[ValidationError])
      + Mismatch("runtime_error", c.runtimeError, counts[RuntimeError]);
    assert critical == Reconcile(pkg).0;
    r := (critical, warnings);
  }

  /** The `status_counts` dict: one counter per status, incremented once
      per artifact. */
  method CountStatuses(arts: seq<Artifact>) returns (counts: map<ArtifactStatus, nat>)
    ensures forall st :: st in counts && counts[st] == StatusCount(arts, st)
  {
    counts := map[StatusOk := 0, DryRun := 0, SkippedLowCoherence := 0, ValidationError := 0,
                  RuntimeError := 0, MissingTextLayer := 0];
    forall st ensures st in counts && counts[st] == 0 {
      match st
      case StatusOk =>
      case DryRun =>
      case SkippedLowCoherence =>
      case ValidationError =>
      case RuntimeError =>
      case MissingTextLayer =>
    }
    var i := 0;
    while i < |arts|
      invariant 0 <= i <= |arts|
      invariant forall st :: st in counts && counts[st] == StatusCount(arts[..i], st)
    {
      assert arts[..i + 1][..i] == arts[..i];
      var st := arts[i].status;
      counts := counts[st := counts[st] + 1];
      i := i + 1;
    }
    assert arts[..|arts|] == arts;
  }

  /** The verdict is FAIL exactly when there is a critical error, WARN
      exactly when there is none but some warning, and PASS otherwise. */
  lemma VerdictRule(pkg: Package, warnThreshold: real, failThreshold: real, check: ArtifactCheck)
    requires Validate(pkg, warnThreshold, failThreshold, check).Ok?
    ensures var rep := Validate(pkg, warnThreshold, failThreshold, check).value;
            (rep.result == Fail <==> |rep.critical| > 0)
            && (rep.result == Warn <==> |rep.critical| == 0 && |rep.warnings| > 0)
            && (rep.result == Pass <==> |rep.critical| == 0 && |rep.warnings| == 0)
  {
  }

  /** A bad-tile ratio above the fail threshold fails the package with one
      threshold error; one above only the warn threshold adds one warning
      and at best warns. */
  lemma ThresholdGate(pkg: Package, warnThreshold: real, failThreshold: real, check: ArtifactCheck)
    requires Validate(pkg, warnThreshold, failThreshold, check).Ok?
    ensures var rep := Validate(pkg, warnThreshold, failThreshold, check).value;
            var b := rep.quality.badRatio;
            (b > failThreshold ==> rep.result == Fail && rep.critical[|rep.critical| - 1] == FailThresholdExceeded(b, failThreshold))
            && (warnThreshold < b <= failThreshold ==>
                  rep.result != Pass && rep.warnings[|rep.warnings| - 1] == WarnThresholdExceeded(b, warnThreshold))
            && (b <= warnThreshold && b <= failThreshold ==>
                  forall k :: 0 <= k < |rep.critical| ==> !rep.critical[k].FailThresholdExceeded?)
  {
    var s := ScanArtifacts(pkg.artifacts, check);
    var rc := Reconcile(pkg);
    var rep := Validate(pkg, warnThreshold, failThreshold, check).value;
    var b := rep.quality.badRatio;
    if b <= warnThreshold && b <= failThreshold {
      assert rep.critical == s.critical + rc.0;
      ScanHasNoThresholdIssue(pkg.artifacts, check);
    }
  }

  lemma {:induction false} ScanHasNoThresholdIssue(arts: seq<Artifact>, check: ArtifactCheck)
    ensures forall k :: 0 <= k < |ScanArtifacts(arts, check).critical| ==>
              !ScanArtifacts(arts, check).critical[k].FailThresholdExceeded?
  {
    if |arts| > 0 { ScanHasNoThresholdIssue(arts[..|arts| - 1], check); }
  }

  /** The tile ids of the artifacts. */
  function TileIds(arts: seq<Artifact>): set<string> {
    if |arts| == 0 then {} else TileIds(arts[..|arts| - 1]) + {arts[|arts| - 1].tileId}
  }

  lemma {:induction false} TileIdsMembers(arts: seq<Artifact>, id: string)
    ensures id in TileIds(arts) <==> exists k :: 0 <= k < |arts| && arts[k].tileId == id
  {
    if |arts| > 0 {
      var init := arts[..|arts| - 1];
      TileIdsMembers(init, id);
      if exists k :: 0 <= k < |init| && init[k].tileId == id {
        var k :| 0 <= k < |init| && init[k].tileId == id;
        assert arts[k] == init[k];
      }
      if exists k :: 0 <= k < |arts| && arts[k].tileId == id {
        var k :| 0 <= k < |arts| && arts[k].tileId == id;
        if k < |init| { assert init[k] == arts[k]; }
      }
    }
  }

  /** The artifact loop records every tile id, and raises one duplicate
      error for each artifact whose id came earlier: the duplicate errors
      number the artifacts less the distinct ids. */
  lemma {:induction false} ScanDuplicates(arts: seq<Artifact>, check: ArtifactCheck)
    ensures ScanArtifacts(arts, check).seen == TileIds(arts)
    ensures Duplicates(ScanArtifacts(arts, check).critical) + |TileIds(arts)| == |arts|
  {
    if |arts| > 0 {
      var init := arts[..|arts| - 1];
      var a := arts[|arts| - 1];
      ScanDuplicates(init, check);
      var s := ScanArtifacts(init, check);
      var ids := TileIds(init);
      assert TileIds(arts) == ids + {a.tileId};
      AddCard(ids, a.tileId);
      var critical := ScanArtifacts(arts, check).critical;
      var added := if a.tileId in s.seen then [DuplicateTileId(a.tileId)] else Wrap(check(a).0);
      assert critical == s.critical + added;
      DuplicatesAppend(s.critical, added);
      if a.tileId !in s.seen {
        DuplicatesWrapped(check(a).0);
      }
    }
  }

  lemma AddCard<X>(xs: set<X>, x: X)
    ensures |xs + {x}| == if x in xs then |xs| else |xs| + 1
  {
    if x in xs {
      assert xs + {x} == xs;
    }
  }

  /** The number of duplicate-id errors in a list of issues. */
  function Duplicates(issues: seq<Issue>): nat {
    if |issues| == 0 then 0
    else Duplicates(issues[..|issues| - 1]) + (if issues[|issues| - 1].DuplicateTileId? then 1 else 0)
  }

  lemma {:induction false} DuplicatesAppend(a: seq<Issue>, b: seq<Issue>)
    ensures Duplicates(a + b) == Duplicates(a) + Duplicates(b)
  {
    if |b| > 0 {
      DuplicatesAppend(a, b[..|b| - 1]);
      assert (a + b)[..|a + b| - 1] == a + b[..|b| - 1];
    } else {
      assert a + b == a;
    }
  }

  lemma {:induction false} DuplicatesWrapped(texts: seq<string>)
    ensures Duplicates(Wrap(texts)) == 0
  {
    if |texts| > 0 {
      DuplicatesWrapped(texts[..|texts| - 1]);
      assert Wrap(texts)[..|texts| - 1] == Wrap(texts[..|texts| - 1]);
    }
  }

  /** A package whose tile ids are all distinct raises no duplicate error. */
  lemma DistinctIdsNoDuplicates(arts: seq<Artifact>, check: ArtifactCheck)
    requires forall i, j :: 0 <= i < j < |arts| ==> arts[i].tileId != arts[j].tileId
    ensures Duplicates(ScanArtifacts(arts, check).critical) == 0
  {
    ScanDuplicates(arts, check);
    DistinctIdsCount(arts);
  }

  lemma {:induction false} DistinctIdsCount(arts: seq<Artifact>)
    requires forall i, j :: 0 <= i < j < |arts| ==> arts[i].tileId != arts[j].tileId
    ensures |TileIds(arts)| == |arts|
  {
    if |arts| > 0 {
      var init := arts[..|arts| - 1];
      var a := arts[|arts| - 1];
      DistinctIdsCount(init);
      forall k | 0 <= k < |init| ensures init[k].tileId != a.tileId {
        assert init[k] == arts[k];
      }
      TileIdsMembers(init, a.tileId);
      assert TileIds(arts) == TileIds(init) + {a.tileId};
    }
  }

  /** The count reconciliation raises a critical error exactly when the
      declared total, paired or missing-text-layer count disagrees with the
      artifacts, and a warning exactly when one of the five other status
      counts does. */
  lemma ReconcileRule(pkg: Package)
    ensures var arts, c := pkg.artifacts, pkg.counts;
            var missing := StatusCount(arts, MissingTextLayer);
            (Reconcile(pkg).0 == [] <==>
               c.totalCandidates == |arts| && c.pairedTiles == |arts| - missing && c.missingTextLayers == missing)
            && (Reconcile(pkg).1 == [] <==>
               c.ok == StatusCount(arts, StatusOk) && c.dryRun == StatusCount(arts, DryRun)
               && c.skippedLowCoherence == StatusCount(arts, SkippedLowCoherence)
               && c.validationError == StatusCount(arts, ValidationError)
               && c.runtimeError == StatusCount(arts, RuntimeError))
  {
  }

  /** The bad-tile ratio is (sanitized + skipped) over the paired count,
      where a declared paired count of 0 falls back to the artifacts less the
      declared missing text layers; it is 0 when that is still 0, and never
      negative. */
  lemma QualityRule(pkg: Package, warnThreshold: real, failThreshold: real)
    requires warnThreshold >= 0.0 && failThreshold >= 0.0
    ensures ComputeQuality(pkg, warnThreshold, failThreshold).Ok?
    ensures var q := ComputeQuality(pkg, warnThreshold, failThreshold).value;
            var fallback := if |pkg.artifacts| > pkg.counts.missingTextLayers then |pkg.artifacts| - pkg.counts.missingTextLayers else 0;
            q.pairedTiles == (if pkg.counts.pairedTiles > 0 then pkg.counts.pairedTiles else fallback)
            && q.sanitizedTiles == CountWhere(pkg.artifacts, (a: Artifact) => a.sanitized)
            && q.skippedLowCoherence == StatusCount(pkg.artifacts, SkippedLowCoherence)
            && q.badRatio >= 0.0
            && (q.pairedTiles > 0 ==> q.badRatio * q.pairedTiles as real == (q.sanitizedTiles + q.skippedLowCoherence) as real)
            && (q.pairedTiles == 0 ==> q.badRatio == 0.0)
  {
  }
}
