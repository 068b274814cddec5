/** The repository's progress-docs gate: a change set that touches anything
    beyond the progress and enforcement files must also update both
    PROGRESS.md and PROGRESS_SUMMARY.md. The changed-file list that git
    reports is the input; obtaining it is not modelled. */
module ProgressDocs {
  import opened Ordering

  const ProgressFiles: seq<string> := ["PROGRESS.md", "PROGRESS_SUMMARY.md"]

  const IgnorePrefixes: seq<string> :=
    [".git/", "output/", "logs/", "References/", "test-extractions/", "__pycache__/", ".pytest_cache/"]

  const EnforcementFiles: set<string> := {
    "AGENTS.md",
    "docs/PROGRESS_LOGGING_PROTOCOL.md",
    "scripts/check_progress_docs.py",
    "scripts/setup_progress_hook.ps1",
    ".githooks/pre-commit",
    ".github/workflows/progress-docs-check.yml",
    ".cursor/rules/progress-logging.mdc",
    ".cursor/skills/progress-log/SKILL.md",
    ".claude/skills/progress-log/SKILL.md",
    ".codex/skills/progress-log/SKILL.md",
    "skills/progress-log/SKILL.md"
  }

  /** `any(path.startswith(p) for p in prefixes)` */
  predicate StartsWithAny(path: string, prefixes: seq<string>)
    decreases |prefixes|
  {
    |prefixes| > 0 && (prefixes[0] <= path || StartsWithAny(path, prefixes[1..]))
  }

  lemma {:induction false} StartsWithAnyIff(path: string, prefixes: seq<string>)
    ensures StartsWithAny(path, prefixes) <==> exists i :: 0 <= i < |prefixes| && prefixes[i] <= path
    decreases |prefixes|
  {
    if |prefixes| > 0 {
      StartsWithAnyIff(path, prefixes[1..]);
      if StartsWithAny(path, prefixes[1..]) {
        var i :| 0 <= i < |prefixes[1..]| && prefixes[1..][i] <= path;
        assert prefixes[i + 1] <= path;
      }
      forall i | 0 < i < |prefixes| && prefixes[i] <= path
        ensures StartsWithAny(path, prefixes[1..])
      {
        assert prefixes[1..][i - 1] == prefixes[i];
      }
    }
  }

  predicate IsIgnored(path: string) {
    StartsWithAny(path, IgnorePrefixes)
  }

  /** `is_ignored` holds exactly when one of the ignore prefixes starts the path. */
  lemma IgnoredRule(path: string)
    ensures IsIgnored(path) <==> exists i :: 0 <= i < |IgnorePrefixes| && IgnorePrefixes[i] <= path
  {
    StartsWithAnyIff(path, IgnorePrefixes);
  }

  predicate IsRelevant(path: string) {
    !IsIgnored(path) && path !in ProgressFiles && path !in EnforcementFiles
  }

  /** A vendored reference tree and the progress files themselves never make a
      change relevant; an ordinary source file does. */
  lemma RelevantExamples()
    ensures !IsRelevant("References/cc-crossbeam-main/app/page.tsx")
    ensures !IsRelevant("PROGRESS_SUMMARY.md") && !IsRelevant("AGENTS.md")
    ensures IsRelevant("src/graph/merge.py")
  {
    IgnoredRule("References/cc-crossbeam-main/app/page.tsx");
    var vendored := "References/cc-crossbeam-main/app/page.tsx";
    assert vendored[..11] == IgnorePrefixes[3];
    IgnoredRule("src/graph/merge.py");
    forall i | 0 <= i < |IgnorePrefixes| ensures !(IgnorePrefixes[i] <= "src/graph/merge.py") {
      assert IgnorePrefixes[i][0] != 's';
    }
  }

  /** `[path for path in changed if is_relevant(path)]` */
  function Relevant(changed: seq<string>): (r: seq<string>)
    ensures |r| <= |changed|
    ensures forall p :: p in r <==> p in changed && IsRelevant(p)
  {
    if |changed| == 0 then []
    else (if IsRelevant(changed[0]) then [changed[0]] else []) + Relevant(changed[1..])
  }

  /** The progress files that the change set does not contain. */
  function Absent(files: seq<string>, changed: seq<string>): (r: seq<string>)
    ensures forall p :: p in r <==> p in files && p !in changed
  {
    if |files| == 0 then []
    else (if files[0] !in changed then [files[0]] else []) + Absent(files[1..], changed)
  }

  /** `sorted(path for path in PROGRESS_FILES if path not in changed_set)` */
  function Missing(changed: seq<string>): seq<string> {
    SortBy(Absent(ProgressFiles, changed), StrKey)
  }

  datatype Outcome =
    | NoChanges
    | OnlyExempt
    | Fail(relevant: seq<string>, missing: seq<string>)
    | Pass

  /** The decision of the gate's `main` for a changed-file list. */
  function Decide(changed: seq<string>): Outcome {
    if |changed| == 0 then NoChanges
    else
      var relevant := Relevant(changed);
      if |relevant| == 0 then OnlyExempt
      else
        var missing := Missing(changed);
        if |missing| > 0 then Fail(relevant, missing) else Pass
  }

  function ExitCode(o: Outcome): (code: nat)
    ensures code == 0 || code == 1
  {
    if o.Fail? then 1 else 0
  }

  /** The reported missing list is sorted and holds exactly the progress files
      absent from the change set. */
  lemma MissingRule(changed: seq<string>)
    ensures SortedBy(Missing(changed), StrKey)
    ensures forall p :: p in Missing(changed) <==> p in ProgressFiles && p !in changed
  {
    var a := Absent(ProgressFiles, changed);
    SortByProperties(a, StrKey);
    forall p ensures p in Missing(changed) <==> p in a {
      assert p in Missing(changed) <==> p in multiset(Missing(changed));
      assert p in a <==> p in multiset(a);
    }
  }

  /** The gate fails exactly when something relevant changed and one of the two
      progress files did not. */
  lemma DecideRule(changed: seq<string>)
    ensures ExitCode(Decide(changed)) == 1 <==>
      (exists p :: p in changed && IsRelevant(p)) &&
      ("PROGRESS.md" !in changed || "PROGRESS_SUMMARY.md" !in changed)
  {
    MissingRule(changed);
    var relevant := Relevant(changed);
    if |relevant| > 0 {
      assert relevant[0] in changed && IsRelevant(relevant[0]);
    }
    var missing := Missing(changed);
    if "PROGRESS.md" !in changed {
      assert "PROGRESS.md" in missing;
    } else if "PROGRESS_SUMMARY.md" !in changed {
      assert "PROGRESS_SUMMARY.md" in missing;
    } else if |missing| > 0 {
      assert missing[0] in ProgressFiles;
    }
  }

  /** When both progress files change, the gate passes whatever else changed. */
  lemma BothUpdatedPass(changed: seq<string>)
    requires "PROGRESS.md" in changed && "PROGRESS_SUMMARY.md" in changed
    ensures ExitCode(Decide(changed)) == 0
  {
    DecideRule(changed);
  }
}
