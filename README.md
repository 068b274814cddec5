# Plan-Reviewer reconciliation and checking engine, in Dafny

This project models the deterministic core of Plan-Reviewer, a pipeline that reads
civil-engineering utility plan sets (storm drain `SD`, sanitary sewer `SS`, water `W`)
and turns per-tile extractions of structures and pipes into a utility graph that it
then checks for inconsistencies. The model covers:

- station and offset parsing (`16+82.45` is 1682.45 ft, `28.00' RT` is +28.0 ft);
- the structure merge: utility filtering, exact-key grouping, representative picks by
  richness rank, provenance unions, the seed-based proximity pass and the final sort;
- graph assembly: endpoint matching with its confidence ladder, length-inferred
  endpoints, orphan anchors, the crown-suspect filter, duplicate-edge collapsing,
  gravity orientation and the tile-quality summary and grade;
- the consistency checks: connectivity, flow direction (backfall), slope mismatch
  with direction-aware invert selection, rim-elevation spread and cross-sheet pipe
  size buckets, and the order in which `run_all_checks` joins them;
- the pure helpers around the engine: the page selector of the command line, the
  unicode cleanup, the text-coherence counter, the tile grid, sheet-label and
  sheet-type classification, the sanitiser and JSON-candidate extractor for model
  output, status and tile-id normalisation of the analysis package, count
  reconciliation and the quality gate, and the progress-docs gate.

Each source file is one module (`parsing.dfy` is `src/utils/parsing.py`, `merge.dfy` is
`src/graph/merge.py`, and so on); `assembly.dfy`, `passes.dfy` and `build.dfy` together
model `src/graph/assembly.py`, and `graph.dfy` models the networkx `DiGraph` the engine
works on: a `class DiGraph` whose node and edge maps and insertion orders the
assembly methods update in place, with a `GraphState` value for the read-only checks.
Shared modules give Python's semantics for the builtins the source relies on:
`Strings` (`str.strip`, `split`, `upper`, `replace`, `join`), `Ordering` (stable sort,
`sorted(set(...))`), `Numeric` (round-half-even, fixed-point formatting, `int()` of
text), `Json` (the JSON values the loaders return, truthiness) and `Wrappers`
(`Option`, `Result`). Raising an exception is an `Err` result. Floating-point
quantities are exact reals.

Loops in the source that update variables are methods with loop invariants, each
proved equal to a function that states the same computation; the properties are
proved about those functions.

## Model

| member | source | states |
|---|---|---|
| Parsing.ParseStation | src/utils/parsing.py:15-29 | the result exists exactly when the station pattern is found, and then lies in [100 * major, 100 * (major + 1)) of the first match |
| Parsing.SearchStationNone | src/utils/parsing.py:7-9 | the search fails exactly when no position of the text starts a station match |
| Parsing.SearchStationFirst | src/utils/parsing.py:23 | the search returns the leftmost match |
| Parsing.ParseStationNone | src/utils/parsing.py:23-25 | `parse_station` is None exactly when no station pattern occurs anywhere in the text |
| Parsing.StationRoundTrip | src/utils/parsing.py:15-29 | printing a station `major+minor[.frac]` and parsing it gives 100 * major + minor |
| Parsing.NoDigitsNoStation | src/utils/parsing.py:7-9 | a text without digits holds no station |
| Parsing.StationExample | src/utils/parsing.py:19-21 | "16+82.45" parses to 1682.45 |
| Parsing.StationExampleShortMajor | src/utils/parsing.py:27-29 | "9+94.00" parses to 994.0 |
| Parsing.ParseOffset | src/utils/parsing.py:32-48 | the result exists exactly when the upper-cased, comma-free text holds the offset pattern; its side is that of the first match and its magnitude that match's number, negative only for a non-zero number with a minus sign |
| Parsing.SearchOffsetNone | src/utils/parsing.py:10-12 | the offset search fails exactly when no position matches |
| Parsing.SearchOffsetFirst | src/utils/parsing.py:41 | the offset search returns the leftmost match |
| Parsing.ParseOffsetNone | src/utils/parsing.py:40-43 | `parse_offset` is None exactly when the normalized text holds no offset at any position |
| Parsing.ParseSignedOffset | src/utils/parsing.py:51-63 | None exactly when `parse_offset` is None; otherwise the distance for RT and its negation for LT |
| Parsing.OffsetRoundTrip | src/utils/parsing.py:32-48 | printing an offset `[-]d[.f]' R` or `L` and parsing it gives its value and side |
| Parsing.OffsetExampleRight | src/utils/parsing.py:36-37 | "28.00' RT" is +28.0 |
| Parsing.OffsetExampleLeft | src/utils/parsing.py:55-58 | "6.00' LT" is -6.0 |
| Cli.ParsePagesArgument | src/utils/cli.py:6-49 | the method returns the value of the reference function `ParsePages` |
| Cli.CollectPages | src/utils/cli.py:22-37 | the token loop returns what the reference fold over the tokens returns, stopping at the first bad token |
| Cli.CollectMembers | src/utils/cli.py:22-37 | when collecting succeeds, a page is collected exactly when some token selects it |
| Cli.CollectPrefixErr | src/utils/cli.py:30-33 | once a prefix of the tokens fails, the whole selector fails with that error |
| Cli.CollectFails | src/utils/cli.py:22-37 | collecting fails exactly when some token fails |
| Cli.ParsePagesResult | src/utils/cli.py:39-49 | a returned selection is non-empty, strictly ascending, exactly the union of the tokens' pages, at least 1 and at most the page count when given |
| Cli.ParsePagesNone | src/utils/cli.py:19-20 | the selection is None exactly when the selector is missing or empty, or every token parses and none selects a page |
| Cli.ReversedRangeFails | src/utils/cli.py:32-33 | a token that fails makes the whole selector fail |
| Cli.RangeTokenPages | src/utils/cli.py:28-34 | a range token succeeds exactly when its end is not below its start, and then selects exactly the inclusive range |
| Unicode.CleanUnicode | src/utils/unicode.py:16-20 | the loop over the table returns the reference `Clean` |
| Unicode.CleanIsCharwise | src/utils/unicode.py:5-20 | cleaning replaces every mapped symbol by its ASCII text and keeps every other character |
| Unicode.CleanOneChar | src/utils/unicode.py:5-13 | one character through the table becomes its replacement, or itself when unmapped |
| Unicode.ReplacementsAscii | src/utils/unicode.py:5-13 | no replacement text holds a mapped symbol |
| Unicode.CleanRemovesMapped | src/utils/unicode.py:16-20 | no mapped symbol survives cleaning |
| Unicode.CleanIdentity | src/utils/unicode.py:16-20 | a text without mapped symbols is returned unchanged |
| Unicode.CleanIdempotent | src/utils/unicode.py:5-20 | cleaning twice is cleaning once |
| TextLayer.CalculateCoherence | src/intake/text_layer.py:32-58 | the span loop returns the reference `CoherenceOf` of the spans |
| TextLayer.TallySpan | src/intake/text_layer.py:40-54 | one loop step keeps every counter equal to its reference count over the spans read so far |
| TextLayer.CountFont | src/intake/text_layer.py:52-54 | a counted span with a font bumps that font's count, first-seen order kept |
| TextLayer.FirstMaxIndex | src/intake/text_layer.py:57 | the chosen font has the largest count and every earlier font a strictly smaller one |
| TextLayer.CountersOrdered | src/intake/text_layer.py:45-50 | numeric_spans <= multi_char_spans <= total_spans and the score lies in [0, 1] |
| TextLayer.CoherenceBounded | src/intake/text_layer.py:56 | multi / total lies in [0, 1], and is 0.0 for no spans |
| TextLayer.BlankSpanIgnored | src/intake/text_layer.py:41-44 | a span whose cleaned, stripped text is empty changes none of the results wherever it stands |
| TextLayer.PrimaryFontMostCommon | src/intake/text_layer.py:52-57 | the primary font is "" exactly when no counted span names a font; otherwise it is a most frequent font and the first seen among those |
| TextLayer.FontsSeenHits | src/intake/text_layer.py:52-54 | a font is listed exactly when some counted span uses it |
| TextLayer.FontsSeenDistinct | src/intake/text_layer.py:38 | each font is listed once |
| TextLayer.HybridViableIff | src/intake/text_layer.py:155 | a tile is hybrid-viable exactly when it has spans and at least 40% of them are multi-character |
| Tiler.ComputeTileClips | src/intake/tiler.py:20-49 | the nested loop returns the reference grid of `rows` rows |
| Tiler.RowClips | src/intake/tiler.py:37-47 | one grid row holds `cols` clips tagged (row, c) in column order |
| Tiler.GridLayout | src/intake/tiler.py:35-49 | the grid holds rows * cols clips in row-major order, the clip of cell (r, c) at r * cols + c |
| Tiler.IntervalBounds | src/intake/tiler.py:30-46 | a cell's clamped interval lies within [0, extent], starts at 0 for the first cell and ends at the extent for the last, and interior edges move out by base * overlap |
| Tiler.IntervalsMeet | src/intake/tiler.py:38-41 | neighbouring cells overlap, so the cells cover the page without gaps |
| Tiler.ClipWithinPage | src/intake/tiler.py:43-46 | every clip lies within [0, width] x [0, height], flush with the page edges on the outer rows and columns |
| Tiler.TilePage | src/intake/tiler.py:52-116 | fails exactly for a non-positive grid size or an overlap outside [0, 1); otherwise one tile per clip, in order, with id `p{page}_r{row}_c{col}` and page number index + 1 |
| Manifest.UpperFrom | src/intake/manifest.py:39 | the run of capitals starting at a position: every counted character is a capital letter and the one after it is not |
| Manifest.SearchLabel | src/intake/manifest.py:46 | a match found by the label search starts at or after the search position and is a match of the label pattern there |
| Manifest.SearchLabelLeftmost | src/intake/manifest.py:46-48 | the search reports the leftmost position where the label pattern matches, and reports nothing only when no position matches |
| Manifest.LabelAt | src/intake/manifest.py:39 | a match at a position has a prefix of 1 to 4 capitals and a suffix of 1 to 3 digits and an optional capital, and ends on a word boundary |
| Manifest.KeepLabelChars | src/intake/manifest.py:44 | the filtered text is no longer than its input and holds only capitals, digits and hyphens |
| Manifest.KeepLabelCharsIdentity | src/intake/manifest.py:44 | filtering text already made of label characters leaves it unchanged |
| Manifest.NormalizeSheetLabel | src/intake/manifest.py:42-50 | a normalized label always has the form PREFIX-SUFFIX |
| Manifest.NormalizeLabelIdentity | src/intake/manifest.py:42-50 | a label already in PREFIX-SUFFIX form normalizes to itself |
| Manifest.NormalizeIdempotent | src/intake/manifest.py:42-50 | normalizing a normalized label gives it back |
| Manifest.NormalizeInsertsHyphen | src/intake/manifest.py:46-50 | a prefix glued to its suffix normalizes to the hyphenated label |
| Manifest.NormalizeGluedExample | src/intake/manifest.py:42-50 | "C1" normalizes to "C-1" |
| Manifest.NormalizeHyphenExample | src/intake/manifest.py:42-50 | "C-1" normalizes to "C-1" |
| Manifest.ExtractSheetLabel | src/intake/manifest.py:53-62 | a label extracted from page text always has the form PREFIX-SUFFIX |
| Manifest.ExtractLabelIdentity | src/intake/manifest.py:53-62 | a label written alone is extracted as itself |
| Manifest.ExtractFirstLabelledLine | src/intake/manifest.py:54-57 | the first line that normalizes to a label decides the result, over every later line and over the whole-text fallback |
| Manifest.Hits | src/intake/manifest.py:69-72 | a sheet type scores at most one hit per keyword |
| Manifest.FirstMax | src/intake/manifest.py:74 | the chosen index holds a maximal score and every earlier index scores strictly less, as Python's `max` over an insertion-ordered dict picks |
| Manifest.SheetType | src/intake/manifest.py:65-77 | the result is "other" exactly when no keyword of any type occurs; otherwise it is the first type in table order with a maximal, positive score |
| Manifest.ClassifySheetType | src/intake/manifest.py:65-77 | the scoring loops compute SheetType |
| Manifest.DeepExtractionNeedsKeyword | src/intake/manifest.py:36 | a sheet is routed to deep extraction only when a plan, profile or detail keyword occurs in its text |
| Manifest.ExtractUtilityTypes | src/intake/manifest.py:80-94 | each of SD, SS and W is listed exactly when its condition on the merged text holds, in that order without repeats, and any mention of SEWER lists SS |
| Manifest.Description | src/intake/manifest.py:126 | the description neither starts nor ends with a blank, hyphen, colon or tab |
| Manifest.LineLabel | src/intake/manifest.py:117-123 | the label an index line starts with is in PREFIX-SUFFIX form and its match ends within the line |
| Manifest.CoverEntry | src/intake/manifest.py:112-128 | an index line contributes a normalized label with a non-empty, trimmed description, or nothing |
| Manifest.FillRule | src/intake/manifest.py:111-128 | filling a dict from entries keeps a key exactly when some entry carries it, with the value of the last entry that does |
| Manifest.Entries | src/intake/manifest.py:112 | one candidate entry per line |
| Manifest.ParseCoverSheetIndex | src/intake/manifest.py:103-130 | the loop over the index lines computes CoverIndex of the lines |
| Manifest.CoverIndexRule | src/intake/manifest.py:103-130 | a label is in the index exactly when some line carries it, it is a normalized label with a non-empty description, and its description comes from the last line that carries it |
| ProgressDocs.StartsWithAnyIff | scripts/check_progress_docs.py:57 | the `any(startswith)` condition holds exactly when some prefix starts the path |
| ProgressDocs.IgnoredRule | scripts/check_progress_docs.py:56-57 | a path is ignored exactly when one of the seven ignore prefixes starts it |
| ProgressDocs.RelevantExamples | scripts/check_progress_docs.py:60-67 | a vendored reference file, PROGRESS_SUMMARY.md and AGENTS.md are not relevant; an ordinary source file is |
| ProgressDocs.Relevant | scripts/check_progress_docs.py:81 | the relevant changes are exactly the changed paths that are relevant |
| ProgressDocs.Absent | scripts/check_progress_docs.py:86-87 | a progress file is missing exactly when the change set does not contain it |
| ProgressDocs.ExitCode | scripts/check_progress_docs.py:70-103 | the gate exits with 0 or 1 |
| ProgressDocs.MissingRule | scripts/check_progress_docs.py:86-87 | the missing list is sorted and holds exactly the progress files absent from the change set |
| ProgressDocs.DecideRule | scripts/check_progress_docs.py:76-103 | the gate exits with 1 exactly when some relevant path changed and PROGRESS.md or PROGRESS_SUMMARY.md did not |
| ProgressDocs.BothUpdatedPass | scripts/check_progress_docs.py:86-103 | when both progress files change the gate passes, whatever else changed |
| PackageContract.StatusRoundTrip | src/extraction/package_contract.py:51-66 | each of the six statuses is read back from its own value |
| PackageContract.KnownStatus | src/extraction/package_contract.py:53-65 | text that names a status after trimming and lower-casing gives that status |
| PackageContract.UnknownStatus | src/extraction/package_contract.py:53-66 | a missing or non-string status, or text naming none of the six values, gives runtime_error |
| PackageContract.Field | src/extraction/package_contract.py:17 | a matched field of the tile-id pattern is a non-empty run of digits inside the text |
| PackageContract.MatchTileIdPieces | src/extraction/package_contract.py:17 | the tile-id pattern matches "p{a}_r{b}_c{c}" for any digit strings and reads a, b and c back |
| PackageContract.TileIdRoundTrip | src/extraction/package_contract.py:17 | every id the tiler produces is already trimmed and matches the pattern, which reads its page, row and column numbers back |
| PackageContract.PageNumberOfTileId | src/extraction/package_contract.py:40-48 | the page number read from an id the tiler produces is the page it was made for |
| PackageContract.TileIdInjective | src/extraction/package_contract.py:17 | distinct (page, row, column) cells get distinct ids |
| PackageContract.FallbackTileIdValid | src/extraction/package_contract.py:192-198 | the fallback id of a malformed row passes the artifact's tile-id validator unchanged |
| PackageContract.NormalizeTileIdValid | src/extraction/package_contract.py:145-151 | a well-formed string id is kept trimmed, anything else gets the fallback id, and the result passes the validator unchanged |
| PackageContract.RowArtifact | src/extraction/package_contract.py:236-287 | a result row yields an artifact exactly when it is a mapping |
| PackageContract.BuildArtifacts | src/extraction/package_contract.py:233-289 | the row loop and the sort compute the artifact list of the results |
| PackageContract.RowArtifactsValid | src/extraction/package_contract.py:236-248 | one artifact per mapping row, each with a tile id the validator accepts unchanged |
| PackageContract.ArtifactsProperties | src/extraction/package_contract.py:233-289 | the artifact list is a permutation of the mapping rows' artifacts sorted by tile id, empty when results is not a list, and every tile id in it is valid |
| ValidatePackage.Wrap | src/extraction/validate_package.py:269-275 | the per-artifact checks' messages are carried over one for one, in order |
| ValidatePackage.CountWhere | src/extraction/validate_package.py:229-232 | a count over the artifacts is at most their number |
| ValidatePackage.Mismatch | src/extraction/validate_package.py:199-216 | a status count raises a warning exactly when the declared count differs from the actual one |
| ValidatePackage.ValidateAnalysisPackage | src/extraction/validate_package.py:248-313 | the artifact loop with its seen-id set, the count reconciliation, the quality gate and the verdict compute Validate |
| ValidatePackage.ReconcileCounts | src/extraction/validate_package.py:162-216 | the counting loop and the seven comparisons compute Reconcile |
| ValidatePackage.CountStatuses | src/extraction/validate_package.py:169-178 | after the loop every status has a counter equal to the number of artifacts with that status |
| ValidatePackage.VerdictRule | src/extraction/validate_package.py:295-300 | the verdict is FAIL exactly when there is a critical error, WARN exactly when there is none but some warning, PASS otherwise |
| ValidatePackage.ThresholdGate | src/extraction/validate_package.py:284-293 | a bad ratio above the fail threshold fails with the threshold error last; one above only the warn threshold cannot pass and ends the warnings with the threshold warning; a ratio at or below both raises no threshold error |
| ValidatePackage.ScanDuplicates | src/extraction/validate_package.py:262-267 | the seen set ends as the set of tile ids, and the duplicate errors number the artifacts less the distinct ids |
| ValidatePackage.DistinctIdsNoDuplicates | src/extraction/validate_package.py:263-266 | a package whose tile ids are all distinct raises no duplicate error |
| ValidatePackage.ReconcileRule | src/extraction/validate_package.py:162-216 | no critical count error exactly when the total, paired and missing-text-layer counts match the artifacts; no warning exactly when the five status counts match |
| ValidatePackage.QualityRule | src/extraction/validate_package.py:219-245 | paired tiles fall back to artifacts less missing text layers when not positive; sanitized and low-coherence tiles are counted; the bad ratio is their sum over paired tiles, 0 when there are none, and never negative |
| RunHybrid.LastClose | src/extraction/run_hybrid.py:67 | the greedy body of the fence pattern ends at a "}" followed by blanks and a closing fence, the last such position in range |
| RunHybrid.FencedAt | src/extraction/run_hybrid.py:67 | a fenced match at a position captures a braced object |
| RunHybrid.SearchFence | src/extraction/run_hybrid.py:67-69 | the first fenced match, if any, is a braced object |
| RunHybrid.ExtractJsonCandidate | src/extraction/run_hybrid.py:62-76 | a candidate, when there is one, starts with "{" and ends with "}" |
| RunHybrid.ExtractBraced | src/extraction/run_hybrid.py:63-65 | a reply that is a braced object up to surrounding blanks is returned stripped, whatever fences it holds |
| RunHybrid.ExtractIdempotent | src/extraction/run_hybrid.py:62-76 | extracting from an extracted candidate gives it back |
| RunHybrid.ExtractErrorRule | src/extraction/run_hybrid.py:71-76 | without a braced reply or a fenced object, the ValueError is raised exactly when no "{" precedes a "}" in the stripped reply |
| RunHybrid.FlattenMessageContent | src/extraction/run_hybrid.py:79-92 | the chunk loop computes Flatten: strings pass through, lists join their string items and dict "text" strings, anything else is its repr |
| RunHybrid.FlattenList | src/extraction/run_hybrid.py:82-91 | a list of strings flattens to their newline join, stripped, and a flattened list never has blanks at either end |
| RunHybrid.SanitizeSourceTextIds | src/extraction/run_hybrid.py:99-108 | the conversion loop computes SourceTextIds |
| RunHybrid.SourceTextIdsRule | src/extraction/run_hybrid.py:99-108 | one id per item `int()` accepts, in order; a list of integers is kept as it is; every id is the `int()` of some item |
| RunHybrid.IdsJson | src/extraction/run_hybrid.py:151-153 | the cleaned id list is stored as a JSON list of the same integers |
| RunHybrid.SanitizeList | src/extraction/run_hybrid.py:163-191 | a pipe or callout loop keeps exactly the entries that pass, cleaned, in order, and the kept and dropped numbers add up to the input length |
| RunHybrid.SanitizeStructures | src/extraction/run_hybrid.py:120-161 | the structure loop keeps exactly the passing structures, cleaned, in order; kept plus dropped structures is the input length; dropped inverts are counted over kept structures |
| RunHybrid.SanitizeStructure | src/extraction/run_hybrid.py:135-161 | a kept structure gets its passing inverts and cleaned ids, and the inverts it loses are counted |
| RunHybrid.SanitizeExtractionPayload | src/extraction/run_hybrid.py:111-196 | the three loops compute the sanitized payload and the four dropped counts |
| RunHybrid.SanitizedKeys | src/extraction/run_hybrid.py:118-195 | every key other than structures, pipes and callouts is copied unchanged, and each of those three holds exactly its kept entries |
| RunHybrid.WithCleanIdsKeys | src/extraction/run_hybrid.py:150-153 | cleaning a dict replaces only its source_text_ids, with a list of integers |
| RunHybrid.CleanStructureKeys | src/extraction/run_hybrid.py:127-160 | a kept structure passed its field checks, keeps every other field, and its inverts are exactly its kept inverts |
| RunHybrid.KeptEntriesRule | src/extraction/run_hybrid.py:163-191 | every kept pipe, callout and structure is the cleaned copy of an input entry that passes its check |
| Merge.KeepUpperAlnum | src/graph/merge.py:68 | the filtered text is no longer than its input and holds only capital letters and digits |
| Merge.NormToken | src/graph/merge.py:65-68 | a token holds only capital letters and digits and is no longer than its text |
| Merge.NormTokenIdempotent | src/graph/merge.py:65-68 | normalizing a token changes nothing |
| Merge.NormTokenOfToken | src/graph/merge.py:65-68 | text made of capital letters and digits is its own token |
| Merge.NormTokenIgnoresCase | src/graph/merge.py:65-68 | the token does not depend on letter case |
| Merge.MatchesIgnoresCase | src/graph/merge.py:71-92 | neither the structure type nor the utility code is case sensitive |
| Merge.NoTokenNoMatch | src/graph/merge.py:80-82 | a structure type without letters or digits never matches |
| Merge.InletIsStormDrain | src/graph/merge.py:86 | an inlet belongs to storm drain, whatever the letter case |
| Merge.ManholeNamesUtility | src/graph/merge.py:84-85 | a type that contains the utility code matches it |
| Merge.GrateBoxNeedsInverts | src/graph/merge.py:89-90 | a grate box joins any utility when it carries inverts, and not otherwise |
| Merge.CenterTextNoOffset | src/graph/merge.py:98-101 | the default offset text "0' CL" holds no signed offset, so the centerline rule supplies 0 |
| Merge.MissingOffsetIsCenterline | src/graph/merge.py:98-101 | a structure without an offset sits on the centerline |
| Merge.SameKeyRule | src/graph/merge.py:95-111 | two observations share a key exactly when page and type token agree and either both are located with equal rounded station and offset, or neither is and their station and offset tokens agree |
| Merge.PickFirstRule | src/graph/merge.py:134-140 | nothing is picked exactly when no observation has the field; otherwise the value comes from one that no observation having the field outranks and that outranks every earlier one having it |
| Merge.MaxByRule | src/graph/merge.py:127-131 | `max` picks an element no other outranks that outranks every element before it |
| Merge.UniqueFloats | src/graph/merge.py:123-124 | the result is strictly increasing and holds exactly the values rounded to 4 places |
| Merge.TypeToken | src/graph/merge.py:166 | the type part of a node id is never empty and holds only capitals and digits |
| Merge.TypeTokenDefault | src/graph/merge.py:166 | a type without letters or digits is spelled STRUCT in the id |
| Merge.LocatedIdIgnoresText | src/graph/merge.py:167-168 | a located node's id depends on its location only, not on the raw texts or the hash |
| Merge.NodeIdExample | src/graph/merge.py:165-168 | a storm-drain manhole at station 16+82.45, 28 ft right on page 14 gets id SD:14:SDMH:1682.45:+28.00 |
| Merge.CollectProvenance | src/graph/merge.py:355-362 | the loop gathers the text ids of the group's structures and inverts, and their rims |
| Merge.GroupTextIdsMembers | src/graph/merge.py:357-360 | a text id is gathered exactly when a structure or one of its inverts carries it |
| Merge.GroupRimsMembers | src/graph/merge.py:361-362 | a rim is gathered exactly when some structure has it |
| Merge.MergeGroupSources | src/graph/merge.py:385-389 | the node counts one variant per observation, takes the page of the first, and lists the sorted distinct tile ids of its observations |
| Merge.MergeGroupPages | src/graph/merge.py:386 | the node's pages are the sorted distinct pages of its observations |
| Merge.MergeGroupTextIds | src/graph/merge.py:355-387 | the node's text ids are the sorted distinct ids of its observations and their inverts |
| Merge.MergeGroupRims | src/graph/merge.py:361-390 | the node's rim values are the sorted distinct rims of its observations, rounded to 4 places |
| Merge.MergeGroupFlags | src/graph/merge.py:336-379 | the node is existing, or sanitized, exactly when some observation is |
| Merge.MergeGroupPrimary | src/graph/merge.py:338-378 | the inverts and type come from an observation no other outranks that outranks every one before it |
| Merge.MergeGroupPicks | src/graph/merge.py:373-377 | the id and rim are absent exactly when no observation has them, else come from a top-ranked observation having them |
| Merge.TileUnionMembers | src/graph/merge.py:188 | the collapsed tile ids are exactly those some member carries |
| Merge.PageUnionMembers | src/graph/merge.py:189 | the collapsed pages are exactly those some member carries |
| Merge.TextUnionMembers | src/graph/merge.py:190 | the collapsed text ids are exactly those some member carries |
| Merge.RimUnionMembers | src/graph/merge.py:191-193 | the collapsed rim values are exactly those some member carries |
| Merge.CollapseProvenance | src/graph/merge.py:188-239 | a collapsed node sums its members' variants, unions their tile ids, pages and text ids, and is sanitized or existing exactly when some member is |
| Merge.CollapsePrimary | src/graph/merge.py:180-232 | a collapsed node keeps the page, type, location and inverts of a member no other outranks that outranks every member before it |
| Merge.FindBucketRule | src/graph/merge.py:330 | the dict lookup finds the bucket with the key exactly when there is one |
| Merge.AddToBucketsRule | src/graph/merge.py:330 | `setdefault(...).append` keeps keys apart, adds one observation under its own key and keeps every earlier bucket and member |
| Merge.GroupByRule | src/graph/merge.py:316-330 | grouping keeps keys apart, loses and invents no observation, and files every observation under its own key |
| Merge.JoinIsNear | src/graph/merge.py:272-293 | the inner loop joins an unused node exactly when it is on the seed's page, has its type, both have stations within 3 ft, and offsets, when both are known, within 1 ft |
| Merge.ScanGroupNear | src/graph/merge.py:269-294 | every node the scan adds is near the seed |
| Merge.Decide | src/graph/merge.py:272-293 | the conditions of the inner loop, in their order, compute the scan step, which joins exactly the near nodes |
| Merge.ScanLoop | src/graph/merge.py:268-294 | the inner loop gathers the seed and the nodes the scan picks, and marks them used |
| Merge.ProxLoop | src/graph/merge.py:262-301 | the outer loop with its used set computes the proximity groups |
| Merge.ProximityMergeLoop | src/graph/merge.py:244-301 | the sort and the two loops compute ProximityMerge |
| Merge.SumVariantsPerm | src/graph/merge.py:254-261 | sorting the nodes keeps their total variant count |
| Merge.ProximityMergeVariants | src/graph/merge.py:244-301 | the proximity pass neither loses nor invents an observation: the variant counts add up to those of its input |
| Merge.ExactNodes | src/graph/merge.py:333-392 | one node per exact group |
| Merge.MergeGroupCount | src/graph/merge.py:389 | a node counts one variant per observation in its group |
| Merge.ExactNodesVariants | src/graph/merge.py:332-392 | the exact nodes' variant counts add up to the number of grouped observations |
| Merge.MergeStructuresRule | src/graph/merge.py:304-404 | the result is sorted by page, station, offset and id, and every observation that belongs to the utility is counted by exactly one variant |
| Merge.FileStructure | src/graph/merge.py:322-330 | one inner step skips a structure of another utility and files the others under their key |
| Merge.TileLoop | src/graph/merge.py:321-330 | the inner loop files one tile's admitted structures |
| Merge.GroupLoop | src/graph/merge.py:316-330 | the first loop groups exactly the observations that belong to the utility |
| Merge.NodesLoop | src/graph/merge.py:332-392 | the second loop builds one node per exact group |
| Merge.MergeStructuresLoop | src/graph/merge.py:304-404 | the loops, the proximity pass and the final sort compute MergeStructures |
| Graph.Level | src/graph/assembly.py:23 | a confidence level is one of 0 to 3 |
| Graph.LevelInjective | src/graph/assembly.py:23 | each level names exactly one confidence |
| Graph.Overlay | src/graph/assembly.py:521 | updating an edge's attributes replaces every key the update carries and keeps the old value of every key it lacks |
| Graph.OverlayComplete | src/graph/assembly.py:559 | an update that carries every key replaces the attributes outright |
| Graph.EmptyGraph | src/graph/assembly.py:575 | a new graph is well formed and has no nodes and no edges |
| Graph.Without | src/graph/assembly.py:518 | removing a pair from the insertion order keeps every other pair and drops it |
| Graph.AddNodeValid | src/graph/assembly.py:584-608 | adding a node keeps the graph well formed, adds exactly that id with those attributes and leaves the edges alone |
| Graph.AddEdgeValid | src/graph/assembly.py:704-727 | adding an edge between nodes of the graph keeps it well formed and adds exactly that pair; a new pair holds the new attributes, an existing one is updated with them |
| Graph.RemoveEdgeValid | src/graph/assembly.py:546 | removing an edge keeps the graph well formed and removes only that pair |
| Graph.OutEdges | src/graph/assembly.py:486 | the edges leaving a node are exactly the pairs of the insertion order that start there |
| Graph.EdgeListMembers | src/graph/assembly.py:486 | iterating the edges visits exactly the edges of the graph |
| Graph.DiGraph.constructor | src/graph/assembly.py:575 | a new graph object holds the empty graph for the utility |
| Graph.DiGraph.AddNodeAt | src/graph/assembly.py:584-608 | the object's new state is the old one with the node added |
| Graph.DiGraph.AddEdgeAt | src/graph/assembly.py:704-727 | the object's new state is the old one with the edge added or updated |
| Graph.DiGraph.RemoveEdgeAt | src/graph/assembly.py:518 | the object's new state is the old one without the edge |
| Graph.DiGraph.SetNodeAt | src/graph/assembly.py:250 | the object's new state is the old one with the node's attributes replaced |
| Graph.DiGraph.SetEdgeAt | src/graph/assembly.py:521 | the object's new state is the old one with the edge's attributes replaced |
| Graph.DiGraph.SetQuality | src/graph/assembly.py:733-736 | the object's new state is the old one with the quality summary set |
| Assembly.GradeOf | src/graph/assembly.py:60-68 | the grade is A exactly for a bad ratio of at most 0.10 and D exactly above 0.50 |
| Assembly.GradeMonotone | src/graph/assembly.py:60-68 | a worse ratio never earns a better grade |
| Assembly.QualityWarningsRule | src/graph/assembly.py:119-125 | the low-quality warning is present exactly when the bad ratio exceeds 0.30, and there are at most three warnings |
| Assembly.FilterCounts | src/graph/assembly.py:108-116 | sanitized tiles are among the ok tiles, and ok and skipped tiles are different tiles |
| Assembly.SummaryOfRule | src/graph/assembly.py:118-134 | with counts that fit the total, the bad ratio lies in [0, 1] and the grade and warning follow it |
| Assembly.QualityCounts | src/graph/assembly.py:87-134 | the counts fit together and count the union of extraction and meta tile ids; no tiles gives grade D with the single no-tiles warning |
| Assembly.CountTile | src/graph/assembly.py:109-116 | one step of the counting loop adds the tile to exactly the counts whose property it has |
| Assembly.CountTiles | src/graph/assembly.py:105-116 | the counting loop counts the ok, sanitized-and-ok and skipped tiles |
| Assembly.Summarize | src/graph/assembly.py:118-134 | the ratio, warnings and grade compute SummaryOf |
| Assembly.BuildQualitySummary | src/graph/assembly.py:87-134 | the method computes QualityOf |
| Assembly.PageSheetTypesRule | src/graph/assembly.py:73-78 | a page records a sheet type exactly when some tile on it has that trimmed, lower-cased type |
| Assembly.ReferenceOnlyPagesRule | src/graph/assembly.py:71-84 | a page is reference-only exactly when one of its tiles is a signing and striping sheet and none is a profile view |
| Assembly.FindReferenceOnlyPages | src/graph/assembly.py:71-84 | the two loops compute ReferenceOnlyPages |
| Assembly.RepresentativeInvert | src/graph/assembly.py:137-146 | the representative invert is absent exactly for a structure without inverts, and otherwise is the lowest invert elevation |
| Assembly.FirstDigit | src/graph/assembly.py:153 | the position of the first digit, absent exactly when there is none |
| Assembly.PipeDiameterFt | src/graph/assembly.py:149-157 | a diameter is read exactly when the size text has a digit, and it is never negative |
| Assembly.PipeDiameterExamples | src/graph/assembly.py:149-157 | an 18-inch pipe is 1.5 ft across, and an empty size has no diameter |
| Assembly.HintScore | src/graph/assembly.py:265-287 | the hint score is 0, 1 or 2 |
| Assembly.HintScoreRule | src/graph/assembly.py:265-287 | the score is 2 exactly when the normalized hint occurs in the node's text; 1 needs a hint one of whose tokens occurs there; no hint scores 0 |
| Assembly.HintScoreIgnoresCase | src/graph/assembly.py:269 | the score does not depend on the letter case of the hint |
| Assembly.PickMatchConfidence | src/graph/assembly.py:290-302 | high exactly for a hint score of 2 within 5 ft; without a distance, medium for a hint and none otherwise |
| Assembly.PickMatchMonotone | src/graph/assembly.py:290-302 | a closer station and a better hint never lower the confidence |
| Assembly.WorseConfidence | src/graph/assembly.py:338-340 | the result is one of the two and no higher than either |
| Assembly.WorseConfidenceSymmetric | src/graph/assembly.py:338-340 | the worse of two confidences does not depend on their order |
| Assembly.ConfidenceFromStationDelta | src/graph/assembly.py:343-351 | the confidence is none exactly for a residual above 30 ft |
| Assembly.StationDeltaMonotone | src/graph/assembly.py:343-351 | a smaller residual never lowers the confidence |
| Assembly.CandidateMap | src/graph/assembly.py:329 | `dict(candidates)` holds every candidate id and no other |
| Assembly.Eligible | src/graph/assembly.py:314-316 | a candidate takes part in the ranking exactly when it is not the excluded node |
| Assembly.BestMatchByRule | src/graph/assembly.py:313-335 | no match exactly when every candidate is excluded, with confidence none; otherwise the match minimizes the (negated hint score, distance, id) key over the eligible candidates and its confidence comes from its distance and hint score |
| Assembly.BestNodeMatchRule | src/graph/assembly.py:305-335 | the same, with the hint score of the endpoint hint |
| Assembly.BestNodeMatchExcludes | src/graph/assembly.py:315-316 | the match is never the excluded node |
| Assembly.Projectable | src/graph/assembly.py:371-376 | a candidate can be the projected end exactly when it is not the anchor and has a station |
| Assembly.InferOtherEndpointRule | src/graph/assembly.py:354-392 | an inferred end needs a positive length and an anchor station, has confidence low, is not the anchor, lies within 30 ft of a projected station and has the smallest residual of all projectable candidates; no end has confidence none |
| Assembly.InferOtherEndpointLoop | src/graph/assembly.py:369-392 | the loop, keeping the first strictly smaller residual, computes InferOtherEndpoint |
| Assembly.EdgesAreSimilarSymmetric | src/graph/assembly.py:431-447 | similarity does not depend on the order of the edges, and every edge is similar to itself |
| Assembly.EdgeRank | src/graph/assembly.py:450-456 | the rank has five parts, the overall confidence first |
| Assembly.EdgeRankConfidenceFirst | src/graph/assembly.py:450-456 | a better overall confidence always ranks higher |
| Assembly.Fill | src/graph/assembly.py:478-480 | a field the kept edge has stays; an empty one takes the dropped edge's value; the result is set exactly when either is |
| Assembly.MergeEdgeProvenance | src/graph/assembly.py:459-480 | the kept edge's tile ids, pages and text ids become the sorted distinct union with the dropped edge's, and its sanitized, reference-only and crown flags become the or of both |
| Assembly.MergeEdgeProvenanceKeeps | src/graph/assembly.py:459-480 | merging keeps the kept edge's identity, size, length, slope and confidence, and every text field it already had |
| Passes.Diameters | src/graph/assembly.py:174-184 | the diameters read from the inverts are never negative, and there are none exactly when no invert's size has one |
| Passes.CrownCutoffRule | src/graph/assembly.py:186-196 | when the spread check fires, the node has two inverts or more, some invert lies above the cut-off and the lowest lies at least the buffer below it |
| Passes.Above | src/graph/assembly.py:203-204 | the crown suspects are exactly the inverts above the cut-off |
| Passes.AtOrBelow | src/graph/assembly.py:205-206 | the kept inverts are exactly those at or below the cut-off |
| Passes.SplitPreserves | src/graph/assembly.py:199-206 | every invert goes to exactly one side of the cut-off |
| Passes.FilterNodeCrownsMoves | src/graph/assembly.py:166-221 | pass 1 leaves non-structures and nodes with fewer than two inverts alone; otherwise it changes only the inverts, appending to the suspects exactly the inverts it removes |
| Passes.FilterNodeCrownsKeepsLowest | src/graph/assembly.py:196-221 | a changed node keeps some but not all of its inverts, and a correct representative invert stays the same |
| Passes.CrownNodesOverAll | src/graph/assembly.py:167 | over the node order the loop filters every node once |
| Passes.FilterCrownNodes | src/graph/assembly.py:166-227 | the pass-1 loop computes CrownNodesOver the node order |
| Passes.SuspectEnd | src/graph/assembly.py:249 | the suspect node is one of the edge's ends |
| Passes.FlaggedIn | src/graph/assembly.py:230-248 | the flagged edges are exactly the listed ones that pass the crown-drop condition |
| Passes.SuspectsInRule | src/graph/assembly.py:247-250 | a node is marked exactly when it is the suspect end of some flagged edge |
| Passes.MarkedFlagged | src/graph/assembly.py:230-250 | the marks pass 2 sets do not change what its condition reads |
| Passes.CrownFilteredRule | src/graph/assembly.py:160-257 | a non-gravity graph is unchanged; otherwise orders and keys stay, exactly the flagged edges are marked and exactly the suspect nodes of the filtered graph are marked |
| Passes.FlagCrownEdges | src/graph/assembly.py:229-257 | the pass-2 loop computes CrownEdges over the edge order |
| Passes.FilterSuspectCrowns | src/graph/assembly.py:160-257 | the method computes CrownFiltered |
| Passes.DedupPairRule | src/graph/assembly.py:490-521 | deduplicating one node pair keeps the graph well formed, keeps a direction of every edge, leaves no two alike opposite edges on that pair and touches no other pair |
| Passes.ReplaceRule | src/graph/assembly.py:511-521 | removing one edge of a pair and updating the other keeps the graph well formed and changes no other pair |
| Passes.DeduplicatedRule | src/graph/assembly.py:483-521 | deduplication keeps the graph well formed, never adds an edge, keeps a direction of every edge and leaves no two alike edges in opposite directions |
| Passes.DeduplicatePipeEdges | src/graph/assembly.py:483-521 | the method computes Deduplicated |
| Passes.UphillAsymmetric | src/graph/assembly.py:540 | an edge and its reverse are never both uphill |
| Passes.FlipsOf | src/graph/assembly.py:530-541 | the collected flips are uphill edges of the graph, with copies of their attributes |
| Passes.FlippedTwice | src/graph/assembly.py:547-557 | flipping an edge twice restores its stations, hints and confidences, and keeps the first original ends |
| Passes.ApplyFlipFrame | src/graph/assembly.py:543-559 | one flip touches only the edges and never adds one |
| Passes.ApplyFlipRule | src/graph/assembly.py:543-559 | one flip keeps the graph well formed, keeps the nodes and replaces the uphill edge by its reverse |
| Passes.ApplyFlipsRule | src/graph/assembly.py:543-559 | flipping every uphill edge leaves none, and keeps a direction of every edge |
| Passes.OrientedRule | src/graph/assembly.py:524-559 | orienting keeps the graph well formed and its nodes, leaves a non-gravity graph unchanged, leaves no uphill edge in a gravity graph, and keeps every edge in one direction or the other |
| Passes.OrientGravityEdges | src/graph/assembly.py:524-559 | the method computes Oriented |
| Passes.CollectFlips | src/graph/assembly.py:530-541 | the collecting loop computes FlipsOf |
| Build.AddStructuresRule | src/graph/assembly.py:583-608 | adding the merged structures keeps the graph well formed, adds no edge, adds a structure node for every merged structure and no other node |
| Build.AddStructureNodes | src/graph/assembly.py:583-608 | the node loop computes AddStructures |
| Build.Candidates | src/graph/assembly.py:612-617 | every candidate is a structure node of the graph, with its attributes |
| Build.CandidatesComplete | src/graph/assembly.py:612-617 | every structure node is a candidate |
| Build.CollectCandidates | src/graph/assembly.py:610-617 | the candidate loop computes Candidates |
| Build.PageCandidates | src/graph/assembly.py:616 | the page's candidates all lie on the page, and there are none exactly when no candidate does |
| Build.CandidatesFor | src/graph/assembly.py:642 | a pipe's candidates are drawn from all candidates |
| Build.StationOf | src/graph/assembly.py:635-640 | a station text that parses gives the end's station |
| Build.ResolveEndsRule | src/graph/assembly.py:642-683 | every matched or inferred end is one of the candidates |
| Build.AddPipeRule | src/graph/assembly.py:628-727 | a pipe adds at most one edge, only when it belongs to the utility, and the counter advances exactly for those pipes |
| Build.PlaceEndRule | src/graph/assembly.py:685-702 | placing an end keeps the graph well formed and names a node of the graph, adding the orphan anchor when there is no match |
| Build.AddPipesRule | src/graph/assembly.py:628-727 | over one tile's pipes the counter advances by the pipes of the utility, which bound the edges added |
| Build.AddExtractionsRule | src/graph/assembly.py:619-727 | over all tiles the counter ends at the number of pipes of the utility, which bounds the edges added |
| Build.PassesRule | src/graph/assembly.py:729-731 | the three passes keep the graph well formed and every node, never add an edge, and leave a gravity graph with no uphill edge |
| Build.UtilityGraphRule | src/graph/assembly.py:562-737 | the built graph is well formed, carries the utility and the quality summary, has a node for every merged structure, has at most one edge per pipe of the utility, and in a gravity graph no uphill edge |
| Build.PlaceEndAt | src/graph/assembly.py:685-702 | one end on the graph object computes PlaceEnd |
| Build.AddPipeTo | src/graph/assembly.py:628-727 | the pipe-loop body on the graph object computes AddPipe |
| Build.AddExtractionsTo | src/graph/assembly.py:619-727 | the loops over tiles and pipes on the graph object compute AddExtractions |
| Build.BuildUtilityGraph | src/graph/assembly.py:562-737 | building on the graph object computes UtilityGraph |
| Checks.EdgeIdText | src/graph/checks.py:32-33 | an edge with an id is named by that id |
| Assembly.NormalizeSize | src/graph/checks.py:40-41 | a normalised pipe size (the same expression assembly.py uses for similar edges) holds no space |
| Checks.PreferredDirsOpposite | src/graph/checks.py:60-76 | the two ends of a pipe prefer opposite directions: east against west, north against south, and neither has a preference exactly when the other has none |
| Checks.FirstFacing | src/graph/checks.py:80-97 | the elevation of the first invert facing the preferred directions (and of the pipe size, when one is asked), or none exactly when no invert faces them |
| Checks.DirectionalInvertRule | src/graph/checks.py:44-99 | without inverts or a preferred direction the representative invert is used; otherwise the first size-matched facing invert, else the first facing invert, else the representative invert |
| Checks.EdgeReport | src/graph/checks.py:102-149 | a flagged edge's finding names its two ends and its id, with the check's finding type and that type's severity |
| Checks.EdgeFinding | src/graph/checks.py:102-149 | an edge check emits a finding for an edge exactly when it flags it |
| Checks.EdgeCheckRule | src/graph/checks.py:102-149 | every finding of an edge check reports a flagged edge of the graph, and an edge is reported exactly when it is flagged |
| Checks.CollectEdgeFindings | src/graph/checks.py:105-149 | the edge loop appends the findings of the flagged edges in edge order |
| Checks.CheckSlopeConsistency | src/graph/checks.py:102-149 | the method computes the slope check: an edge with a positive length, a labelled slope and both inverts is reported when the slope from the inverts differs from the label by more than the tolerance |
| Checks.FlowDirectionRule | src/graph/checks.py:342-379 | a non-gravity utility gets no finding; in SD or SS every finding is an error, and an edge is reported exactly when both ends are structures with inverts and the downstream invert lies above the upstream one by more than the tolerance |
| Checks.CheckFlowDirection | src/graph/checks.py:342-379 | the method computes the flow check |
| Checks.OrientedNoBackfall | src/graph/checks.py:342-379 | an edge left by gravity orientation, whose directional inverts are its ends' representative inverts, is never reported as backfall |
| Checks.NodeReport | src/graph/checks.py:218-232 | a flagged structure's finding names that node alone, with the elevation-mismatch or orphan type and its severity |
| Checks.NodeFinding | src/graph/checks.py:209-232 | a node check emits a finding for a node exactly when it flags it |
| Checks.NodeChecksRule | src/graph/checks.py:209-283 | a node check reports exactly the flagged nodes among those it visits, each with its own report |
| Checks.CollectNodeFindings | src/graph/checks.py:209-232 | the node loop computes the node check's findings |
| Checks.ElevationRule | src/graph/checks.py:202-233 | every finding is an elevation-mismatch warning, and a node is reported exactly when it is a structure with more than one rim value whose spread exceeds the rim tolerance |
| Checks.CheckElevationConsistency | src/graph/checks.py:202-233 | the method computes the elevation check |
| Checks.StructureIds | src/graph/checks.py:244-248 | the structure nodes in node order: each is a structure of the graph and every structure is listed |
| Checks.CollectStructures | src/graph/checks.py:244-248 | the comprehension loop computes StructureIds |
| Checks.Suppressed | src/graph/checks.py:285-298 | the suppression note is an info finding naming no node |
| Checks.OrphanPartRule | src/graph/checks.py:266-298 | with good quality every isolated structure gets an orphan warning and no other node does; with degraded quality the suppression note appears exactly when some structure is isolated |
| Checks.CollectOrphans | src/graph/checks.py:266-298 | the orphan loop computes the orphan part |
| Checks.UnresolvedRule | src/graph/checks.py:300-339 | every unresolved-end finding names two nodes and is a dead-end or unanchored pipe, and an edge is reported exactly when an end is unmatched or an orphan anchor |
| Checks.ConnectivityRule | src/graph/checks.py:236-339 | a graph with edges but no structure gets the single unverifiable note; otherwise orphan warnings, the suppression note and the unresolved-pipe findings follow the rules above |
| Checks.CheckConnectivity | src/graph/checks.py:236-339 | the method computes the connectivity check |
| Checks.ConnectivityRated | src/graph/checks.py:236-339 | every connectivity finding carries its type's severity and none is a flow error |
| Checks.KeyOf | src/graph/checks.py:165-176 | the segment key carries the upper-cased pipe type |
| Checks.KeyOfReversed | src/graph/checks.py:165-176 | the segment key does not depend on which end of the pipe is which |
| Checks.RowsWith | src/graph/checks.py:160-177 | the rows with a key, each drawn from the rows |
| Checks.InsertAllRule | src/graph/checks.py:160-177 | filling the buckets keeps them well formed, keeps the earlier key order as a prefix, adds exactly the new keys and appends to each key's bucket exactly the new rows with that key |
| Checks.SizeBucketsRule | src/graph/checks.py:160-179 | each key's bucket holds the plan rows with that key and then the profile rows with that key |
| Checks.SizesOf | src/graph/checks.py:182 | the distinct sizes of a bucket are exactly its non-empty sizes |
| Checks.SizeReport | src/graph/checks.py:185-197 | a bucket's report is a size-inconsistency warning |
| Checks.SizeFinding | src/graph/checks.py:182-197 | a bucket is reported exactly when it holds more than one distinct size |
| Checks.PipeSizeRule | src/graph/checks.py:152-199 | every finding reports a key whose plan and profile rows hold more than one size, and every such key is reported |
| Checks.AddTileRows | src/graph/checks.py:160-177 | one tile's pipes are put into the buckets one by one |
| Checks.AddSizeRows | src/graph/checks.py:160-177 | the add-pipes loop fills the buckets with the rows of every tile in order |
| Checks.CollectSizeFindings | src/graph/checks.py:181-198 | the bucket loop appends the report of every bucket with more than one size, in first-insertion order |
| Checks.CheckPipeSizeConsistency | src/graph/checks.py:152-199 | the method computes the pipe-size check |
| Checks.RunAllChecks | src/graph/checks.py:382-389 | the method runs connectivity, flow, slope and elevation in that order |
| Checks.AllChecksSeverity | src/graph/checks.py:382-389 | every finding carries its type's severity, the errors are exactly the backfall findings, and a non-gravity utility gets no error |
| Checks.RatedJoin | src/graph/checks.py:384-389 | joining runs whose findings carry their types' severities keeps that, and keeps the absence of flow errors |
| Json.ToInt | src/extraction/package_contract.py:69-73 | `int()` of a decoded value: absent (so the caller's default applies) for null, lists and dicts, the integer itself for an integer |

## Source and documentation

- `Structure` in src/extraction/schemas.py declares no existing-versus-proposed
  flag, yet src/graph/merge.py:379 reads `structure.is_existing`; the model gives
  the structure record that flag (`Schemas.Structure.existing`), as the merge code
  expects.
- The repository's tests expect two behaviours of the checks that
  src/graph/checks.py does not have. tests/test_graph_checks.py:235-267 expects the
  slope check to report a `crown_contamination` info finding for an edge flagged
  `crown_contamination_candidate`; tests/test_graph_checks.py:73-90 expects an edge
  marked `is_reference_only` to raise no unanchored or dead-end finding. The slope
  check (src/graph/checks.py:102-149) and the unresolved-edge loop
  (src/graph/checks.py:300-339) read neither attribute; the only uses of them are in
  src/graph/assembly.py (lines 248 and 470-476). The model follows the code.

## Left out

- Reading PDFs, rendering tiles and the text-layer extraction (fitz): page texts,
  spans and page sizes are inputs.
- The calls to the model service, their retries, the response cache and its key; the
  command-line `main` functions, argument parsing and the git subprocess of the
  progress-docs gate (the changed-file list is an input).
- File and directory I/O of the loaders and of the package validator: the
  per-artifact file checks are a function parameter of `ValidatePackage`.
- The SHA-1 digest in merged node ids and the package hashes: the digest is a function
  parameter of `Merge`, and artifact paths, hashes, the coherence score and the
  corrected-field lists of a package artifact are not modelled.
- Strings.IsDigit: only the ASCII digits count, while Python's `\d`, `isdigit`,
  `int()` and `float()` also accept other Unicode decimal digits (`int("١٢")` is 12).
  Through it, Json.ToInt, Numeric.ParseIntText, Assembly.PipeDiameterFt and the
  station, offset and tile-id matchers reject such digits.
- Strings.Upper and Strings.Lower: only ASCII letters change case, while Python's
  `str.upper`/`str.lower` are Unicode (the ligature "ﬁ" upper-cases to "FI", the
  Kelvin sign lower-cases to "k"). Through them, Merge.NormToken,
  Assembly.HintScore, Assembly.NormalizeSize, PackageContract status reading and the
  manifest keyword search differ from Python on such text.
- Manifest.IsWordChar: the word boundary of the sheet-label pattern treats only
  ASCII letters, digits and `_` as word characters, while Python's `\b` also
  counts other Unicode letters and digits ("É").
- Binary floating point: stations, elevations, slopes and lengths are exact reals, so
  a comparison that a rounding error would tip the other way is not captured.
- Checks.NodeReport: the actual value of an elevation mismatch (Python's list repr of
  the rim values) is left empty, since float repr is not modelled.
- Checks.SizeReport: the description of a size mismatch does not spell out the tuple
  repr of the segment key or the list of sizes; the actual value (the joined sizes)
  and the pages are modelled.
- Finding descriptions are modelled as text for the edge and node findings, but no
  property is stated about their wording, only about type, severity, nodes, edges
  and pages.
- Field validation of the extraction schemas (pydantic) is not modelled; the records
  are shapes only.
- Passes.DeduplicatePipeEdges: a directed graph holds at most two edges on an
  unordered pair, so the cluster loop is modelled for clusters of at most two edges.
- Build.AddPipeRule: when two pipes resolve to the same ordered pair of nodes, the
  second `add_edge` updates the first edge in place, so the model proves at most one
  edge per pipe rather than exactly one.
- The `all_extractions` parameter of `check_elevation_consistency` is unused by the
  source and has no counterpart in the model.
