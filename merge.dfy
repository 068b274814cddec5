/** Structure merging for one utility graph: observations of the same
    structure on overlapping tiles are grouped on an exact location key,
    each group becomes one node whose fields come from its richest member,
    and a proximity pass then folds together copies of a structure read from
    the plan and the profile view. */
module Merge {
  import opened Wrappers
  import opened Strings
  import opened Numeric
  import opened Ordering
  import opened Json
  import opened Parsing
  import opened Schemas

  // ---------------------------------------------------------------------------
  // Tokens and the utility vocabulary

  /** The capital letters and digits of a string, in order. */
  function KeepUpperAlnum(s: string): (r: string)
    ensures |r| <= |s|
    ensures forall i :: 0 <= i < |r| ==> IsUpperAlnum(r[i])
  {
    if |s| == 0 then "" else (if IsUpperAlnum(s[0]) then [s[0]] else "") + KeepUpperAlnum(s[1..])
  }

  lemma {:induction false} KeepUpperAlnumIdentity(s: string)
    requires forall i :: 0 <= i < |s| ==> IsUpperAlnum(s[i])
    ensures KeepUpperAlnum(s) == s
  {
    if |s| > 0 {
      KeepUpperAlnumIdentity(s[1..]);
      assert s == [s[0]] + s[1..];
    }
  }

  /** `_norm_token`: upper-case the text and drop everything but capital
      letters and digits (`""` stays `""`). */
  function NormToken(value: string): (r: string)
    ensures forall i :: 0 <= i < |r| ==> IsUpperAlnum(r[i])
    ensures |r| <= |value|
  {
    KeepUpperAlnum(Upper(value))
  }

  /** Normalising a normalised token changes nothing. */
  lemma NormTokenIdempotent(value: string)
    ensures NormToken(NormToken(value)) == NormToken(value)
  {
    var t := NormToken(value);
    UpperIdentity(t);
    KeepUpperAlnumIdentity(t);
  }

  /** A text made of capital letters and digits is its own token. */
  lemma NormTokenOfToken(value: string)
    requires forall i :: 0 <= i < |value| ==> IsUpperAlnum(value[i])
    ensures NormToken(value) == value
  {
    UpperIdentity(value);
    KeepUpperAlnumIdentity(value);
  }

  lemma UpperOfLower(s: string)
    ensures Upper(Lower(s)) == Upper(s)
  {
    assert forall i :: 0 <= i < |s| ==> UpperChar(LowerChar(s[i])) == UpperChar(s[i]);
  }

  /** The token does not depend on the letter case of the text. */
  lemma NormTokenIgnoresCase(value: string)
    ensures NormToken(Lower(value)) == NormToken(value)
  {
    UpperOfLower(value);
  }

  /** The structure types that belong to each utility besides those whose
      token contains the utility code. */
  function Vocabulary(utility: string): set<string> {
    if utility == "SD" then {"SDMH", "SDCB", "CB", "INLET", "DI", "CATCHBASIN"}
    else if utility == "SS" then {"SSMH", "CO", "CLEANOUT"}
    else if utility == "W" then
      {"WV", "GV", "FH", "HYDRANT", "BEND", "TEE", "WATERVALVE", "GATEVALVE", "FIREHYDRANT",
       "BLOWOFF", "AIRVALVE", "PRV", "METER", "REDUCER", "SERVICECONNECTION"}
    else {}
  }

  /** `structure_matches_utility` */
  predicate MatchesUtility(structureType: string, utilityType: string, hasInverts: bool) {
    var utility := Strip(Upper(utilityType));
    var stype := NormToken(structureType);
    |stype| > 0 && (Contains(stype, utility) || stype in Vocabulary(utility) || (stype == "GB" && hasInverts))
  }

  /** Neither the structure type nor the utility code is case sensitive. */
  lemma MatchesIgnoresCase(structureType: string, utilityType: string, hasInverts: bool)
    ensures MatchesUtility(Lower(structureType), Lower(utilityType), hasInverts)
        == MatchesUtility(structureType, utilityType, hasInverts)
  {
    NormTokenIgnoresCase(structureType);
    UpperOfLower(utilityType);
  }

  /** A type without letters or digits never matches. */
  lemma NoTokenNoMatch(utilityType: string, hasInverts: bool)
    ensures !MatchesUtility("--", utilityType, hasInverts)
  {
    assert Upper("--") == "--";
    assert NormToken("--") == KeepUpperAlnum("--");
  }

  /** An inlet belongs to storm drain, whatever the letter case. */
  lemma InletIsStormDrain()
    ensures MatchesUtility("inlet", "sd", false)
  {
    assert Upper("inlet") == "INLET";
    NormTokenOfToken("INLET");
    assert Upper("sd") == "SD";
    UpperIdentity("SD");
    StripNoEdgeSpace("SD");
  }

  /** A sanitary manhole type names its utility. */
  lemma ManholeNamesUtility()
    ensures MatchesUtility("SSMH", "SS", false)
  {
    UpperIdentity("SS");
    StripNoEdgeSpace("SS");
    NormTokenOfToken("SSMH");
    assert "SS" <= "SSMH";
  }

  /** A grate box joins a utility only when it carries inverts. */
  lemma GrateBoxNeedsInverts()
    ensures MatchesUtility("GB", "W", true)
    ensures !MatchesUtility("GB", "SS", false)
  {
    UpperIdentity("W");
    StripNoEdgeSpace("W");
    UpperIdentity("SS");
    StripNoEdgeSpace("SS");
    NormTokenOfToken("GB");
    assert !Contains("GB", "SS") by {
      assert !("SS" <= "GB") && !("SS" <= "GB"[1..]) && !("SS" <= "GB"[1..][1..]);
    }
  }

  // ---------------------------------------------------------------------------
  // The exact-merge key

  /** `structure.offset or "0' CL"` */
  function OffsetOrCenter(offset: string): string {
    if offset == "" then "0' CL" else offset
  }

  /** The signed offset the merge uses: the parsed offset, else 0.0 when the
      text mentions the centerline. */
  function EffectiveOffset(offsetValue: string): Option<real> {
    var parsed := ParseSignedOffset(offsetValue);
    if parsed.None? && Contains(Upper(offsetValue), "CL") then Some(0.0) else parsed
  }

  /** The default offset text holds no offset pattern. */
  lemma CenterTextNoOffset()
    ensures ParseSignedOffset("0' CL").None?
  {
    var t := "0' CL";
    assert Upper(t) == t;
    ReplaceCharAbsent(Upper(t), ',', " ");
    var n := NormalizeOffsetText(t);
    CenterTextNoOffsetAt(n);
    ParseOffsetNone(t);
  }

  /** No number starts where there is neither a digit nor a minus sign. */
  lemma NoNumberNoOffset(n: string, k: nat)
    requires k <= |n| && (k < |n| ==> !IsDigit(n[k]) && n[k] != '-')
    ensures OffsetAt(n, k).None?
  {
    assert DigitsFrom(n, k) == 0;
  }

  lemma CenterTextNoOffsetAt(n: string)
    requires n == "0' CL"
    ensures forall k :: 0 <= k <= |n| ==> OffsetAt(n, k).None?
  {
    CenterTextNoOffsetAtStart(n);
    assert n[1] == '\'' && n[2] == ' ' && n[3] == 'C' && n[4] == 'L';
    NoNumberNoOffset(n, 1);
    NoNumberNoOffset(n, 2);
    NoNumberNoOffset(n, 3);
    NoNumberNoOffset(n, 4);
    NoNumberNoOffset(n, 5);
  }

  lemma CenterTextNoOffsetAtStart(n: string)
    requires n == "0' CL"
    ensures OffsetAt(n, 0).None?
  {
    DigitsFromExact(n, 0, 1);
    assert n[0..1] == "0";
    assert SkipSpaces(n, 1) == 1;
    assert UnitEnd(n, 1) == 2;
    assert SkipSpaces(n, 2) == 3 by { assert IsSpace(n[2]) && !IsSpace(n[3]); }
  }

  /** A structure without an offset sits on the centerline. */
  lemma MissingOffsetIsCenterline()
    ensures EffectiveOffset(OffsetOrCenter("")) == Some(0.0)
  {
    var t := "0' CL";
    CenterTextNoOffset();
    assert Upper(t) == t;
    assert "CL" <= t[3..];
    assert t[3..] == t[1..][1..][1..];
    assert Contains(t[1..][1..][1..], "CL");
  }

  /** Python tuples that are compared by value: a located key holds the
      rounded feet, an unlocated one the normalised raw text. */
  datatype StructureKey =
    | Located(page: int, stype: string, station: real, offset: real)
    | Unlocated(page: int, stype: string, stationText: string, offsetText: string)

  /** `_structure_key` */
  function KeyOf(page: int, s: Structure): StructureKey {
    var stype := NormToken(s.structureType);
    var station := ParseStation(s.station);
    var offsetValue := OffsetOrCenter(s.offset);
    var offset := EffectiveOffset(offsetValue);
    if station.Some? && offset.Some? then
      Located(page, stype, Round(station.value, 2), Round(offset.value, 2))
    else
      Unlocated(page, stype, NormToken(s.station), NormToken(offsetValue))
  }

  /** Located: both the station and the effective offset are known. */
  predicate IsLocated(s: Structure) {
    ParseStation(s.station).Some? && EffectiveOffset(OffsetOrCenter(s.offset)).Some?
  }

  /** Two observations share a key exactly when they are on the same page with
      the same normalised type and either both are located at the same
      station and offset to the hundredth of a foot, or neither is and their
      normalised station and offset texts agree. */
  lemma SameKeyRule(p: int, a: Structure, q: int, b: Structure)
    ensures KeyOf(p, a) == KeyOf(q, b) <==>
      p == q && NormToken(a.structureType) == NormToken(b.structureType) &&
      (if IsLocated(a) then
         IsLocated(b)
         && Round(ParseStation(a.station).value, 2) == Round(ParseStation(b.station).value, 2)
         && Round(EffectiveOffset(OffsetOrCenter(a.offset)).value, 2)
            == Round(EffectiveOffset(OffsetOrCenter(b.offset)).value, 2)
       else
         !IsLocated(b)
         && NormToken(a.station) == NormToken(b.station)
         && NormToken(OffsetOrCenter(a.offset)) == NormToken(OffsetOrCenter(b.offset)))
  {
  }

  // ---------------------------------------------------------------------------
  // Ranking observations

  /** `[f(x) for x in xs]`: each element mapped, in order. */
  function MapSeq<T, U>(xs: seq<T>, f: T -> U): (ys: seq<U>)
    ensures |ys| == |xs| && forall i :: 0 <= i < |xs| ==> ys[i] == f(xs[i])
  {
    seq(|xs|, i requires 0 <= i < |xs| => f(xs[i]))
  }

  /** `_structure_rank`: inverts, then stripped notes length, then text ids. */
  function RankOf(s: Structure): SortKey {
    Tuple([|s.inverts|, |Strip(TextOr(s.notes))|, |s.textIds|])
  }

  /** The first of the highest-ranked elements whose field is present, as a
      stable descending sort followed by a scan for the first present value
      finds it. */
  function PickFirstBy<T, U>(xs: seq<T>, rank: T -> SortKey, field: T -> Option<U>): Option<U> {
    PickBest(MapSeq(xs, rank), MapSeq(xs, field))
  }

  /** The picked value is missing exactly when every element lacks the field;
      otherwise it is the field of an element that no element having the field
      outranks, and that outranks every earlier element having the field. */
  lemma PickFirstRule<T, U>(xs: seq<T>, rank: T -> SortKey, field: T -> Option<U>)
    ensures PickFirstBy(xs, rank, field).None? <==> forall j :: 0 <= j < |xs| ==> field(xs[j]).None?
    ensures PickFirstBy(xs, rank, field).Some? ==>
      exists b :: (0 <= b < |xs| && field(xs[b]) == PickFirstBy(xs, rank, field) &&
        (forall j :: 0 <= j < |xs| && field(xs[j]).Some? ==> KeyLe(rank(xs[j]), rank(xs[b]))) &&
        (forall j :: 0 <= j < b && field(xs[j]).Some? ==> KeyLess(rank(xs[j]), rank(xs[b]))))
  {
    var keys := MapSeq(xs, rank);
    var values := MapSeq(xs, field);
    BestWithRule(keys, values);
    if BestWith(keys, values).Some? {
      var b := BestWith(keys, values).value;
      assert field(xs[b]) == PickFirstBy(xs, rank, field);
    }
  }

  /** The member `max(xs, key=rank)` returns. */
  function MaxBy<T>(xs: seq<T>, rank: T -> SortKey): (r: T)
    requires |xs| > 0
  {
    xs[FirstMax(MapSeq(xs, rank))]
  }

  /** No element outranks the maximum, and it outranks every element before it. */
  lemma MaxByRule<T>(xs: seq<T>, rank: T -> SortKey)
    requires |xs| > 0
    ensures exists b :: (0 <= b < |xs| && xs[b] == MaxBy(xs, rank) &&
      (forall j :: 0 <= j < |xs| ==> KeyLe(rank(xs[j]), rank(xs[b]))) &&
      (forall j :: 0 <= j < b ==> KeyLess(rank(xs[j]), rank(xs[b]))))
  {
    var keys := MapSeq(xs, rank);
    FirstMaxRule(keys);
    var b := FirstMax(keys);
    assert xs[b] == MaxBy(xs, rank);
  }

  /** `key=lambda note: len((note or "").strip())` */
  function NoteKey(note: Option<string>): SortKey {
    Tuple([|Strip(TextOr(note))|])
  }

  /** `sorted({round(float(v), 4) for v in values})` */
  function UniqueFloats(values: seq<real>): (r: seq<real>)
    ensures forall i, j :: 0 <= i < j < |r| ==> r[i] < r[j]
    ensures forall y :: y in r <==> exists k :: 0 <= k < |values| && y == Round(values[k], 4)
  {
    var rounded := seq(|values|, k requires 0 <= k < |values| => Round(values[k], 4));
    var r := UniqueReals(rounded);
    forall y ensures y in rounded <==> exists k :: 0 <= k < |values| && y == Round(values[k], 4) {
      if y in rounded {
        var k :| 0 <= k < |rounded| && rounded[k] == y;
      }
      if exists k :: 0 <= k < |values| && y == Round(values[k], 4) {
        var k :| 0 <= k < |values| && y == Round(values[k], 4);
        assert rounded[k] == y;
      }
    }
    r
  }

  // ---------------------------------------------------------------------------
  // Node ids

  /** The type part of a node id: the token, else "STRUCT". */
  function TypeToken(structureType: string): (t: string)
    ensures |t| > 0
    ensures forall i :: 0 <= i < |t| ==> IsUpperAlnum(t[i])
  {
    var token := NormToken(structureType);
    if token == "" then "STRUCT" else token
  }

  /** `_make_node_id`. `hash` stands for the first ten hex digits of the SHA-1
      digest of its argument. */
  function MakeNodeId(utility: string, page: int, structureType: string, station: string, offset: string,
                      parsedStation: Option<real>, signedOffset: Option<real>, hash: string -> string): (id: string)
  {
    var u := Upper(utility);
    var head := u + ":" + IntToString(page) + ":" + TypeToken(structureType) + ":";
    if parsedStation.Some? && signedOffset.Some? then
      head + FormatFixed(parsedStation.value, 2, false) + ":" + FormatFixed(signedOffset.value, 2, true)
    else
      head + hash(u + "|" + IntToString(page) + "|" + structureType + "|" + station + "|" + offset)
  }

  /** A located node's id depends on its location only, not on the raw
      station and offset text nor on the hash. */
  lemma LocatedIdIgnoresText(utility: string, page: int, structureType: string, station: real, offset: real,
                             rawStation1: string, rawOffset1: string, hash1: string -> string,
                             rawStation2: string, rawOffset2: string, hash2: string -> string)
    ensures MakeNodeId(utility, page, structureType, rawStation1, rawOffset1, Some(station), Some(offset), hash1)
         == MakeNodeId(utility, page, structureType, rawStation2, rawOffset2, Some(station), Some(offset), hash2)
  {
  }

  /** A type with no letters or digits is spelled "STRUCT" in the id. */
  lemma TypeTokenDefault(structureType: string)
    requires NormToken(structureType) == ""
    ensures TypeToken(structureType) == "STRUCT"
  {
  }

  /** The id of a storm-drain manhole at station 16+82.45, 28 ft right. */
  lemma NodeIdExample(hash: string -> string)
    ensures MakeNodeId("sd", 14, "SDMH", "16+82.45", "28.00' RT", Some(1682.45), Some(28.0), hash)
         == "SD:14:SDMH:1682.45:+28.00"
  {
    assert "SD:14:SDMH:" + "1682.45" + ":" + "+28.00" == "SD:14:SDMH:1682.45:+28.00";
    HeadExample();
    StationFormatExample();
    OffsetFormatExample();
  }

  lemma HeadExample()
    ensures Upper("sd") + ":" + IntToString(14) + ":" + TypeToken("SDMH") + ":" == "SD:14:SDMH:"
  {
    assert Upper("sd") == "SD";
    NormTokenOfToken("SDMH");
    assert IntToString(14) == "14";
  }

  lemma StationFormatExample()
    ensures FormatFixed(1682.45, 2, false) == "1682.45"
  {
    assert RoundToInt(168245.0) == 168245;
    assert NatToString(168245) == "168245";
  }

  lemma OffsetFormatExample()
    ensures FormatFixed(28.0, 2, true) == "+28.00"
  {
    assert RoundToInt(2800.0) == 2800;
    assert NatToString(2800) == "2800";
  }

  // ---------------------------------------------------------------------------
  // Merged nodes

  /** A node of the utility graph: one structure with the provenance of every
      observation merged into it. */
  datatype MergedStructure = MergedStructure(
    nodeId: string,
    page: int,
    structureType: string,
    station: string,
    offset: string,
    parsedStation: Option<real>,
    signedOffset: Option<real>,
    id: Option<string>,
    size: Option<string>,
    rim: Option<real>,
    tc: Option<real>,
    fl: Option<real>,
    inverts: seq<Invert>,
    existing: bool,
    notes: Option<string>,
    tileIds: seq<string>,
    pages: seq<int>,
    textIds: seq<int>,
    sanitized: bool,
    variants: nat,
    rims: seq<real>)

  /** One observation that matches the utility, with the tile it came from
      and that tile's sanitizer flag. */
  datatype Member = Member(tileId: string, page: int, structure: Structure, sanitized: bool)

  /** The concatenation of a sequence of sequences. */
  function Flatten<T>(xss: seq<seq<T>>): seq<T> {
    if |xss| == 0 then [] else Flatten(xss[..|xss| - 1]) + xss[|xss| - 1]
  }

  lemma {:induction false} FlattenMembers<T>(xss: seq<seq<T>>, y: T)
    ensures y in Flatten(xss) <==> exists i :: 0 <= i < |xss| && y in xss[i]
  {
    if |xss| > 0 {
      var init := xss[..|xss| - 1];
      FlattenMembers(init, y);
      assert forall i :: 0 <= i < |init| ==> init[i] == xss[i];
    }
  }

  function InvertTextIds(inverts: seq<Invert>): (r: seq<seq<int>>)
    ensures |r| == |inverts| && forall k :: 0 <= k < |inverts| ==> r[k] == inverts[k].textIds
  {
    seq(|inverts|, k requires 0 <= k < |inverts| => inverts[k].textIds)
  }

  /** The text ids of an observation and of its inverts. */
  function ObservedTextIds(s: Structure): seq<int> {
    s.textIds + Flatten(InvertTextIds(s.inverts))
  }

  /** What the merge loop collects into `source_text_ids`. */
  function GroupTextIds(ss: seq<Structure>): seq<int> {
    if |ss| == 0 then [] else GroupTextIds(ss[..|ss| - 1]) + ObservedTextIds(ss[|ss| - 1])
  }

  /** What the merge loop collects into `rim_values`. */
  function GroupRims(ss: seq<Structure>): seq<real> {
    if |ss| == 0 then []
    else GroupRims(ss[..|ss| - 1]) + (if ss[|ss| - 1].rim.Some? then [ss[|ss| - 1].rim.value] else [])
  }

  /** The loop of `merge_structures` that gathers text ids and rims. */
  method CollectProvenance(ss: seq<Structure>) returns (ids: seq<int>, rims: seq<real>)
    ensures ids == GroupTextIds(ss) && rims == GroupRims(ss)
  {
    ids := [];
    rims := [];
    for i := 0 to |ss|
      invariant ids == GroupTextIds(ss[..i]) && rims == GroupRims(ss[..i])
    {
      var s := ss[i];
      ids := ids + s.textIds;
      for k := 0 to |s.inverts|
        invariant ids == GroupTextIds(ss[..i]) + s.textIds + Flatten(InvertTextIds(s.inverts[..k]))
      {
        assert InvertTextIds(s.inverts[..k + 1])[..k] == InvertTextIds(s.inverts[..k]);
        ids := ids + s.inverts[k].textIds;
      }
      assert s.inverts[..|s.inverts|] == s.inverts;
      if s.rim.Some? {
        rims := rims + [s.rim.value];
      }
      assert ss[..i + 1][..i] == ss[..i];
    }
    assert ss[..|ss|] == ss;
  }

  lemma {:induction false} GroupTextIdsMembers(ss: seq<Structure>, y: int)
    ensures y in GroupTextIds(ss) <==>
      exists i :: 0 <= i < |ss| && (y in ss[i].textIds || exists k :: 0 <= k < |ss[i].inverts| && y in ss[i].inverts[k].textIds)
  {
    if |ss| > 0 {
      var init, last := ss[..|ss| - 1], ss[|ss| - 1];
      GroupTextIdsMembers(init, y);
      FlattenMembers(InvertTextIds(last.inverts), y);
      assert forall i :: 0 <= i < |init| ==> init[i] == ss[i];
    }
  }

  lemma {:induction false} GroupRimsMembers(ss: seq<Structure>, y: real)
    ensures y in GroupRims(ss) <==> exists i :: 0 <= i < |ss| && ss[i].rim == Some(y)
  {
    if |ss| > 0 {
      var init := ss[..|ss| - 1];
      GroupRimsMembers(init, y);
      assert forall i :: 0 <= i < |init| ==> init[i] == ss[i];
    }
  }

  function Structures(members: seq<Member>): (ss: seq<Structure>)
    ensures |ss| == |members| && forall i :: 0 <= i < |members| ==> ss[i] == members[i].structure
  {
    seq(|members|, i requires 0 <= i < |members| => members[i].structure)
  }

  function TileIdsOf(members: seq<Member>): (r: seq<string>)
    ensures |r| == |members| && forall i :: 0 <= i < |members| ==> r[i] == members[i].tileId
  {
    seq(|members|, i requires 0 <= i < |members| => members[i].tileId)
  }

  function PagesOf(members: seq<Member>): (r: seq<int>)
    ensures |r| == |members| && forall i :: 0 <= i < |members| ==> r[i] == members[i].page
  {
    seq(|members|, i requires 0 <= i < |members| => members[i].page)
  }

  /** The node an exact group becomes, given the text ids and rims its
      members carry. */
  function BuildNode(members: seq<Member>, utility: string, hash: string -> string,
                     textIds: seq<int>, rims: seq<real>): MergedStructure
    requires |members| > 0
  {
    var ss := Structures(members);
    var best := MaxBy(ss, RankOf);
    var parsedStation := ParseStation(best.station);
    var offsetValue := OffsetOrCenter(best.offset);
    var signedOffset := EffectiveOffset(offsetValue);
    MergedStructure(
      nodeId := MakeNodeId(utility, members[0].page, best.structureType, best.station, offsetValue,
                           parsedStation, signedOffset, hash),
      page := members[0].page,
      structureType := best.structureType,
      station := best.station,
      offset := offsetValue,
      parsedStation := parsedStation,
      signedOffset := signedOffset,
      id := PickFirstBy(ss, RankOf, (s: Structure) => s.id),
      size := PickFirstBy(ss, RankOf, (s: Structure) => s.size),
      rim := PickFirstBy(ss, RankOf, (s: Structure) => s.rim),
      tc := PickFirstBy(ss, RankOf, (s: Structure) => s.tc),
      fl := PickFirstBy(ss, RankOf, (s: Structure) => s.fl),
      inverts := best.inverts,
      existing := exists i :: 0 <= i < |ss| && ss[i].existing,
      notes := MaxBy(MapSeq(ss, (s: Structure) => s.notes), NoteKey),
      tileIds := UniqueStrings(TileIdsOf(members)),
      pages := UniqueInts(PagesOf(members)),
      textIds := UniqueInts(textIds),
      sanitized := exists i :: 0 <= i < |members| && members[i].sanitized,
      variants := |members|,
      rims := UniqueFloats(rims))
  }

  /** The node `merge_structures` makes of one exact group. */
  function MergeGroup(members: seq<Member>, utility: string, hash: string -> string): MergedStructure
    requires |members| > 0
  {
    BuildNode(members, utility, hash, GroupTextIds(Structures(members)), GroupRims(Structures(members)))
  }

  /** An exact group of N observations is one node with `variants_count` N,
      on the page of its first observation, whose tile ids and pages are the
      sorted distinct values its observations carry. */
  lemma MergeGroupSources(members: seq<Member>, utility: string, hash: string -> string)
    requires |members| > 0
    ensures var m := MergeGroup(members, utility, hash);
      m.variants == |members| && m.page == members[0].page &&
      (forall i, j :: 0 <= i < j < |m.tileIds| ==> StrLess(m.tileIds[i], m.tileIds[j])) &&
      (forall t :: t in m.tileIds <==> exists i :: 0 <= i < |members| && members[i].tileId == t)
  {
    var m := MergeGroup(members, utility, hash);
    var ts := TileIdsOf(members);
    assert m.tileIds == UniqueStrings(ts);
    forall t ensures t in m.tileIds <==> exists i :: 0 <= i < |members| && members[i].tileId == t {
      if exists i :: 0 <= i < |members| && members[i].tileId == t {
        var i :| 0 <= i < |members| && members[i].tileId == t;
        assert ts[i] == t;
      }
    }
  }

  /** The node's pages are the sorted distinct pages of its observations. */
  lemma MergeGroupPages(members: seq<Member>, utility: string, hash: string -> string)
    requires |members| > 0
    ensures var m := MergeGroup(members, utility, hash);
      (forall i, j :: 0 <= i < j < |m.pages| ==> m.pages[i] < m.pages[j]) &&
      (forall p :: p in m.pages <==> exists i :: 0 <= i < |members| && members[i].page == p)
  {
    var m := MergeGroup(members, utility, hash);
    var ps := PagesOf(members);
    assert m.pages == UniqueInts(ps);
    forall p ensures p in m.pages <==> exists i :: 0 <= i < |members| && members[i].page == p {
      if exists i :: 0 <= i < |members| && members[i].page == p {
        var i :| 0 <= i < |members| && members[i].page == p;
        assert ps[i] == p;
      }
    }
  }

  /** The node's text ids are the sorted distinct ids of its observations
      and of their inverts. */
  lemma MergeGroupTextIds(members: seq<Member>, utility: string, hash: string -> string)
    requires |members| > 0
    ensures var m := MergeGroup(members, utility, hash);
      (forall i, j :: 0 <= i < j < |m.textIds| ==> m.textIds[i] < m.textIds[j]) &&
      (forall y :: y in m.textIds <==> exists i :: (0 <= i < |members| &&
         (y in members[i].structure.textIds ||
          exists k :: 0 <= k < |members[i].structure.inverts| && y in members[i].structure.inverts[k].textIds)))
  {
    var ss := Structures(members);
    forall y ensures y in UniqueInts(GroupTextIds(ss)) <==> exists i :: (0 <= i < |members| &&
         (y in members[i].structure.textIds ||
          exists k :: 0 <= k < |members[i].structure.inverts| && y in members[i].structure.inverts[k].textIds))
    {
      GroupTextIdsMembers(ss, y);
    }
  }

  /** The node's rim values are the sorted distinct rims of its observations,
      rounded to 4 places. */
  lemma MergeGroupRims(members: seq<Member>, utility: string, hash: string -> string)
    requires |members| > 0
    ensures var m := MergeGroup(members, utility, hash);
      (forall i, j :: 0 <= i < j < |m.rims| ==> m.rims[i] < m.rims[j]) &&
      (forall r :: r in m.rims <==> exists i :: (0 <= i < |members| &&
         members[i].structure.rim.Some? && r == Round(members[i].structure.rim.value, 4)))
  {
    var ss := Structures(members);
    forall r ensures r in UniqueFloats(GroupRims(ss)) <==> exists i :: (0 <= i < |members| &&
         members[i].structure.rim.Some? && r == Round(members[i].structure.rim.value, 4))
    {
      RoundedRimsMembers(ss, r);
    }
  }

  lemma RoundedRimsMembers(ss: seq<Structure>, r: real)
    ensures r in UniqueFloats(GroupRims(ss)) <==>
      exists i :: 0 <= i < |ss| && ss[i].rim.Some? && r == Round(ss[i].rim.value, 4)
  {
    var rims := GroupRims(ss);
    if r in UniqueFloats(rims) {
      var k :| 0 <= k < |rims| && r == Round(rims[k], 4);
      GroupRimsMembers(ss, rims[k]);
    }
    if exists i :: 0 <= i < |ss| && ss[i].rim.Some? && r == Round(ss[i].rim.value, 4) {
      var i :| 0 <= i < |ss| && ss[i].rim.Some? && r == Round(ss[i].rim.value, 4);
      GroupRimsMembers(ss, ss[i].rim.value);
      var k :| 0 <= k < |rims| && rims[k] == ss[i].rim.value;
    }
  }

  /** The node is existing, or sanitized, when any observation is. */
  lemma MergeGroupFlags(members: seq<Member>, utility: string, hash: string -> string)
    requires |members| > 0
    ensures var m := MergeGroup(members, utility, hash);
      (m.existing <==> exists i :: 0 <= i < |members| && members[i].structure.existing) &&
      (m.sanitized <==> exists i :: 0 <= i < |members| && members[i].sanitized)
  {
  }

  /** The representative observation: the inverts and type come from one
      that no other outranks and that outranks every observation before it. */
  lemma MergeGroupPrimary(members: seq<Member>, utility: string, hash: string -> string)
    requires |members| > 0
    ensures var m := MergeGroup(members, utility, hash);
      var ss := Structures(members);
      exists b :: 0 <= b < |ss| && m.inverts == ss[b].inverts && m.structureType == ss[b].structureType &&
         (forall j :: 0 <= j < |ss| ==> KeyLe(RankOf(ss[j]), RankOf(ss[b]))) &&
         (forall j :: 0 <= j < b ==> KeyLess(RankOf(ss[j]), RankOf(ss[b])))
  {
    MaxByRule(Structures(members), RankOf);
  }

  /** `id` and rim come from the highest-ranked observation that has one, and
      are missing only when no observation has one (size, top-of-curb and
      flowline are picked by the same rule). */
  lemma MergeGroupPicks(members: seq<Member>, utility: string, hash: string -> string)
    requires |members| > 0
    ensures var m := MergeGroup(members, utility, hash);
      var ss := Structures(members);
      (m.id.None? <==> forall j :: 0 <= j < |ss| ==> ss[j].id.None?) &&
      (m.id.Some? ==> exists b :: (0 <= b < |ss| && ss[b].id == m.id &&
         forall j :: 0 <= j < |ss| && ss[j].id.Some? ==> KeyLe(RankOf(ss[j]), RankOf(ss[b])))) &&
      (m.rim.None? <==> forall j :: 0 <= j < |ss| ==> ss[j].rim.None?) &&
      (m.rim.Some? ==> exists b :: (0 <= b < |ss| && ss[b].rim == m.rim &&
         forall j :: 0 <= j < |ss| && ss[j].rim.Some? ==> KeyLe(RankOf(ss[j]), RankOf(ss[b]))))
  {
    var ss := Structures(members);
    PickFirstRule(ss, RankOf, (s: Structure) => s.id);
    PickFirstRule(ss, RankOf, (s: Structure) => s.rim);
  }

  // ---------------------------------------------------------------------------
  // Collapsing a proximity group

  /** The rank `_collapse_merged_group` and the pickers use on merged nodes. */
  function NodeRank(m: MergedStructure): SortKey {
    Tuple([|m.inverts|, |Strip(TextOr(m.notes))|, |m.textIds|])
  }

  /** The total `variants_count` of a list of nodes. */
  function SumVariants(ms: seq<MergedStructure>): nat {
    if |ms| == 0 then 0 else SumVariants(ms[..|ms| - 1]) + ms[|ms| - 1].variants
  }

  /** The tile ids of all members, member by member. */
  function TileUnion(group: seq<MergedStructure>): seq<string> {
    Flatten(MapSeq(group, (m: MergedStructure) => m.tileIds))
  }

  /** Every tile id some member of the group carries, and no other. */
  lemma TileUnionMembers(group: seq<MergedStructure>)
    ensures forall t :: t in TileUnion(group) <==> exists i :: 0 <= i < |group| && t in group[i].tileIds
  {
    var col := MapSeq(group, (m: MergedStructure) => m.tileIds);
    forall t ensures t in Flatten(col) <==> exists i :: 0 <= i < |group| && t in group[i].tileIds {
      FlattenMembers(col, t);
    }
  }

  /** The pages of all members, member by member. */
  function PageUnion(group: seq<MergedStructure>): seq<int> {
    Flatten(MapSeq(group, (m: MergedStructure) => m.pages))
  }

  /** Every page some member of the group carries, and no other. */
  lemma PageUnionMembers(group: seq<MergedStructure>)
    ensures forall p :: p in PageUnion(group) <==> exists i :: 0 <= i < |group| && p in group[i].pages
  {
    var col := MapSeq(group, (m: MergedStructure) => m.pages);
    forall p ensures p in Flatten(col) <==> exists i :: 0 <= i < |group| && p in group[i].pages {
      FlattenMembers(col, p);
    }
  }

  /** The text ids of all members, member by member. */
  function TextUnion(group: seq<MergedStructure>): seq<int> {
    Flatten(MapSeq(group, (m: MergedStructure) => m.textIds))
  }

  /** Every text id some member of the group carries, and no other. */
  lemma TextUnionMembers(group: seq<MergedStructure>)
    ensures forall y :: y in TextUnion(group) <==> exists i :: 0 <= i < |group| && y in group[i].textIds
  {
    var col := MapSeq(group, (m: MergedStructure) => m.textIds);
    forall y ensures y in Flatten(col) <==> exists i :: 0 <= i < |group| && y in group[i].textIds {
      FlattenMembers(col, y);
    }
  }

  /** The rim readings of all members, member by member. */
  function RimUnion(group: seq<MergedStructure>): seq<real> {
    Flatten(MapSeq(group, (m: MergedStructure) => m.rims))
  }

  /** Every rim reading some member of the group carries, and no other. */
  lemma RimUnionMembers(group: seq<MergedStructure>)
    ensures forall x :: x in RimUnion(group) <==> exists i :: 0 <= i < |group| && x in group[i].rims
  {
    var col := MapSeq(group, (m: MergedStructure) => m.rims);
    forall x ensures x in Flatten(col) <==> exists i :: 0 <= i < |group| && x in group[i].rims {
      FlattenMembers(col, x);
    }
  }

  /** `_collapse_merged_group`: the primary member is the first of the
      highest-ranked ones; `id` and `size` fall back when the primary's text is
      empty or missing, the elevations only when they are missing. */
  function Collapse(group: seq<MergedStructure>, utility: string, hash: string -> string): MergedStructure
    requires |group| > 0
  {
    var primary := MaxBy(group, NodeRank);
    MergedStructure(
      nodeId := MakeNodeId(utility, primary.page, primary.structureType, primary.station, primary.offset,
                           primary.parsedStation, primary.signedOffset, hash),
      page := primary.page,
      structureType := primary.structureType,
      station := primary.station,
      offset := primary.offset,
      parsedStation := primary.parsedStation,
      signedOffset := primary.signedOffset,
      id := if Given(primary.id) then primary.id else PickFirstBy(group, NodeRank, (m: MergedStructure) => m.id),
      size := if Given(primary.size) then primary.size else PickFirstBy(group, NodeRank, (m: MergedStructure) => m.size),
      rim := if primary.rim.Some? then primary.rim else PickFirstBy(group, NodeRank, (m: MergedStructure) => m.rim),
      tc := if primary.tc.Some? then primary.tc else PickFirstBy(group, NodeRank, (m: MergedStructure) => m.tc),
      fl := if primary.fl.Some? then primary.fl else PickFirstBy(group, NodeRank, (m: MergedStructure) => m.fl),
      inverts := primary.inverts,
      existing := exists i :: 0 <= i < |group| && group[i].existing,
      notes := MaxBy(MapSeq(group, (m: MergedStructure) => m.notes), NoteKey),
      tileIds := UniqueStrings(TileUnion(group)),
      pages := UniqueInts(PageUnion(group)),
      textIds := UniqueInts(TextUnion(group)),
      sanitized := exists i :: 0 <= i < |group| && group[i].sanitized,
      variants := SumVariants(group),
      rims := UniqueFloats(RimUnion(group)))
  }

  /** A collapsed node counts the variants of all its members and carries the
      union of their tile ids, pages and text ids; it is sanitized or existing
      when any member is. */
  lemma CollapseProvenance(group: seq<MergedStructure>, utility: string, hash: string -> string)
    requires |group| > 0
    ensures var c := Collapse(group, utility, hash);
      c.variants == SumVariants(group) &&
      (forall t :: t in c.tileIds <==> exists i :: 0 <= i < |group| && t in group[i].tileIds) &&
      (forall p :: p in c.pages <==> exists i :: 0 <= i < |group| && p in group[i].pages) &&
      (forall y :: y in c.textIds <==> exists i :: 0 <= i < |group| && y in group[i].textIds) &&
      (c.sanitized <==> exists i :: 0 <= i < |group| && group[i].sanitized) &&
      (c.existing <==> exists i :: 0 <= i < |group| && group[i].existing)
  {
    TileUnionMembers(group);
    PageUnionMembers(group);
    TextUnionMembers(group);
  }

  /** A collapsed node keeps the location, type and inverts of a member that no
      other member outranks and that outranks every member before it. */
  lemma CollapsePrimary(group: seq<MergedStructure>, utility: string, hash: string -> string)
    requires |group| > 0
    ensures var c := Collapse(group, utility, hash);
      exists b :: 0 <= b < |group| && c.page == group[b].page && c.structureType == group[b].structureType &&
        c.parsedStation == group[b].parsedStation && c.signedOffset == group[b].signedOffset &&
        c.inverts == group[b].inverts &&
        (forall j :: 0 <= j < |group| ==> KeyLe(NodeRank(group[j]), NodeRank(group[b]))) &&
        (forall j :: 0 <= j < b ==> KeyLess(NodeRank(group[j]), NodeRank(group[b])))
  {
    MaxByRule(group, NodeRank);
  }

  // ---------------------------------------------------------------------------
  // Exact grouping

  /** The observations of one tile that belong to the utility, in order. */
  function TileMembers(e: TileExtraction, structures: seq<Structure>, keep: Structure -> bool,
                       sanitized: bool): seq<Member> {
    if |structures| == 0 then []
    else
      var s := structures[|structures| - 1];
      TileMembers(e, structures[..|structures| - 1], keep, sanitized) + Admitted(e, s, keep, sanitized)
  }

  /** Every observation that belongs to the utility, tile by tile. */
  function UtilityMembers(extractions: seq<TileExtraction>, keep: Structure -> bool, meta: TileMeta): seq<Member> {
    if |extractions| == 0 then []
    else
      var e := extractions[|extractions| - 1];
      UtilityMembers(extractions[..|extractions| - 1], keep, meta)
        + TileMembers(e, e.structures, keep, MetaSanitized(meta, e.tileId))
  }

  /** Whether a structure belongs to the utility being merged
      (`structure_matches_utility`). */
  function Belongs(utility: string): Structure -> bool {
    (s: Structure) => MatchesUtility(s.structureType, utility, |s.inverts| > 0)
  }

  /** The key an observation is grouped on. */
  function MemberKey(m: Member): StructureKey {
    KeyOf(m.page, m.structure)
  }

  /** One entry of the `grouped` dict: a key and its observations in arrival order. */
  datatype Bucket<K, T> = Bucket(key: K, members: seq<T>)

  /** The position of the bucket holding `key`, if any. */
  function FindBucket<K(==), T>(groups: seq<Bucket<K, T>>, key: K): Option<nat> {
    if |groups| == 0 then None
    else if groups[|groups| - 1].key == key then Some(|groups| - 1)
    else FindBucket(groups[..|groups| - 1], key)
  }

  /** The search finds a bucket with the key exactly when there is one. */
  lemma {:induction false} FindBucketRule<K, T>(groups: seq<Bucket<K, T>>, key: K)
    ensures var r := FindBucket(groups, key);
      (r.Some? ==> r.value < |groups| && groups[r.value].key == key) &&
      (r.None? ==> forall i :: 0 <= i < |groups| ==> groups[i].key != key)
  {
    if |groups| > 0 && groups[|groups| - 1].key != key {
      FindBucketRule(groups[..|groups| - 1], key);
    }
  }

  /** `grouped.setdefault(key, []).append(m)`: a new key opens a bucket at the end. */
  function AddToBuckets<K(==), T>(groups: seq<Bucket<K, T>>, m: T, keyOf: T -> K): seq<Bucket<K, T>> {
    var key := keyOf(m);
    FindBucketRule(groups, key);
    match FindBucket(groups, key)
    case Some(i) => groups[i := Bucket(key, groups[i].members + [m])]
    case None => groups + [Bucket(key, [m])]
  }

  /** The buckets the merge loop fills, in order of each key's first appearance. */
  function GroupBy<K(==), T>(ms: seq<T>, keyOf: T -> K): seq<Bucket<K, T>> {
    if |ms| == 0 then [] else AddToBuckets(GroupBy(ms[..|ms| - 1], keyOf), ms[|ms| - 1], keyOf)
  }

  /** Buckets are non-empty, hold only observations with their key, and no
      two buckets share a key. */
  ghost predicate WellGrouped<K, T>(groups: seq<Bucket<K, T>>, keyOf: T -> K) {
    (forall i :: 0 <= i < |groups| ==> |groups[i].members| > 0) &&
    (forall i, k :: 0 <= i < |groups| && 0 <= k < |groups[i].members| ==>
       keyOf(groups[i].members[k]) == groups[i].key) &&
    (forall i, j :: 0 <= i < j < |groups| ==> groups[i].key != groups[j].key)
  }

  /** Some bucket with key `key` holds `x`. */
  ghost predicate FiledUnder<K, T>(groups: seq<Bucket<K, T>>, x: T, key: K) {
    exists i :: 0 <= i < |groups| && groups[i].key == key && x in groups[i].members
  }

  /** The number of observations held by all buckets. */
  function BucketTotal<K, T>(groups: seq<Bucket<K, T>>): nat {
    if |groups| == 0 then 0 else BucketTotal(groups[..|groups| - 1]) + |groups[|groups| - 1].members|
  }

  lemma {:induction false} BucketTotalUpdate<K, T>(groups: seq<Bucket<K, T>>, i: nat, b: Bucket<K, T>)
    requires i < |groups|
    ensures BucketTotal(groups[i := b]) == BucketTotal(groups) - |groups[i].members| + |b.members|
  {
    var n := |groups|;
    if i < n - 1 {
      assert groups[i := b][..n - 1] == groups[..n - 1][i := b];
      BucketTotalUpdate(groups[..n - 1], i, b);
    } else {
      assert groups[i := b][..n - 1] == groups[..n - 1];
    }
  }

  /** Appending to an existing bucket keeps the buckets well formed and
      only extends that bucket. */
  lemma AppendToBucket<K, T>(g: seq<Bucket<K, T>>, i: nat, m: T, keyOf: T -> K)
    requires WellGrouped(g, keyOf) && i < |g| && g[i].key == keyOf(m)
    ensures var r := g[i := Bucket(g[i].key, g[i].members + [m])];
      WellGrouped(r, keyOf) && BucketTotal(r) == BucketTotal(g) + 1 && m in r[i].members &&
      (forall b :: 0 <= b < |g| ==> r[b].key == g[b].key && g[b].members <= r[b].members)
  {
    BucketTotalUpdate(g, i, Bucket(g[i].key, g[i].members + [m]));
  }

  /** Opening a bucket for a new key keeps the buckets well formed. */
  lemma OpenBucket<K, T>(g: seq<Bucket<K, T>>, m: T, keyOf: T -> K)
    requires WellGrouped(g, keyOf) && forall b :: 0 <= b < |g| ==> g[b].key != keyOf(m)
    ensures var r := g + [Bucket(keyOf(m), [m])];
      WellGrouped(r, keyOf) && BucketTotal(r) == BucketTotal(g) + 1
  {
    var r := g + [Bucket(keyOf(m), [m])];
    var n := |g|;
    assert r[..n] == g;
    assert r[n] == Bucket(keyOf(m), [m]);
    forall i | 0 <= i < |r| ensures |r[i].members| > 0 {
      if i < n { assert r[i] == g[i]; }
    }
    forall i, k | 0 <= i < |r| && 0 <= k < |r[i].members| ensures keyOf(r[i].members[k]) == r[i].key {
      if i < n { assert r[i] == g[i]; }
    }
    forall i, j | 0 <= i < j < |r| ensures r[i].key != r[j].key {
      assert r[i] == g[i];
      if j < n { assert r[j] == g[j]; }
    }
  }

  /** One `setdefault(...).append(...)` keeps the buckets well formed, adds
      one observation, files `m` under its key and only extends the buckets
      that were there. */
  lemma AddToBucketsRule<K, T>(g: seq<Bucket<K, T>>, m: T, keyOf: T -> K)
    requires WellGrouped(g, keyOf)
    ensures var r := AddToBuckets(g, m, keyOf);
      WellGrouped(r, keyOf) && BucketTotal(r) == BucketTotal(g) + 1 && |g| <= |r| &&
      FiledUnder(r, m, keyOf(m)) &&
      (forall b :: 0 <= b < |g| ==> r[b].key == g[b].key && g[b].members <= r[b].members)
  {
    var r := AddToBuckets(g, m, keyOf);
    FindBucketRule(g, keyOf(m));
    match FindBucket(g, keyOf(m))
    case Some(i) =>
      AppendToBucket(g, i, m, keyOf);
    case None =>
      OpenBucket(g, m, keyOf);
      assert r[|g|].members == [m];
  }

  /** Grouping keeps keys apart and loses and invents no observation. */
  lemma {:induction false} GroupByShape<K, T>(ms: seq<T>, keyOf: T -> K)
    ensures WellGrouped(GroupBy(ms, keyOf), keyOf)
    ensures BucketTotal(GroupBy(ms, keyOf)) == |ms|
  {
    if |ms| > 0 {
      var init, m := ms[..|ms| - 1], ms[|ms| - 1];
      GroupByShape(init, keyOf);
      AddToBucketsRule(GroupBy(init, keyOf), m, keyOf);
    }
  }

  /** Grouping files the observation at `k` under its own key. */
  lemma {:induction false} GroupByFiles<K, T>(ms: seq<T>, keyOf: T -> K, k: nat)
    requires k < |ms|
    ensures FiledUnder(GroupBy(ms, keyOf), ms[k], keyOf(ms[k]))
  {
    var init, m := ms[..|ms| - 1], ms[|ms| - 1];
    var g := GroupBy(init, keyOf);
    var r := GroupBy(ms, keyOf);
    GroupByShape(init, keyOf);
    AddToBucketsRule(g, m, keyOf);
    if k < |ms| - 1 {
      GroupByFiles(init, keyOf, k);
      assert ms[k] == init[k];
      var b :| 0 <= b < |g| && g[b].key == keyOf(init[k]) && init[k] in g[b].members;
      assert g[b].members <= r[b].members;
      assert r[b].key == keyOf(ms[k]) && ms[k] in r[b].members;
    }
  }

  /** Grouping loses and invents no observation, keeps keys apart, and files
      every observation under its own key. */
  lemma GroupByRule<K, T>(ms: seq<T>, keyOf: T -> K)
    ensures WellGrouped(GroupBy(ms, keyOf), keyOf)
    ensures BucketTotal(GroupBy(ms, keyOf)) == |ms|
    ensures forall k :: 0 <= k < |ms| ==> FiledUnder(GroupBy(ms, keyOf), ms[k], keyOf(ms[k]))
  {
    GroupByShape(ms, keyOf);
    forall k | 0 <= k < |ms| ensures FiledUnder(GroupBy(ms, keyOf), ms[k], keyOf(ms[k])) {
      GroupByFiles(ms, keyOf, k);
    }
  }

  // ---------------------------------------------------------------------------
  // Proximity merging

  /** The order `_proximity_merge` scans nodes in: page, type token, then
      station with unparsed stations last. */
  function ScanKey(m: MergedStructure): SortKey {
    [KNum(m.page as real), KStr(NormToken(m.structureType)),
     if m.parsedStation.Some? then KNum(m.parsedStation.value) else KTop]
  }

  /** What the inner scan does with a later node: fold it into the seed's
      group, pass over it, or stop scanning. */
  datatype ScanStep = Join | Pass | Stop

  /** One iteration of the inner loop for a node not already used: a change
      of page stops the scan; another type or a missing station passes; a
      station more than 3.0 ft away stops the scan when it lies ahead and
      passes otherwise; offsets more than 1.0 ft apart pass when both are
      known; anything else joins. */
  function ScanDecision(seed: MergedStructure, other: MergedStructure): ScanStep {
    if other.page != seed.page then Stop
    else if NormToken(other.structureType) != NormToken(seed.structureType) then Pass
    else if seed.parsedStation.None? || other.parsedStation.None? then Pass
    else if Abs(seed.parsedStation.value - other.parsedStation.value) > 3.0 then
      (if other.parsedStation.value > seed.parsedStation.value then Stop else Pass)
    else if seed.signedOffset.Some? && other.signedOffset.Some?
         && Abs(seed.signedOffset.value - other.signedOffset.value) > 1.0 then Pass
    else Join
  }

  /** The nodes that may be folded into a seed: same page and type, both
      stations known and within 3.0 ft, offsets within 1.0 ft when both known. */
  predicate Near(seed: MergedStructure, other: MergedStructure) {
    other.page == seed.page && NormToken(other.structureType) == NormToken(seed.structureType) &&
    seed.parsedStation.Some? && other.parsedStation.Some? &&
    Abs(seed.parsedStation.value - other.parsedStation.value) <= 3.0 &&
    (seed.signedOffset.Some? && other.signedOffset.Some? ==>
       Abs(seed.signedOffset.value - other.signedOffset.value) <= 1.0)
  }

  lemma JoinIsNear(seed: MergedStructure, other: MergedStructure)
    ensures ScanDecision(seed, other) == Join <==> Near(seed, other)
  {
  }

  /** The positions from `j` on that the inner loop adds to the group of the
      seed at `i`, given the positions already used. */
  function ScanGroup(items: seq<MergedStructure>, i: nat, j: nat, used: set<nat>): (g: seq<nat>)
    requires i < |items|
    decreases |items| - j
  {
    if j >= |items| then []
    else if j in used then ScanGroup(items, i, j + 1, used)
    else match ScanDecision(items[i], items[j])
      case Stop => []
      case Pass => ScanGroup(items, i, j + 1, used)
      case Join => [j] + ScanGroup(items, i, j + 1, used)
  }

  /** Positions strictly increasing, all from `j` up to `n`, none used. */
  predicate FreshRun(g: seq<nat>, j: nat, n: nat, used: set<nat>) {
    (forall k :: 0 <= k < |g| ==> j <= g[k] < n && g[k] !in used) &&
    (forall a, b :: 0 <= a < b < |g| ==> g[a] < g[b])
  }

  /** The scan adds unused positions after `j`, in increasing order. */
  lemma {:induction false} ScanGroupBounds(items: seq<MergedStructure>, i: nat, j: nat, used: set<nat>)
    requires i < |items|
    ensures FreshRun(ScanGroup(items, i, j, used), j, |items|, used)
    decreases |items| - j
  {
    if j < |items| {
      var rest := ScanGroup(items, i, j + 1, used);
      ScanGroupBounds(items, i, j + 1, used);
      if j !in used && ScanDecision(items[i], items[j]) == Join {
        var g := ScanGroup(items, i, j, used);
        assert g == [j] + rest;
        forall k | 0 <= k < |g| ensures j <= g[k] < |items| && g[k] !in used {
          if k > 0 { assert g[k] == rest[k - 1]; }
        }
        forall a, b | 0 <= a < b < |g| ensures g[a] < g[b] {
          if a > 0 { assert g[a] == rest[a - 1]; }
          assert g[b] == rest[b - 1];
        }
      }
    }
  }

  /** Every node the scan adds is near the seed. */
  lemma {:induction false} ScanGroupNear(items: seq<MergedStructure>, i: nat, j: nat, used: set<nat>)
    requires i < |items|
    ensures forall k :: 0 <= k < |ScanGroup(items, i, j, used)| ==>
      ScanGroup(items, i, j, used)[k] < |items| && Near(items[i], items[ScanGroup(items, i, j, used)[k]])
    decreases |items| - j
  {
    if j < |items| {
      var rest := ScanGroup(items, i, j + 1, used);
      ScanGroupNear(items, i, j + 1, used);
      if j !in used && ScanDecision(items[i], items[j]) == Join {
        var g := ScanGroup(items, i, j, used);
        assert g == [j] + rest;
        JoinIsNear(items[i], items[j]);
        forall k | 0 <= k < |g| ensures g[k] < |items| && Near(items[i], items[g[k]]) {
          if k > 0 { assert g[k] == rest[k - 1]; }
        }
      }
    }
  }

  /** The positions of a group, as a set. */
  function AsSet(idx: seq<nat>): set<nat> {
    if |idx| == 0 then {} else AsSet(idx[..|idx| - 1]) + {idx[|idx| - 1]}
  }

  lemma {:induction false} AsSetMembers(idx: seq<nat>)
    ensures forall k :: k in AsSet(idx) <==> k in idx
  {
    if |idx| > 0 {
      AsSetMembers(idx[..|idx| - 1]);
      assert idx == idx[..|idx| - 1] + [idx[|idx| - 1]];
    }
  }

  /** The nodes at the given positions, in that order. */
  function Pick(items: seq<MergedStructure>, idx: seq<nat>): seq<MergedStructure> {
    if |idx| == 0 then []
    else Pick(items, idx[..|idx| - 1]) + (if idx[|idx| - 1] < |items| then [items[idx[|idx| - 1]]] else [])
  }

  /** What a seed becomes: itself when it gathered nothing, else the collapse
      of its group. */
  function SeedNode(group: seq<MergedStructure>, utility: string, hash: string -> string): MergedStructure
    requires |group| > 0
  {
    if |group| == 1 then group[0] else Collapse(group, utility, hash)
  }

  /** The outer loop from position `i` on: each unused node seeds a group; a
      seed that gathers nothing is kept as it is, a larger group collapses. */
  function ProxFrom(items: seq<MergedStructure>, i: nat, used: set<nat>, utility: string, hash: string -> string)
    : seq<MergedStructure>
    decreases |items| - i
  {
    if i >= |items| then []
    else if i in used then ProxFrom(items, i + 1, used, utility, hash)
    else
      var g := ScanGroup(items, i, i + 1, used);
      [SeedNode([items[i]] + Pick(items, g), utility, hash)] + ProxFrom(items, i + 1, used + AsSet(g), utility, hash)
  }

  /** `_proximity_merge` */
  function ProximityMerge(merged: seq<MergedStructure>, utility: string, hash: string -> string)
    : seq<MergedStructure>
  {
    if |merged| <= 1 then merged else ProxFrom(SortBy(merged, ScanKey), 0, {}, utility, hash)
  }

  /** The body of the inner loop for an unused node, in the order of its tests. */
  method Decide(item: MergedStructure, other: MergedStructure) returns (step: ScanStep)
    ensures step == ScanDecision(item, other)
    ensures step == Join <==> Near(item, other)
  {
    if other.page != item.page {
      step := Stop;
    } else if NormToken(other.structureType) != NormToken(item.structureType) {
      step := Pass;
    } else if item.parsedStation.None? || other.parsedStation.None? {
      step := Pass;
    } else if Abs(item.parsedStation.value - other.parsedStation.value) > 3.0 {
      step := if other.parsedStation.value > item.parsedStation.value then Stop else Pass;
    } else if item.signedOffset.Some? && other.signedOffset.Some?
              && Abs(item.signedOffset.value - other.signedOffset.value) > 1.0 {
      step := Pass;
    } else {
      step := Join;
    }
    JoinIsNear(item, other);
  }

  /** What the inner loop knows after looking at the nodes before `j`: the
      positions `idx` it has added, the group and `used` set they make, and
      the positions the scan will still add. */
  ghost predicate ScanState(items: seq<MergedStructure>, i: nat, j: nat, used0: set<nat>, idx: seq<nat>,
                            group: seq<MergedStructure>, used: set<nat>)
    requires i < |items|
  {
    i + 1 <= j <= |items| &&
    (forall k :: 0 <= k < |idx| ==> i < idx[k] < j) &&
    idx + ScanGroup(items, i, j, used0) == ScanGroup(items, i, i + 1, used0) &&
    used == used0 + AsSet(idx) &&
    group == [items[i]] + Pick(items, idx)
  }

  /** One pass of the inner loop, at position `j`. */
  method ScanAt(items: seq<MergedStructure>, i: nat, j: nat, ghost used0: set<nat>, ghost idx: seq<nat>,
                group: seq<MergedStructure>, used: set<nat>)
    returns (stop: bool, ghost idx': seq<nat>, group': seq<MergedStructure>, used': set<nat>)
    requires i < |items| && j < |items|
    requires ScanState(items, i, j, used0, idx, group, used)
    ensures stop ==> ScanGroup(items, i, j, used0) == [] && idx' == idx && group' == group && used' == used
    ensures !stop ==> ScanState(items, i, j + 1, used0, idx', group', used')
  {
    stop, idx', group', used' := false, idx, group, used;
    AsSetMembers(idx);
    assert j in used <==> j in used0;
    if j in used {
      return;
    }
    var step := Decide(items[i], items[j]);
    if step == Stop {
      stop := true;
      return;
    }
    if step == Join {
      assert (idx + [j])[..|idx|] == idx;
      assert (idx + [j]) + ScanGroup(items, i, j + 1, used0) == idx + ScanGroup(items, i, j, used0);
      group' := group + [items[j]];
      idx' := idx + [j];
      used' := used + {j};
    }
  }

  /** The inner loop of `_proximity_merge`: the group of the seed at `i`
      and the positions used once it is gathered. */
  method ScanLoop(items: seq<MergedStructure>, i: nat, used0: set<nat>)
    returns (group: seq<MergedStructure>, used: set<nat>)
    requires i < |items|
    ensures var g := ScanGroup(items, i, i + 1, used0);
      group == [items[i]] + Pick(items, g) && used == used0 + AsSet(g)
  {
    group := [items[i]];
    used := used0;
    ghost var idx: seq<nat> := [];
    var j := i + 1;
    while j < |items|
      invariant ScanState(items, i, j, used0, idx, group, used)
      decreases |items| - j
    {
      var stop;
      stop, idx, group, used := ScanAt(items, i, j, used0, idx, group, used);
      if stop {
        break;
      }
      j := j + 1;
    }
    assert idx == ScanGroup(items, i, i + 1, used0);
  }

  lemma ProxFromStep(items: seq<MergedStructure>, i: nat, used: set<nat>, utility: string, hash: string -> string)
    requires i < |items| && i !in used
    ensures var g := ScanGroup(items, i, i + 1, used);
      ProxFrom(items, i, used, utility, hash)
      == [SeedNode([items[i]] + Pick(items, g), utility, hash)] + ProxFrom(items, i + 1, used + AsSet(g), utility, hash)
  {
  }

  /** The outer loop of `_proximity_merge` over the sorted nodes, with its
      `used` set. */
  method ProxLoop(items: seq<MergedStructure>, utility: string, hash: string -> string)
    returns (result: seq<MergedStructure>)
    ensures result == ProxFrom(items, 0, {}, utility, hash)
  {
    var used: set<nat> := {};
    result := [];
    for i := 0 to |items|
      invariant result + ProxFrom(items, i, used, utility, hash) == ProxFrom(items, 0, {}, utility, hash)
    {
      if i in used {
        continue;
      }
      var group, used' := ScanLoop(items, i, used);
      var node := SeedNode(group, utility, hash);
      ProxFromStep(items, i, used, utility, hash);
      assert (result + [node]) + ProxFrom(items, i + 1, used', utility, hash)
          == result + ProxFrom(items, i, used, utility, hash);
      result := result + [node];
      used := used';
    }
  }

  /** `_proximity_merge` */
  method ProximityMergeLoop(merged: seq<MergedStructure>, utility: string, hash: string -> string)
    returns (result: seq<MergedStructure>)
    ensures result == ProximityMerge(merged, utility, hash)
  {
    if |merged| <= 1 {
      return merged;
    }
    var items := SortBy(merged, ScanKey);
    result := ProxLoop(items, utility, hash);
  }

  // ---------------------------------------------------------------------------
  // Variant conservation through the proximity pass

  lemma {:induction false} SumVariantsAppend(a: seq<MergedStructure>, b: seq<MergedStructure>)
    ensures SumVariants(a + b) == SumVariants(a) + SumVariants(b)
    decreases |b|
  {
    if |b| > 0 {
      var b', x := b[..|b| - 1], b[|b| - 1];
      assert (a + b)[..|a + b| - 1] == a + b';
      SumVariantsAppend(a, b');
    } else {
      assert a + b == a;
    }
  }

  /** The sum of `f` over a sequence. */
  function SumOf<T>(xs: seq<T>, f: T -> nat): nat {
    if |xs| == 0 then 0 else SumOf(xs[..|xs| - 1], f) + f(xs[|xs| - 1])
  }

  lemma {:induction false} SumOfAppend<T>(a: seq<T>, b: seq<T>, f: T -> nat)
    ensures SumOf(a + b, f) == SumOf(a, f) + SumOf(b, f)
    decreases |b|
  {
    if |b| > 0 {
      assert (a + b)[..|a + b| - 1] == a + b[..|b| - 1];
      SumOfAppend(a, b[..|b| - 1], f);
    } else {
      assert a + b == a;
    }
  }

  lemma {:induction false} RemoveAt<T>(b: seq<T>, k: nat)
    requires k < |b|
    ensures multiset(b[..k] + b[k + 1..]) == multiset(b) - multiset{b[k]}
  {
    assert b == b[..k] + [b[k]] + b[k + 1..];
  }

  lemma {:induction false} SumOfRemoveAt<T>(b: seq<T>, k: nat, f: T -> nat)
    requires k < |b|
    ensures SumOf(b, f) == SumOf(b[..k] + b[k + 1..], f) + f(b[k])
  {
    var l, x, r := b[..k], b[k], b[k + 1..];
    assert b == (l + [x]) + r;
    SumOfAppend(l + [x], r, f);
    SumOfAppend(l, [x], f);
    SumOfAppend(l, r, f);
    assert [x][..0] == [];
    assert SumOf([x], f) == f(x);
  }

  lemma {:induction false} SumOfPerm<T>(a: seq<T>, b: seq<T>, f: T -> nat)
    requires multiset(a) == multiset(b)
    ensures SumOf(a, f) == SumOf(b, f)
    decreases |a|
  {
    if |a| == 0 {
      assert |multiset(b)| == 0;
    } else {
      var a', x := a[..|a| - 1], a[|a| - 1];
      assert a == a' + [x];
      assert x in multiset(b);
      var k :| 0 <= k < |b| && b[k] == x;
      RemoveAt(b, k);
      assert multiset(a') == multiset(a) - multiset{x};
      SumOfPerm(a', b[..k] + b[k + 1..], f);
      SumOfRemoveAt(b, k, f);
    }
  }

  function Variants(m: MergedStructure): nat {
    m.variants
  }

  lemma {:induction false} SumVariantsIsSumOf(ms: seq<MergedStructure>)
    ensures SumVariants(ms) == SumOf(ms, Variants)
  {
    if |ms| > 0 {
      SumVariantsIsSumOf(ms[..|ms| - 1]);
    }
  }

  /** Reordering a list of nodes keeps its total variant count. */
  lemma SumVariantsPerm(a: seq<MergedStructure>, b: seq<MergedStructure>)
    requires multiset(a) == multiset(b)
    ensures SumVariants(a) == SumVariants(b)
  {
    SumVariantsIsSumOf(a);
    SumVariantsIsSumOf(b);
    SumOfPerm(a, b, Variants);
  }

  /** The variants of the nodes at positions `i..` not yet used. */
  function SumFrom(items: seq<MergedStructure>, i: nat, used: set<nat>): nat
    decreases |items| - i
  {
    if i >= |items| then 0
    else (if i in used then 0 else items[i].variants) + SumFrom(items, i + 1, used)
  }

  lemma {:induction false} SumFromNoneUsed(items: seq<MergedStructure>, i: nat)
    requires i <= |items|
    ensures SumFrom(items, i, {}) == SumVariants(items[i..])
    decreases |items| - i
  {
    if i < |items| {
      SumFromNoneUsed(items, i + 1);
      assert items[i..] == [items[i]] + items[i + 1..];
      SumVariantsAppend([items[i]], items[i + 1..]);
      assert [items[i]][..0] == [];
    }
  }

  /** Positions before `j` do not matter to the sum from `j` on. */
  lemma {:induction false} SumFromBehind(items: seq<MergedStructure>, j: nat, used: set<nat>, x: nat)
    requires x < j
    ensures SumFrom(items, j, used) == SumFrom(items, j, used + {x})
    decreases |items| - j
  {
    if j < |items| {
      assert j in used <==> j in used + {x};
      SumFromBehind(items, j + 1, used, x);
    }
  }

  /** Marking one more position used removes exactly its variants. */
  lemma {:induction false} SumFromMark(items: seq<MergedStructure>, j: nat, used: set<nat>, x: nat)
    requires j <= x < |items| && x !in used
    ensures SumFrom(items, j, used) == items[x].variants + SumFrom(items, j, used + {x})
    decreases |items| - j
  {
    if j < x {
      assert j in used <==> j in used + {x};
      SumFromMark(items, j + 1, used, x);
    } else {
      SumFromBehind(items, x + 1, used, x);
    }
  }

  /** Dropping the last position of a run leaves a run that does not hold it. */
  lemma FreshRunInit(g: seq<nat>, j: nat, n: nat, used: set<nat>)
    requires FreshRun(g, j, n, used) && |g| > 0
    ensures FreshRun(g[..|g| - 1], j, n, used)
    ensures j <= g[|g| - 1] < n && g[|g| - 1] !in used && g[|g| - 1] !in AsSet(g[..|g| - 1])
  {
    var g', x := g[..|g| - 1], g[|g| - 1];
    AsSetMembers(g');
    forall k | 0 <= k < |g'| ensures j <= g'[k] < n && g'[k] !in used && g'[k] != x {
      assert g'[k] == g[k];
    }
  }

  /** Marking a whole scanned group used removes exactly the variants of
      the nodes it picks. */
  lemma {:induction false} SumFromGroup(items: seq<MergedStructure>, g: seq<nat>, j: nat, used: set<nat>)
    requires FreshRun(g, j, |items|, used)
    ensures SumFrom(items, j, used) == SumVariants(Pick(items, g)) + SumFrom(items, j, used + AsSet(g))
    decreases |g|
  {
    if |g| == 0 {
      assert Pick(items, g) == [];
      assert used + AsSet(g) == used;
    } else {
      var g', x := g[..|g| - 1], g[|g| - 1];
      FreshRunInit(g, j, |items|, used);
      SumFromGroup(items, g', j, used);
      SumFromMark(items, j, used + AsSet(g'), x);
      var p := Pick(items, g');
      assert Pick(items, g) == p + [items[x]];
      assert (p + [items[x]])[..|p|] == p;
      assert SumVariants(Pick(items, g)) == SumVariants(p) + items[x].variants;
      assert used + AsSet(g') + {x} == used + AsSet(g);
    }
  }

  /** The outer loop keeps every variant of the nodes it has not used. */
  lemma {:induction false} ProxFromVariants(items: seq<MergedStructure>, i: nat, used: set<nat>,
                                            utility: string, hash: string -> string)
    ensures SumVariants(ProxFrom(items, i, used, utility, hash)) == SumFrom(items, i, used)
    decreases |items| - i
  {
    if i < |items| {
      if i in used {
        ProxFromVariants(items, i + 1, used, utility, hash);
      } else {
        var g := ScanGroup(items, i, i + 1, used);
        var picked := Pick(items, g);
        var group := [items[i]] + picked;
        var node := SeedNode(group, utility, hash);
        var rest := ProxFrom(items, i + 1, used + AsSet(g), utility, hash);
        assert ProxFrom(items, i, used, utility, hash) == [node] + rest;
        SumVariantsAppend([items[i]], picked);
        assert [items[i]][..0] == [];
        assert node.variants == items[i].variants + SumVariants(picked) by {
          if |group| == 1 {
            assert picked == [];
          } else {
            CollapseProvenance(group, utility, hash);
          }
        }
        SumVariantsAppend([node], rest);
        assert [node][..0] == [];
        ProxFromVariants(items, i + 1, used + AsSet(g), utility, hash);
        ScanGroupBounds(items, i, i + 1, used);
        SumFromGroup(items, g, i + 1, used);
      }
    }
  }

  /** The proximity pass neither loses nor invents an observation: the
      variant counts of its output add up to those of its input. */
  lemma ProximityMergeVariants(merged: seq<MergedStructure>, utility: string, hash: string -> string)
    ensures SumVariants(ProximityMerge(merged, utility, hash)) == SumVariants(merged)
  {
    if |merged| > 1 {
      var items := SortBy(merged, ScanKey);
      SortByProperties(merged, ScanKey);
      SumVariantsPerm(items, merged);
      ProxFromVariants(items, 0, {}, utility, hash);
      SumFromNoneUsed(items, 0);
      assert items[0..] == items;
    }
  }

  // ---------------------------------------------------------------------------
  // merge_structures

  /** The node of each exact group, in the order the groups were opened. */
  function ExactNodes(groups: seq<Bucket<StructureKey, Member>>, utility: string, hash: string -> string)
    : (r: seq<MergedStructure>)
    requires forall i :: 0 <= i < |groups| ==> |groups[i].members| > 0
    ensures |r| == |groups|
  {
    if |groups| == 0 then []
    else ExactNodes(groups[..|groups| - 1], utility, hash) + [MergeGroup(groups[|groups| - 1].members, utility, hash)]
  }

  lemma MergeGroupCount(members: seq<Member>, utility: string, hash: string -> string)
    requires |members| > 0
    ensures MergeGroup(members, utility, hash).variants == |members|
  {
  }

  lemma {:induction false} ExactNodesVariants(groups: seq<Bucket<StructureKey, Member>>, utility: string,
                                              hash: string -> string)
    requires forall i :: 0 <= i < |groups| ==> |groups[i].members| > 0
    ensures SumVariants(ExactNodes(groups, utility, hash)) == BucketTotal(groups)
  {
    if |groups| > 0 {
      var init := groups[..|groups| - 1];
      ExactNodesVariants(init, utility, hash);
      MergeGroupCount(groups[|groups| - 1].members, utility, hash);
      var r := ExactNodes(groups, utility, hash);
      assert r[..|r| - 1] == ExactNodes(init, utility, hash);
    }
  }

  /** The order of the final list: page, station with unparsed last, offset
      with unparsed last, node id. */
  function FinalKey(m: MergedStructure): SortKey {
    [KNum(m.page as real),
     if m.parsedStation.Some? then KNum(m.parsedStation.value) else KTop,
     if m.signedOffset.Some? then KNum(m.signedOffset.value) else KTop,
     KStr(m.nodeId)]
  }

  /** `merge_structures`: exact grouping, one node per group, the proximity
      pass, then the final order. */
  function MergeStructures(extractions: seq<TileExtraction>, utility: string, meta: TileMeta,
                           hash: string -> string): seq<MergedStructure>
  {
    var ms := UtilityMembers(extractions, Belongs(utility), meta);
    GroupByRule(ms, MemberKey);
    SortBy(ProximityMerge(ExactNodes(GroupBy(ms, MemberKey), utility, hash), utility, hash), FinalKey)
  }

  /** The merged list is in its final order, and every observation that
      belongs to the utility is counted by exactly one variant. */
  lemma MergeStructuresRule(extractions: seq<TileExtraction>, utility: string, meta: TileMeta,
                            hash: string -> string)
    ensures var r := MergeStructures(extractions, utility, meta, hash);
      SortedBy(r, FinalKey) && SumVariants(r) == |UtilityMembers(extractions, Belongs(utility), meta)|
  {
    var ms := UtilityMembers(extractions, Belongs(utility), meta);
    GroupByRule(ms, MemberKey);
    var groups := GroupBy(ms, MemberKey);
    var exact := ExactNodes(groups, utility, hash);
    var prox := ProximityMerge(exact, utility, hash);
    SortByProperties(prox, FinalKey);
    SumVariantsPerm(SortBy(prox, FinalKey), prox);
    ProximityMergeVariants(exact, utility, hash);
    ExactNodesVariants(groups, utility, hash);
  }

  lemma GroupBySnoc<K, T>(ms: seq<T>, m: T, keyOf: T -> K)
    ensures GroupBy(ms + [m], keyOf) == AddToBuckets(GroupBy(ms, keyOf), m, keyOf)
  {
    assert (ms + [m])[..|ms|] == ms;
  }

  /** The observation a structure contributes to its tile's list, if it
      belongs to the utility. */
  function Admitted(e: TileExtraction, s: Structure, keep: Structure -> bool, sanitized: bool): seq<Member> {
    if keep(s) then [Member(e.tileId, e.page, s, sanitized)] else []
  }

  lemma TileMembersSnoc(e: TileExtraction, k: nat, keep: Structure -> bool, sanitized: bool)
    requires k < |e.structures|
    ensures TileMembers(e, e.structures[..k + 1], keep, sanitized)
         == TileMembers(e, e.structures[..k], keep, sanitized) + Admitted(e, e.structures[k], keep, sanitized)
  {
    assert e.structures[..k + 1][..k] == e.structures[..k];
  }

  /** One pass of the inner loop: skip a structure of another utility, file
      the others under their key. */
  method FileStructure<K(==)>(e: TileExtraction, s: Structure, keep: Structure -> bool, sanitized: bool,
                              keyOf: Member -> K,
                              grouped0: seq<Bucket<K, Member>>, ghost seen0: seq<Member>)
    returns (grouped: seq<Bucket<K, Member>>)
    requires grouped0 == GroupBy(seen0, keyOf)
    ensures grouped == GroupBy(seen0 + Admitted(e, s, keep, sanitized), keyOf)
  {
    if !keep(s) {
      assert seen0 + Admitted(e, s, keep, sanitized) == seen0;
      return grouped0;
    }
    var m := Member(e.tileId, e.page, s, sanitized);
    GroupBySnoc(seen0, m, keyOf);
    grouped := AddToBuckets(grouped0, m, keyOf);
  }

  /** The inner loop of the first loop: one tile's structures, filed under
      `keyOf` (`_structure_key` in `merge_structures`). */
  method TileLoop<K(==)>(e: TileExtraction, keep: Structure -> bool, sanitized: bool, keyOf: Member -> K,
                         grouped0: seq<Bucket<K, Member>>, ghost seen0: seq<Member>)
    returns (grouped: seq<Bucket<K, Member>>)
    requires grouped0 == GroupBy(seen0, keyOf)
    ensures grouped == GroupBy(seen0 + TileMembers(e, e.structures, keep, sanitized), keyOf)
  {
    grouped := grouped0;
    ghost var seen := seen0;
    assert e.structures[..0] == [];
    assert seen0 + TileMembers(e, e.structures[..0], keep, sanitized) == seen0;
    for k := 0 to |e.structures|
      invariant seen == seen0 + TileMembers(e, e.structures[..k], keep, sanitized)
      invariant grouped == GroupBy(seen, keyOf)
    {
      ghost var admitted := Admitted(e, e.structures[k], keep, sanitized);
      grouped := FileStructure(e, e.structures[k], keep, sanitized, keyOf, grouped, seen);
      TileMembersSnoc(e, k, keep, sanitized);
      assert seen + admitted == seen0 + TileMembers(e, e.structures[..k + 1], keep, sanitized);
      seen := seen + admitted;
    }
    assert e.structures[..|e.structures|] == e.structures;
  }

  /** The first loop of `merge_structures`: the observations of each tile
      that belong to the utility, filed under their key. */
  method GroupLoop<K(==)>(extractions: seq<TileExtraction>, keep: Structure -> bool, meta: TileMeta,
                          keyOf: Member -> K)
    returns (grouped: seq<Bucket<K, Member>>)
    ensures grouped == GroupBy(UtilityMembers(extractions, keep, meta), keyOf)
  {
    grouped := [];
    for t := 0 to |extractions|
      invariant grouped == GroupBy(UtilityMembers(extractions[..t], keep, meta), keyOf)
    {
      var e := extractions[t];
      var sanitized := MetaSanitized(meta, e.tileId);
      grouped := TileLoop(e, keep, sanitized, keyOf, grouped, UtilityMembers(extractions[..t], keep, meta));
      assert extractions[..t + 1][..t] == extractions[..t];
      assert extractions[..t + 1][t] == e;
    }
    assert extractions[..|extractions|] == extractions;
  }

  lemma BuildNodeIsMergeGroup(members: seq<Member>, utility: string, hash: string -> string,
                              ids: seq<int>, rims: seq<real>)
    requires |members| > 0
    requires ids == GroupTextIds(Structures(members)) && rims == GroupRims(Structures(members))
    ensures BuildNode(members, utility, hash, ids, rims) == MergeGroup(members, utility, hash)
  {
  }

  lemma ExactNodesSnoc(groups: seq<Bucket<StructureKey, Member>>, b: nat, utility: string, hash: string -> string)
    requires b < |groups| && forall i :: 0 <= i < |groups| ==> |groups[i].members| > 0
    ensures ExactNodes(groups[..b + 1], utility, hash)
         == ExactNodes(groups[..b], utility, hash) + [MergeGroup(groups[b].members, utility, hash)]
  {
    assert groups[..b + 1][..b] == groups[..b];
  }

  /** The second loop of `merge_structures`: one node per exact group. */
  method NodesLoop(grouped: seq<Bucket<StructureKey, Member>>, utility: string, hash: string -> string)
    returns (merged: seq<MergedStructure>)
    requires forall i :: 0 <= i < |grouped| ==> |grouped[i].members| > 0
    ensures merged == ExactNodes(grouped, utility, hash)
  {
    merged := [];
    for b := 0 to |grouped|
      invariant merged == ExactNodes(grouped[..b], utility, hash)
    {
      var members := grouped[b].members;
      var ids, rims := CollectProvenance(Structures(members));
      var node := BuildNode(members, utility, hash, ids, rims);
      BuildNodeIsMergeGroup(members, utility, hash, ids, rims);
      ExactNodesSnoc(grouped, b, utility, hash);
      merged := merged + [node];
    }
    assert grouped[..|grouped|] == grouped;
  }

  /** `merge_structures`, loop by loop. */
  method MergeStructuresLoop(extractions: seq<TileExtraction>, utility: string, meta: TileMeta,
                             hash: string -> string)
    returns (result: seq<MergedStructure>)
    ensures result == MergeStructures(extractions, utility, meta, hash)
  {
    var grouped := GroupLoop(extractions, Belongs(utility), meta, MemberKey);
    GroupByRule(UtilityMembers(extractions, Belongs(utility), meta), MemberKey);
    var merged := NodesLoop(grouped, utility, hash);
    merged := ProximityMergeLoop(merged, utility, hash);
    result := SortBy(merged, FinalKey);
  }
}
