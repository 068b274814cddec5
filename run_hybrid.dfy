/** The deterministic parts of one hybrid extraction call: picking the JSON
    object out of a model reply, flattening a chat message's content, and
    sanitizing the decoded extraction payload before schema validation. The
    request to the model service, its retries and the cache are not
    modelled. */
module RunHybrid {
  import opened Wrappers
  import opened Strings
  import opened Json

  // ---------------------------------------------------------------------
  // _extract_json_candidate
  // ---------------------------------------------------------------------

  /** Text that starts with "{" and ends with "}". */
  predicate IsBraced(s: string) {
    |s| > 0 && s[0] == '{' && s[|s| - 1] == '}'
  }

  /** A code fence "```" starts at position `j`. */
  predicate FenceAt(t: string, j: nat) {
    j + 3 <= |t| && t[j..j + 3] == "```"
  }

  /** A "}" at `k` that blanks and a closing fence follow. */
  predicate ClosesAt(t: string, k: nat)
    requires k < |t|
  {
    t[k] == '}' && FenceAt(t, k + 1 + SpacesFrom(t, k + 1))
  }

  /** The last closing position in `[lo, hi)`: the greedy `[\s\S]*` backs off
      from the end of the text until a "}" with a closing fence after it. */
  function LastClose(t: string, lo: nat, hi: nat): (r: Option<nat>)
    requires lo <= hi <= |t|
    ensures r.Some? ==> lo <= r.value < hi && ClosesAt(t, r.value)
    decreases hi - lo
  {
    if hi == lo then None
    else if ClosesAt(t, hi - 1) then Some(hi - 1)
    else LastClose(t, lo, hi - 1)
  }

  /** `(?:json)?` in any letter case at position `q`. */
  predicate JsonTagAt(t: string, q: nat) {
    q + 4 <= |t| && Lower(t[q..q + 4]) == "json"
  }

  /** The fenced pattern ```` ```(?:json)?\s*(\{[\s\S]*\})\s*``` ```` matched at
      `p`, as the stripped group. The optional tag and the blanks admit one
      split only: any other leaves a letter or a blank where "{" must be. */
  function FencedAt(t: string, p: nat): (r: Option<string>)
    ensures r.Some? ==> IsBraced(r.value) && |r.value| >= 2
  {
    if !FenceAt(t, p) then None
    else
      var q := p + 3 + (if JsonTagAt(t, p + 3) then 4 else 0);
      var b := q + SpacesFrom(t, q);
      if b < |t| && t[b] == '{' then
        match LastClose(t, b + 1, |t|)
        case None => None
        case Some(k) =>
          var group := t[b..k + 1];
          StripNoEdgeSpace(group);
          Some(Strip(group))
      else None
  }

  /** `re.search` for the fenced pattern: the match at the first position
      that has one. */
  function SearchFence(t: string, p: nat): (r: Option<string>)
    requires p <= |t|
    ensures r.Some? ==> IsBraced(r.value)
    decreases |t| - p
  {
    match FencedAt(t, p)
    case Some(c) => Some(c)
    case None => if p == |t| then None else SearchFence(t, p + 1)
  }

  /** The JSON object text in a model reply: the whole stripped reply when it
      is braced, else the first fenced object, else the span from the first
      "{" to the last "}", else an error. */
  function ExtractJsonCandidate(text: string): (r: Result<string>)
    ensures r.Ok? ==> IsBraced(r.value)
  {
    var stripped := Strip(text);
    if IsBraced(stripped) then Ok(stripped)
    else
      match SearchFence(text, 0)
      case Some(c) => Ok(c)
      case None =>
        match (FindChar(stripped, '{'), RFindChar(stripped, '}'))
        case (Some(first), Some(last)) =>
          if last > first then Ok(stripped[first..last + 1])
          else Err("No JSON object found in model output.")
        case _ => Err("No JSON object found in model output.")
  }

  /** A reply that is already a braced object, up to surrounding blanks, is
      returned stripped, whatever fences it contains. */
  lemma ExtractBraced(text: string)
    requires IsBraced(Strip(text))
    ensures ExtractJsonCandidate(text) == Ok(Strip(text))
  {
  }

  /** Extraction is idempotent: its output is its own candidate. */
  lemma ExtractIdempotent(text: string)
    requires ExtractJsonCandidate(text).Ok?
    ensures ExtractJsonCandidate(ExtractJsonCandidate(text).value) == ExtractJsonCandidate(text)
  {
    var c := ExtractJsonCandidate(text).value;
    StripNoEdgeSpace(c);
  }

  /** Without a fenced object, the reply is rejected exactly when no "{"
      precedes a "}" in it. */
  lemma ExtractErrorRule(text: string)
    requires !IsBraced(Strip(text)) && SearchFence(text, 0).None?
    ensures var s := Strip(text);
      ExtractJsonCandidate(text).Err? <==>
        forall i, j :: 0 <= i < j < |s| && s[i] == '{' ==> s[j] != '}'
  {
    var s := Strip(text);
    var first := FindChar(s, '{');
    var last := RFindChar(s, '}');
    if exists i, j :: 0 <= i < j < |s| && s[i] == '{' && s[j] == '}' {
      var i, j :| 0 <= i < j < |s| && s[i] == '{' && s[j] == '}';
      assert s[i] in s && s[j] in s;
      forall k | 0 <= k < first.value ensures s[k] != '{' {
        assert s[..first.value][k] == s[k];
      }
      forall k | last.value < k < |s| ensures s[k] != '}' {
        assert s[last.value + 1..][k - last.value - 1] == s[k];
      }
    }
  }

  // ---------------------------------------------------------------------
  // _flatten_message_content
  // ---------------------------------------------------------------------

  /** The text one list item contributes: a string, or a dict's "text"
      string. */
  function ChunkOf(item: Json, k: nat): Option<string> {
    if item.JString? then Some(item.s)
    else if item.JObject? && Get(item, "text").JString? then Some(Get(item, "text").s)
    else None
  }

  /** A message content as one text: a string unchanged; a list as its
      chunks joined by newlines and stripped; anything else as `str(x)`,
      which `repr` stands for. */
  function Flatten(content: Json, repr: Json -> string): string {
    match content
    case JString(s) => s
    case JArray(items) => Strip(Join(Keep(items, ChunkOf), "\n"))
    case _ => repr(content)
  }

  method FlattenMessageContent(content: Json, repr: Json -> string) returns (text: string)
    ensures text == Flatten(content, repr)
  {
    if content.JString? {
      return content.s;
    }
    if content.JArray? {
      var items := content.items;
      var chunks: seq<string> := [];
      for i := 0 to |items|
        invariant chunks == Keep(items[..i], ChunkOf)
      {
        KeepStep(items, ChunkOf, i);
        var item := items[i];
        if item.JString? {
          chunks := chunks + [item.s];
        } else if item.JObject? {
          var t := Get(item, "text");
          if t.JString? {
            chunks := chunks + [t.s];
          }
        }
      }
      assert items[..|items|] == items;
      return Strip(Join(chunks, "\n"));
    }
    return repr(content);
  }

  /** A list of plain strings flattens to their newline join, stripped; the
      flattened text of any list has no blanks at either end. */
  lemma FlattenList(items: seq<Json>, repr: Json -> string)
    ensures var t := Flatten(JArray(items), repr); |t| == 0 || (!IsSpace(t[0]) && !IsSpace(t[|t| - 1]))
    ensures (forall k :: 0 <= k < |items| ==> items[k].JString?) ==>
      Flatten(JArray(items), repr) == Strip(Join(seq(|items|, k requires 0 <= k < |items| => items[k].s), "\n"))
  {
    StripEdges(Join(Keep(items, ChunkOf), "\n"));
    if forall k :: 0 <= k < |items| ==> items[k].JString? {
      KeepAll(items, ChunkOf);
      assert Keep(items, ChunkOf) == seq(|items|, k requires 0 <= k < |items| => items[k].s);
    }
  }

  // ---------------------------------------------------------------------
  // _non_empty_str and _sanitize_source_text_ids
  // ---------------------------------------------------------------------

  /** A string with something other than whitespace in it. */
  predicate NonEmptyStr(v: Json) {
    v.JString? && |Strip(v.s)| > 0
  }

  function IntOf(item: Json, k: nat): Option<int> {
    ToInt(item)
  }

  /** The `int()` of every convertible item of a list, in order; nothing for
      anything that is not a list. */
  function SourceTextIds(value: Json): seq<int> {
    if value.JArray? then Keep(value.items, IntOf) else []
  }

  method SanitizeSourceTextIds(value: Json) returns (cleaned: seq<int>)
    ensures cleaned == SourceTextIds(value)
  {
    if !value.JArray? {
      return [];
    }
    var items := value.items;
    cleaned := [];
    for i := 0 to |items|
      invariant cleaned == Keep(items[..i], IntOf)
    {
      KeepStep(items, IntOf, i);
      var n := ToInt(items[i]);
      if n.Some? {
        cleaned := cleaned + [n.value];
      }
    }
    assert items[..|items|] == items;
  }

  lemma SourceTextIdsCount(items: seq<Json>)
    ensures |Keep(items, IntOf)| == |set k | 0 <= k < |items| && ToInt(items[k]).Some?|
  {
    var f: (Json, nat) -> Option<int> := IntOf;
    KeepCount(items, f);
    var accepted := set k | 0 <= k < |items| && f(items[k], k + 1).Some?;
    var convertible := set k | 0 <= k < |items| && ToInt(items[k]).Some?;
    forall k | 0 <= k < |items| ensures k in accepted <==> k in convertible {
      assert f(items[k], k + 1) == ToInt(items[k]);
    }
    assert accepted == convertible;
  }

  /** One id per convertible item; a list of integers is kept as it is; and
      every id is the `int()` of some item. */
  lemma SourceTextIdsRule(items: seq<Json>)
    ensures |SourceTextIds(JArray(items))| == |set k | 0 <= k < |items| && ToInt(items[k]).Some?|
    ensures (forall k :: 0 <= k < |items| ==> items[k].JInt?) ==>
      SourceTextIds(JArray(items)) == seq(|items|, k requires 0 <= k < |items| => items[k].i)
    ensures forall n :: n in SourceTextIds(JArray(items)) ==> exists k :: 0 <= k < |items| && ToInt(items[k]) == Some(n)
  {
    SourceTextIdsCount(items);
    if forall k :: 0 <= k < |items| ==> items[k].JInt? {
      KeepAll(items, IntOf);
    }
    forall n | n in SourceTextIds(JArray(items))
      ensures exists k :: 0 <= k < |items| && ToInt(items[k]) == Some(n)
    {
      KeepMembers(items, IntOf, n);
    }
  }

  // ---------------------------------------------------------------------
  // _sanitize_extraction_payload
  // ---------------------------------------------------------------------

  /** The items of a list value; a non-list is skipped with nothing dropped. */
  function ListItems(v: Json): seq<Json> {
    if v.JArray? then v.items else []
  }

  function IdsJson(ids: seq<int>): (j: Json)
    ensures j.JArray? && |j.items| == |ids|
    ensures forall k :: 0 <= k < |ids| ==> j.items[k] == JInt(ids[k])
  {
    JArray(seq(|ids|, k requires 0 <= k < |ids| => JInt(ids[k])))
  }

  /** `clean = dict(item); clean["source_text_ids"] = ...` */
  function WithCleanIds(fields: seq<(string, Json)>): seq<(string, Json)> {
    Assign(fields, "source_text_ids", IdsJson(SourceTextIds(Lookup(fields, "source_text_ids").GetOr(JNull))))
  }

  predicate KeepInvert(inv: Json) {
    inv.JObject? && NonEmptyStr(Get(inv, "direction")) && NonEmptyStr(Get(inv, "pipe_size"))
    && !Get(inv, "elevation").JNull?
  }

  function CleanInvert(inv: Json, k: nat): Option<Json> {
    if KeepInvert(inv) then Some(JObject(WithCleanIds(inv.fields))) else None
  }

  function InvertsOf(s: Json): seq<Json> {
    ListItems(GetOr(s, "inverts", JArray([])))
  }

  predicate KeepStructure(s: Json) {
    s.JObject? && NonEmptyStr(Get(s, "structure_type")) && NonEmptyStr(Get(s, "station"))
    && NonEmptyStr(Get(s, "offset"))
  }

  /** A kept structure with only its kept inverts and cleaned ids. */
  function CleanStructure(s: Json, k: nat): Option<Json> {
    if KeepStructure(s) then
      Some(JObject(WithCleanIds(Assign(s.fields, "inverts", JArray(Keep(InvertsOf(s), CleanInvert))))))
    else None
  }

  predicate KeepPipe(p: Json) {
    p.JObject? && NonEmptyStr(Get(p, "pipe_type")) && NonEmptyStr(Get(p, "size"))
  }

  function CleanPipe(p: Json, k: nat): Option<Json> {
    if KeepPipe(p) then Some(JObject(WithCleanIds(p.fields))) else None
  }

  predicate KeepCallout(c: Json) {
    c.JObject? && NonEmptyStr(Get(c, "callout_type")) && NonEmptyStr(Get(c, "text"))
  }

  function CleanCallout(c: Json, k: nat): Option<Json> {
    if KeepCallout(c) then Some(JObject(WithCleanIds(c.fields))) else None
  }

  /** The inverts rejected inside the kept structures. */
  function InvertDrops(structures: seq<Json>): nat {
    if |structures| == 0 then 0
    else
      var s := structures[|structures| - 1];
      InvertDrops(structures[..|structures| - 1])
      + (if KeepStructure(s) then |InvertsOf(s)| - |Keep(InvertsOf(s), CleanInvert)| else 0)
  }

  /** The `dropped` counter dict. */
  datatype Dropped = Dropped(structures: nat, inverts: nat, pipes: nat, callouts: nat)

  function Section(payload: seq<(string, Json)>, key: string): seq<Json> {
    ListItems(Lookup(payload, key).GetOr(JArray([])))
  }

  function KeptStructures(payload: seq<(string, Json)>): seq<Json> {
    Keep(Section(payload, "structures"), CleanStructure)
  }

  function KeptPipes(payload: seq<(string, Json)>): seq<Json> {
    Keep(Section(payload, "pipes"), CleanPipe)
  }

  function KeptCallouts(payload: seq<(string, Json)>): seq<Json> {
    Keep(Section(payload, "callouts"), CleanCallout)
  }

  /** The sanitized payload: a copy of the input whose three sections hold
      only their kept entries. */
  function Sanitized(payload: seq<(string, Json)>): seq<(string, Json)> {
    Assign(Assign(Assign(payload, "structures", JArray(KeptStructures(payload))),
      "pipes", JArray(KeptPipes(payload))), "callouts", JArray(KeptCallouts(payload)))
  }

  function DroppedCounts(payload: seq<(string, Json)>): Dropped {
    Dropped(|Section(payload, "structures")| - |KeptStructures(payload)|,
      InvertDrops(Section(payload, "structures")),
      |Section(payload, "pipes")| - |KeptPipes(payload)|,
      |Section(payload, "callouts")| - |KeptCallouts(payload)|)
  }

  /** One filtering loop: every entry is either appended, cleaned, or counted
      as dropped. */
  method SanitizeList(raw: Json, clean: (Json, nat) -> Option<Json>) returns (good: seq<Json>, dropped: nat)
    ensures good == Keep(ListItems(raw), clean)
    ensures |good| + dropped == |ListItems(raw)|
  {
    var items := ListItems(raw);
    good := [];
    dropped := 0;
    for i := 0 to |items|
      invariant good == Keep(items[..i], clean)
      invariant |good| + dropped == i
    {
      KeepStep(items, clean, i);
      var c := clean(items[i], i + 1);
      if c.None? {
        dropped := dropped + 1;
      } else {
        good := good + [c.value];
      }
    }
    assert items[..|items|] == items;
  }

  /** The structure loop, which also counts the inverts it drops. */
  method SanitizeStructures(raw: Json) returns (good: seq<Json>, droppedStructures: nat, droppedInverts: nat)
    ensures good == Keep(ListItems(raw), CleanStructure)
    ensures |good| + droppedStructures == |ListItems(raw)|
    ensures droppedInverts == InvertDrops(ListItems(raw))
  {
    var items := ListItems(raw);
    good := [];
    droppedStructures := 0;
    droppedInverts := 0;
    for i := 0 to |items|
      invariant good == Keep(items[..i], CleanStructure)
      invariant |good| + droppedStructures == i
      invariant droppedInverts == InvertDrops(items[..i])
    {
      KeepStep(items, CleanStructure, i);
      InvertDropsStep(items, i);
      var structure := items[i];
      if !KeepStructure(structure) {
        droppedStructures := droppedStructures + 1;
      } else {
        var clean, d := SanitizeStructure(structure, i + 1);
        droppedInverts := droppedInverts + d;
        good := good + [clean];
      }
    }
    assert items[..|items|] == items;
  }

  lemma InvertDropsStep(items: seq<Json>, i: nat)
    requires i < |items|
    ensures InvertDrops(items[..i + 1]) == InvertDrops(items[..i])
      + (if KeepStructure(items[i]) then |InvertsOf(items[i])| - |Keep(InvertsOf(items[i]), CleanInvert)| else 0)
  {
    assert items[..i + 1][..i] == items[..i];
  }

  /** The body of the structure loop for a structure that passes its field
      checks: its inverts filtered, then its ids cleaned. */
  method SanitizeStructure(structure: Json, ghost k: nat) returns (clean: Json, dropped: nat)
    requires KeepStructure(structure)
    ensures CleanStructure(structure, k) == Some(clean)
    ensures dropped == |InvertsOf(structure)| - |Keep(InvertsOf(structure), CleanInvert)|
  {
    var inverts, d := SanitizeList(GetOr(structure, "inverts", JArray([])), CleanInvert);
    dropped := d;
    var withInverts := Assign(structure.fields, "inverts", JArray(inverts));
    var ids := SanitizeSourceTextIds(Lookup(withInverts, "source_text_ids").GetOr(JNull));
    clean := JObject(Assign(withInverts, "source_text_ids", IdsJson(ids)));
  }

  method SanitizeExtractionPayload(payload: seq<(string, Json)>) returns (sanitized: seq<(string, Json)>, dropped: Dropped)
    ensures sanitized == Sanitized(payload)
    ensures dropped == DroppedCounts(payload)
  {
    var structures, ds, di := SanitizeStructures(Lookup(payload, "structures").GetOr(JArray([])));
    var pipes, dp := SanitizeList(Lookup(payload, "pipes").GetOr(JArray([])), CleanPipe);
    var callouts, dc := SanitizeList(Lookup(payload, "callouts").GetOr(JArray([])), CleanCallout);
    sanitized := Assign(payload, "structures", JArray(structures));
    sanitized := Assign(sanitized, "pipes", JArray(pipes));
    sanitized := Assign(sanitized, "callouts", JArray(callouts));
    dropped := Dropped(ds, di, dp, dc);
  }

  /** Every key other than the three sections is copied unchanged, and each
      section holds exactly its kept entries. */
  lemma SanitizedKeys(payload: seq<(string, Json)>, key: string)
    ensures key != "structures" && key != "pipes" && key != "callouts" ==>
      Lookup(Sanitized(payload), key) == Lookup(payload, key)
    ensures Lookup(Sanitized(payload), "structures") == Some(JArray(KeptStructures(payload)))
    ensures Lookup(Sanitized(payload), "pipes") == Some(JArray(KeptPipes(payload)))
    ensures Lookup(Sanitized(payload), "callouts") == Some(JArray(KeptCallouts(payload)))
  {
    var s1 := Assign(payload, "structures", JArray(KeptStructures(payload)));
    var s2 := Assign(s1, "pipes", JArray(KeptPipes(payload)));
    AssignLookup(payload, "structures", JArray(KeptStructures(payload)), key);
    AssignLookup(s1, "pipes", JArray(KeptPipes(payload)), key);
    AssignLookup(s2, "callouts", JArray(KeptCallouts(payload)), key);
    AssignLookup(s1, "pipes", JArray(KeptPipes(payload)), "structures");
    AssignLookup(s2, "callouts", JArray(KeptCallouts(payload)), "structures");
    AssignLookup(s2, "callouts", JArray(KeptCallouts(payload)), "pipes");
  }

  /** Cleaning a dict replaces only its "source_text_ids", with a list of
      integers. */
  lemma WithCleanIdsKeys(fields: seq<(string, Json)>, key: string)
    ensures key != "source_text_ids" ==> Lookup(WithCleanIds(fields), key) == Lookup(fields, key)
    ensures var ids := Lookup(WithCleanIds(fields), "source_text_ids");
      ids.Some? && ids.value.JArray? && forall k :: 0 <= k < |ids.value.items| ==> ids.value.items[k].JInt?
  {
    AssignLookup(fields, "source_text_ids", IdsJson(SourceTextIds(Lookup(fields, "source_text_ids").GetOr(JNull))), key);
  }

  /** A kept structure keeps its type, station and offset, and its inverts
      are exactly its kept inverts. */
  lemma CleanStructureKeys(s: Json, k: nat, key: string)
    requires CleanStructure(s, k).Some?
    ensures var c := CleanStructure(s, k).value;
      c.JObject? && KeepStructure(s) && (key != "inverts" && key != "source_text_ids" ==> Lookup(c.fields, key) == Lookup(s.fields, key))
    ensures Lookup(CleanStructure(s, k).value.fields, "inverts") == Some(JArray(Keep(InvertsOf(s), CleanInvert)))
  {
    var inner := Assign(s.fields, "inverts", JArray(Keep(InvertsOf(s), CleanInvert)));
    AssignLookup(s.fields, "inverts", JArray(Keep(InvertsOf(s), CleanInvert)), key);
    WithCleanIdsKeys(inner, key);
    WithCleanIdsKeys(inner, "inverts");
  }

  /** Every section entry kept is the cleaned copy of a section entry that
      passes its field checks; the count of kept entries is the count of
      passing ones. */
  lemma KeptEntriesRule(payload: seq<(string, Json)>)
    ensures forall p :: p in KeptPipes(payload) ==> exists k :: (0 <= k < |Section(payload, "pipes")|
      && KeepPipe(Section(payload, "pipes")[k]) && p == JObject(WithCleanIds(Section(payload, "pipes")[k].fields)))
    ensures forall c :: c in KeptCallouts(payload) ==> exists k :: (0 <= k < |Section(payload, "callouts")|
      && KeepCallout(Section(payload, "callouts")[k]) && c == JObject(WithCleanIds(Section(payload, "callouts")[k].fields)))
    ensures forall s :: s in KeptStructures(payload) ==> exists k :: (0 <= k < |Section(payload, "structures")|
      && KeepStructure(Section(payload, "structures")[k]) && Some(s) == CleanStructure(Section(payload, "structures")[k], k + 1))
  {
    forall p | p in KeptPipes(payload) ensures exists k :: (0 <= k < |Section(payload, "pipes")|
      && KeepPipe(Section(payload, "pipes")[k]) && p == JObject(WithCleanIds(Section(payload, "pipes")[k].fields)))
    {
      KeepMembers(Section(payload, "pipes"), CleanPipe, p);
    }
    forall c | c in KeptCallouts(payload) ensures exists k :: (0 <= k < |Section(payload, "callouts")|
      && KeepCallout(Section(payload, "callouts")[k]) && c == JObject(WithCleanIds(Section(payload, "callouts")[k].fields)))
    {
      KeepMembers(Section(payload, "callouts"), CleanCallout, c);
    }
    forall s | s in KeptStructures(payload) ensures exists k :: (0 <= k < |Section(payload, "structures")|
      && KeepStructure(Section(payload, "structures")[k]) && Some(s) == CleanStructure(Section(payload, "structures")[k], k + 1))
    {
      KeepMembers(Section(payload, "structures"), CleanStructure, s);
    }
  }
}
