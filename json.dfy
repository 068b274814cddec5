/** Decoded JSON values as the Python code sees them after `json.load`:
    dicts keep their keys in insertion order, and the few Python built-ins
    the code applies to such values (`dict.get`, truthiness, `int()`,
    item assignment) are written out. */
module Json {
  import opened Wrappers
  import opened Strings
  import opened Numeric

  datatype Json =
    | JNull
    | JBool(b: bool)
    | JInt(i: int)
    | JFloat(x: real)
    | JString(s: string)
    | JArray(items: seq<Json>)
    | JObject(fields: seq<(string, Json)>)

  predicate IsString(j: Json) { j.JString? }

  predicate IsList(j: Json) { j.JArray? }

  predicate IsDict(j: Json) { j.JObject? }

  /** The keys of a dict, in insertion order. */
  function Keys(fields: seq<(string, Json)>): (ks: seq<string>)
    ensures |ks| == |fields| && forall k :: 0 <= k < |fields| ==> ks[k] == fields[k].0
  {
    if |fields| == 0 then [] else [fields[0].0] + Keys(fields[1..])
  }

  /** Python dict keys are distinct. */
  predicate UniqueKeys(fields: seq<(string, Json)>) {
    forall i, j :: 0 <= i < j < |fields| ==> fields[i].0 != fields[j].0
  }

  /** `d.get(key)`: the value stored under `key`, or None. */
  function Lookup(fields: seq<(string, Json)>, key: string): (r: Option<Json>)
    ensures r.None? <==> key !in Keys(fields)
  {
    if |fields| == 0 then None
    else if fields[0].0 == key then Some(fields[0].1)
    else
      Lookup(fields[1..], key)
  }

  /** `d.get(key, default)` on a dict value; any other value has no keys. */
  function GetOr(j: Json, key: string, default: Json): Json {
    if j.JObject? then Lookup(j.fields, key).GetOr(default) else default
  }

  /** `d.get(key)` on a dict value, None (JSON null) when absent. */
  function Get(j: Json, key: string): Json {
    GetOr(j, key, JNull)
  }

  /** `d[key] = v`: an existing key keeps its position, a new key goes last. */
  function Assign(fields: seq<(string, Json)>, key: string, v: Json): (r: seq<(string, Json)>)
    ensures |r| == |fields| || |r| == |fields| + 1
  {
    if |fields| == 0 then [(key, v)]
    else if fields[0].0 == key then [(key, v)] + fields[1..]
    else [fields[0]] + Assign(fields[1..], key, v)
  }

  /** After `d[key] = v`, `d.get(key)` is `v` and every other key keeps its
      value. */
  lemma {:induction false} AssignLookup(fields: seq<(string, Json)>, key: string, v: Json, other: string)
    ensures Lookup(Assign(fields, key, v), key) == Some(v)
    ensures other != key ==> Lookup(Assign(fields, key, v), other) == Lookup(fields, other)
  {
    if |fields| > 0 && fields[0].0 != key {
      AssignLookup(fields[1..], key, v, other);
    }
  }

  /** Item assignment keeps the order of the existing keys and appends a new
      key at the end. */
  lemma {:induction false} AssignKeys(fields: seq<(string, Json)>, key: string, v: Json)
    ensures key in Keys(fields) ==> Keys(Assign(fields, key, v)) == Keys(fields)
    ensures key !in Keys(fields) ==> Keys(Assign(fields, key, v)) == Keys(fields) + [key]
  {
    if |fields| > 0 && fields[0].0 != key {
      AssignKeys(fields[1..], key, v);
      assert [fields[0].0] + (Keys(fields[1..]) + [key]) == Keys(fields) + [key];
    }
  }

  /** Python truthiness: None, False, zero, and empty text, lists and dicts
      are false. */
  predicate Truthy(j: Json) {
    match j
    case JNull => false
    case JBool(b) => b
    case JInt(i) => i != 0
    case JFloat(x) => x != 0.0
    case JString(s) => |s| > 0
    case JArray(items) => |items| > 0
    case JObject(fields) => |fields| > 0
  }

  /** `a or b` */
  function Or(a: Json, b: Json): (r: Json)
    ensures Truthy(a) ==> r == a
    ensures !Truthy(a) ==> r == b
  {
    if Truthy(a) then a else b
  }

  /** `int(j)`: None where Python raises TypeError or ValueError. */
  function ToInt(j: Json): (r: Option<int>)
    ensures j.JNull? || j.JArray? || j.JObject? ==> r.None?
    ensures j.JInt? ==> r == Some(j.i)
  {
    match j
    case JNull => None
    case JBool(b) => Some(if b then 1 else 0)
    case JInt(i) => Some(i)
    case JFloat(x) => Some(Truncate(x))
    case JString(s) => ParseIntText(s)
    case JArray(_) => None
    case JObject(_) => None
  }

  /** Item assignment keeps the keys of a dict distinct. */
  lemma AssignKeepsUnique(fields: seq<(string, Json)>, key: string, v: Json)
    requires UniqueKeys(fields)
    ensures UniqueKeys(Assign(fields, key, v))
  {
    var r := Assign(fields, key, v);
    var ks := Keys(r);
    AssignKeys(fields, key, v);
    if key in Keys(fields) {
      assert Keys(r) == Keys(fields);
    } else {
      assert Keys(r) == Keys(fields) + [key];
    }
    forall i, j | 0 <= i < j < |r| ensures r[i].0 != r[j].0 {
      assert ks[i] == r[i].0 && ks[j] == r[j].0;
    }
  }

  /** The present results of `f` over the rows, in row order, where row `k`
      (0-based) is passed its 1-based number `k + 1`: a loop that skips some
      rows and appends one entry for each other row. */
  function Keep<T>(rows: seq<Json>, f: (Json, nat) -> Option<T>): (r: seq<T>)
    ensures |r| <= |rows|
  {
    if |rows| == 0 then []
    else
      Keep(rows[..|rows| - 1], f)
      + match f(rows[|rows| - 1], |rows|)
        case None => []
        case Some(a) => [a]
  }

  lemma KeepStep<T>(rows: seq<Json>, f: (Json, nat) -> Option<T>, i: nat)
    requires i < |rows|
    ensures Keep(rows[..i + 1], f) == Keep(rows[..i], f) + match f(rows[i], i + 1) case None => [] case Some(a) => [a]
  {
    assert rows[..i + 1][..i] == rows[..i];
  }

  /** One entry per row that `f` accepts. */
  lemma {:induction false} KeepCount<T>(rows: seq<Json>, f: (Json, nat) -> Option<T>)
    ensures |Keep(rows, f)| == |set k | 0 <= k < |rows| && f(rows[k], k + 1).Some?|
  {
    if |rows| > 0 {
      var init := rows[..|rows| - 1];
      KeepCount(init, f);
      var before := set k | 0 <= k < |init| && f(init[k], k + 1).Some?;
      var all := set k | 0 <= k < |rows| && f(rows[k], k + 1).Some?;
      assert forall k :: 0 <= k < |init| ==> init[k] == rows[k];
      if f(rows[|rows| - 1], |rows|).Some? {
        assert all == before + {|rows| - 1};
      } else {
        assert all == before;
      }
    }
  }

  /** Every entry kept comes from some row. */
  lemma {:induction false} KeepMembers<T>(rows: seq<Json>, f: (Json, nat) -> Option<T>, a: T)
    requires a in Keep(rows, f)
    ensures exists k :: 0 <= k < |rows| && f(rows[k], k + 1) == Some(a)
  {
    var init := rows[..|rows| - 1];
    if a in Keep(init, f) {
      KeepMembers(init, f, a);
      var k :| 0 <= k < |init| && f(init[k], k + 1) == Some(a);
      assert rows[k] == init[k];
    } else {
      assert f(rows[|rows| - 1], |rows|) == Some(a);
    }
  }

  /** One entry per dict row, for an `f` that accepts exactly the dicts. */
  lemma KeepDicts<T>(rows: seq<Json>, f: (Json, nat) -> Option<T>)
    requires forall r: Json, k: nat :: f(r, k).Some? <==> r.JObject?
    ensures |Keep(rows, f)| == |set k | 0 <= k < |rows| && rows[k].JObject?|
  {
    KeepCount(rows, f);
    assert (set k | 0 <= k < |rows| && f(rows[k], k + 1).Some?) == (set k | 0 <= k < |rows| && rows[k].JObject?);
  }

  /** When `f` accepts every row, one entry per row, in row order. */
  lemma {:induction false} KeepAll<T>(rows: seq<Json>, f: (Json, nat) -> Option<T>)
    requires forall k :: 0 <= k < |rows| ==> f(rows[k], k + 1).Some?
    ensures |Keep(rows, f)| == |rows|
    ensures forall k :: 0 <= k < |rows| ==> Keep(rows, f)[k] == f(rows[k], k + 1).value
  {
    if |rows| > 0 {
      var init := rows[..|rows| - 1];
      assert forall k :: 0 <= k < |init| ==> init[k] == rows[k];
      KeepAll(init, f);
    }
  }
}
