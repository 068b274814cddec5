/** Python's ordering of the values the plan-review code sorts: strings by code
    point, numbers, `float("inf")`, and tuples of these compared element by
    element. `SortBy` is Python's stable `sorted(..., key=...)`. */
module Ordering {
  import opened Wrappers

  /** Python `a < b` on strings. */
  predicate StrLess(a: string, b: string) {
    if |a| == 0 then |b| > 0
    else if |b| == 0 then false
    else if a[0] != b[0] then a[0] < b[0]
    else StrLess(a[1..], b[1..])
  }

  /** One element of a sort key: a number, `float("inf")`, or a string.
      Numbers and infinity are never compared with strings by the code;
      the order between them is only there to make the order total. */
  datatype KeyPart = KNum(n: real) | KTop | KStr(s: string)

  type SortKey = seq<KeyPart>

  predicate PartLess(a: KeyPart, b: KeyPart) {
    match a
    case KNum(x) => (b.KNum? && x < b.n) || !b.KNum?
    case KTop => b.KStr?
    case KStr(x) => b.KStr? && StrLess(x, b.s)
  }

  /** Python's tuple comparison. */
  predicate KeyLess(a: SortKey, b: SortKey) {
    if |a| == 0 then |b| > 0
    else if |b| == 0 then false
    else if a[0] != b[0] then PartLess(a[0], b[0])
    else KeyLess(a[1..], b[1..])
  }

  predicate KeyLe(a: SortKey, b: SortKey) { !KeyLess(b, a) }

  lemma {:induction false} StrLessIrreflexive(a: string)
    ensures !StrLess(a, a)
  {
    if |a| > 0 { StrLessIrreflexive(a[1..]); }
  }

  lemma {:induction false} StrLessTransitive(a: string, b: string, c: string)
    requires StrLess(a, b) && StrLess(b, c)
    ensures StrLess(a, c)
  {
    if |a| > 0 && |b| > 0 && |c| > 0 && a[0] == b[0] && b[0] == c[0] {
      StrLessTransitive(a[1..], b[1..], c[1..]);
    }
  }

  lemma {:induction false} StrLessTotal(a: string, b: string)
    requires a != b
    ensures StrLess(a, b) || StrLess(b, a)
  {
    if |a| > 0 && |b| > 0 && a[0] == b[0] {
      assert a == [a[0]] + a[1..] && b == [b[0]] + b[1..];
      StrLessTotal(a[1..], b[1..]);
    }
  }

  lemma PartLessIrreflexive(a: KeyPart)
    ensures !PartLess(a, a)
  {
    if a.KStr? { StrLessIrreflexive(a.s); }
  }

  lemma PartLessTransitive(a: KeyPart, b: KeyPart, c: KeyPart)
    requires PartLess(a, b) && PartLess(b, c)
    ensures PartLess(a, c)
  {
    if a.KStr? && b.KStr? && c.KStr? { StrLessTransitive(a.s, b.s, c.s); }
  }

  lemma PartLessTotal(a: KeyPart, b: KeyPart)
    requires a != b
    ensures PartLess(a, b) || PartLess(b, a)
  {
    if a.KStr? && b.KStr? { StrLessTotal(a.s, b.s); }
  }

  lemma {:induction false} KeyLessIrreflexive(a: SortKey)
    ensures !KeyLess(a, a)
  {
    if |a| > 0 { KeyLessIrreflexive(a[1..]); }
  }

  lemma {:induction false} KeyLessTransitive(a: SortKey, b: SortKey, c: SortKey)
    requires KeyLess(a, b) && KeyLess(b, c)
    ensures KeyLess(a, c)
  {
    if |a| > 0 && |b| > 0 && |c| > 0 {
      if a[0] == b[0] && b[0] == c[0] {
        KeyLessTransitive(a[1..], b[1..], c[1..]);
      } else if a[0] != b[0] && b[0] != c[0] {
        PartLessTransitive(a[0], b[0], c[0]);
        if a[0] == c[0] { PartLessIrreflexive(a[0]); }
      }
    }
  }

  lemma {:induction false} KeyLessTotal(a: SortKey, b: SortKey)
    requires a != b
    ensures KeyLess(a, b) || KeyLess(b, a)
  {
    if |a| > 0 && |b| > 0 {
      if a[0] == b[0] {
        assert a == [a[0]] + a[1..] && b == [b[0]] + b[1..];
        KeyLessTotal(a[1..], b[1..]);
      } else {
        PartLessTotal(a[0], b[0]);
      }
    }
  }

  /** `a <= b` and `b <= c` give `a <= c`. */
  lemma KeyLeTransitive(a: SortKey, b: SortKey, c: SortKey)
    requires KeyLe(a, b) && KeyLe(b, c)
    ensures KeyLe(a, c)
  {
    if KeyLess(c, a) {
      if a == b { } else if b == c { } else {
        KeyLessTotal(a, b);
        KeyLessTotal(b, c);
        KeyLessTransitive(a, b, c);
        KeyLessTransitive(c, a, b);
        KeyLessIrreflexive(b);
      }
    }
  }

  /** `a < b` gives `not b < a`. */
  lemma KeyLessAsymmetric(a: SortKey, b: SortKey)
    requires KeyLess(a, b)
    ensures !KeyLess(b, a)
  {
    if KeyLess(b, a) {
      KeyLessTransitive(a, b, a);
      KeyLessIrreflexive(a);
    }
  }

  ghost predicate SortedBy<T>(s: seq<T>, key: T -> SortKey) {
    forall i, j :: 0 <= i < j < |s| ==> KeyLe(key(s[i]), key(s[j]))
  }

  ghost predicate StrictlySortedBy<T>(s: seq<T>, key: T -> SortKey) {
    forall i, j :: 0 <= i < j < |s| ==> KeyLess(key(s[i]), key(s[j]))
  }

  /** The elements of `s` whose key is `k`, in their order in `s`. */
  function WithKey<T>(s: seq<T>, key: T -> SortKey, k: SortKey): seq<T> {
    if |s| == 0 then []
    else (if key(s[0]) == k then [s[0]] else []) + WithKey(s[1..], key, k)
  }

  /** Places `x` after every element whose key is not greater than its own. */
  function Insert<T>(x: T, s: seq<T>, key: T -> SortKey): seq<T> {
    if |s| == 0 then [x]
    else if KeyLess(key(x), key(s[0])) then [x] + s
    else [s[0]] + Insert(x, s[1..], key)
  }

  /** Python `sorted(xs, key=key)`: an insertion sort that keeps equal keys in
      their input order. */
  function SortBy<T>(xs: seq<T>, key: T -> SortKey): seq<T> {
    if |xs| == 0 then [] else Insert(xs[|xs| - 1], SortBy(xs[..|xs| - 1], key), key)
  }

  lemma {:induction false} WithKeyAbsent<T>(s: seq<T>, key: T -> SortKey, k: SortKey)
    requires forall i :: 0 <= i < |s| ==> KeyLess(k, key(s[i]))
    ensures WithKey(s, key, k) == []
  {
    if |s| > 0 {
      KeyLessIrreflexive(k);
      WithKeyAbsent(s[1..], key, k);
    }
  }

  lemma {:induction false} InsertMultiset<T>(x: T, s: seq<T>, key: T -> SortKey)
    ensures multiset(Insert(x, s, key)) == multiset(s) + multiset{x}
  {
    if |s| > 0 && !KeyLess(key(x), key(s[0])) {
      InsertMultiset(x, s[1..], key);
      assert s == [s[0]] + s[1..];
    }
  }

  lemma SortedTail<T>(s: seq<T>, key: T -> SortKey)
    requires |s| > 0 && SortedBy(s, key)
    ensures SortedBy(s[1..], key)
    ensures forall j :: 0 <= j < |s| ==> KeyLe(key(s[0]), key(s[j]))
  {
    forall i, j | 0 <= i < j < |s[1..]| ensures KeyLe(key(s[1..][i]), key(s[1..][j])) {
      assert s[1..][i] == s[i + 1] && s[1..][j] == s[j + 1];
    }
    KeyLessIrreflexive(key(s[0]));
  }

  lemma PrependSorted<T>(y: T, t: seq<T>, key: T -> SortKey)
    requires SortedBy(t, key)
    requires forall j :: 0 <= j < |t| ==> KeyLe(key(y), key(t[j]))
    ensures SortedBy([y] + t, key)
  {
    var r := [y] + t;
    forall i, j | 0 <= i < j < |r| ensures KeyLe(key(r[i]), key(r[j])) {
      assert r[j] == t[j - 1];
      if i > 0 { assert r[i] == t[i - 1]; }
    }
  }

  lemma {:induction false} InsertSorted<T>(x: T, s: seq<T>, key: T -> SortKey)
    requires SortedBy(s, key)
    ensures SortedBy(Insert(x, s, key), key)
  {
    if |s| == 0 {
    } else if KeyLess(key(x), key(s[0])) {
      SortedTail(s, key);
      forall j | 0 <= j < |s| ensures KeyLe(key(x), key(s[j])) {
        KeyLessAsymmetric(key(x), key(s[0]));
        KeyLeTransitive(key(x), key(s[0]), key(s[j]));
      }
      PrependSorted(x, s, key);
    } else {
      var rest := Insert(x, s[1..], key);
      SortedTail(s, key);
      InsertSorted(x, s[1..], key);
      InsertMultiset(x, s[1..], key);
      forall j | 0 <= j < |rest| ensures KeyLe(key(s[0]), key(rest[j])) {
        assert rest[j] in multiset(rest);
        assert rest[j] in multiset(s[1..]) + multiset{x};
        if rest[j] in multiset(s[1..]) {
          var m :| 0 <= m < |s[1..]| && s[1..][m] == rest[j];
          assert s[m + 1] == rest[j];
        }
      }
      PrependSorted(s[0], rest, key);
    }
  }

  lemma {:induction false} InsertStable<T>(x: T, s: seq<T>, key: T -> SortKey, k: SortKey)
    requires SortedBy(s, key)
    ensures WithKey(Insert(x, s, key), key, k)
            == WithKey(s, key, k) + (if key(x) == k then [x] else [])
  {
    var r := Insert(x, s, key);
    if |s| == 0 {
    } else if KeyLess(key(x), key(s[0])) {
      SortedTail(s, key);
      forall j | 0 <= j < |s| ensures KeyLess(key(x), key(s[j])) {
        if key(s[0]) != key(s[j]) {
          KeyLessTotal(key(s[0]), key(s[j]));
          KeyLessTransitive(key(x), key(s[0]), key(s[j]));
        }
      }
      if key(x) == k { WithKeyAbsent(s, key, k); }
      assert r[1..] == s;
      assert WithKey(r, key, k) == (if key(x) == k then [x] else []) + WithKey(s, key, k);
    } else {
      SortedTail(s, key);
      InsertStable(x, s[1..], key, k);
      assert r[1..] == Insert(x, s[1..], key);
      assert WithKey(r, key, k) == (if key(s[0]) == k then [s[0]] else []) + WithKey(r[1..], key, k);
    }
  }

  lemma {:induction false} WithKeyAppend<T>(s: seq<T>, x: T, key: T -> SortKey, k: SortKey)
    ensures WithKey(s + [x], key, k) == WithKey(s, key, k) + (if key(x) == k then [x] else [])
  {
    if |s| > 0 {
      assert (s + [x])[1..] == s[1..] + [x];
      WithKeyAppend(s[1..], x, key, k);
    }
  }

  /** `sorted` returns its input ordered by key, as a permutation, and keeps
      the input order among elements whose keys are equal. */
  lemma {:induction false} SortByProperties<T>(xs: seq<T>, key: T -> SortKey)
    ensures SortedBy(SortBy(xs, key), key)
    ensures multiset(SortBy(xs, key)) == multiset(xs)
    ensures forall k :: WithKey(SortBy(xs, key), key, k) == WithKey(xs, key, k)
  {
    if |xs| > 0 {
      var init, x := xs[..|xs| - 1], xs[|xs| - 1];
      SortByProperties(init, key);
      InsertSorted(x, SortBy(init, key), key);
      InsertMultiset(x, SortBy(init, key), key);
      assert xs == init + [x];
      forall k ensures WithKey(SortBy(xs, key), key, k) == WithKey(xs, key, k) {
        InsertStable(x, SortBy(init, key), key, k);
        WithKeyAppend(init, x, key, k);
      }
    }
  }

  lemma SortByLength<T>(xs: seq<T>, key: T -> SortKey)
    ensures |SortBy(xs, key)| == |xs|
  {
    SortByProperties(xs, key);
    assert |multiset(SortBy(xs, key))| == |multiset(xs)|;
  }

  ghost predicate Injective<T(!new)>(key: T -> SortKey) {
    forall a, b :: key(a) == key(b) ==> a == b
  }

  /** Inserts `x` into a strictly ordered sequence unless it is already there. */
  function InsertNew<T(==)>(x: T, s: seq<T>, key: T -> SortKey): seq<T> {
    if |s| == 0 then [x]
    else if x == s[0] then s
    else if KeyLess(key(x), key(s[0])) then [x] + s
    else [s[0]] + InsertNew(x, s[1..], key)
  }

  /** `sorted(set(xs))` for a key that tells elements apart. */
  function SortedSet<T(==)>(xs: seq<T>, key: T -> SortKey): seq<T> {
    if |xs| == 0 then [] else InsertNew(xs[|xs| - 1], SortedSet(xs[..|xs| - 1], key), key)
  }

  lemma {:induction false} InsertNewProperties<T(!new)>(x: T, s: seq<T>, key: T -> SortKey)
    requires Injective(key) && StrictlySortedBy(s, key)
    ensures StrictlySortedBy(InsertNew(x, s, key), key)
    ensures forall y :: y in InsertNew(x, s, key) <==> y in s || y == x
  {
    var r := InsertNew(x, s, key);
    if |s| == 0 || x == s[0] {
    } else if KeyLess(key(x), key(s[0])) {
      forall i, j | 0 <= i < j < |r| ensures KeyLess(key(r[i]), key(r[j])) {
        if i == 0 && j > 1 { KeyLessTransitive(key(x), key(s[0]), key(s[j - 1])); }
      }
    } else {
      assert key(x) != key(s[0]);
      KeyLessTotal(key(x), key(s[0]));
      var rest := InsertNew(x, s[1..], key);
      assert StrictlySortedBy(s[1..], key) by {
        forall i, j | 0 <= i < j < |s[1..]| ensures KeyLess(key(s[1..][i]), key(s[1..][j])) {
          assert s[1..][i] == s[i + 1] && s[1..][j] == s[j + 1];
        }
      }
      InsertNewProperties(x, s[1..], key);
      assert r == [s[0]] + rest;
      forall j | 0 <= j < |rest| ensures KeyLess(key(s[0]), key(rest[j])) {
        assert rest[j] in rest;
        if rest[j] != x {
          var m :| 0 <= m < |s[1..]| && s[1..][m] == rest[j];
          assert s[m + 1] == rest[j];
        }
      }
      forall i, j | 0 <= i < j < |r| ensures KeyLess(key(r[i]), key(r[j])) {
        if i > 0 { assert r[i] == rest[i - 1] && r[j] == rest[j - 1]; }
        else { assert r[j] == rest[j - 1]; }
      }
      assert s == [s[0]] + s[1..];
    }
  }

  /** `sorted(set(xs))` is strictly increasing and has exactly the elements of `xs`. */
  lemma {:induction false} SortedSetProperties<T(!new)>(xs: seq<T>, key: T -> SortKey)
    requires Injective(key)
    ensures StrictlySortedBy(SortedSet(xs, key), key)
    ensures forall y :: y in SortedSet(xs, key) <==> y in xs
  {
    if |xs| > 0 {
      var init := xs[..|xs| - 1];
      SortedSetProperties(init, key);
      InsertNewProperties(xs[|xs| - 1], SortedSet(init, key), key);
      assert xs == init + [xs[|xs| - 1]];
    }
  }

  lemma SingleKeyLess(p: KeyPart, q: KeyPart)
    ensures KeyLess([p], [q]) <==> PartLess(p, q)
  {
    if p == q {
      PartLessIrreflexive(p);
      assert [p][1..] == [];
    }
  }

  function IntKey(i: int): SortKey { [KNum(i as real)] }

  function RealKey(x: real): SortKey { [KNum(x)] }

  function StrKey(s: string): SortKey { [KStr(s)] }

  /** `sorted(set(xs))` on integers. */
  function UniqueInts(xs: seq<int>): (r: seq<int>)
    ensures forall i, j :: 0 <= i < j < |r| ==> r[i] < r[j]
    ensures forall y :: y in r <==> y in xs
  {
    SortedSetProperties(xs, IntKey);
    var r := SortedSet(xs, IntKey);
    assert forall i, j :: 0 <= i < j < |r| ==> KeyLess(IntKey(r[i]), IntKey(r[j]));
    assert forall a, b :: KeyLess(IntKey(a), IntKey(b)) ==> a < b by {
      forall a, b | KeyLess(IntKey(a), IntKey(b)) ensures a < b {
        SingleKeyLess(IntKey(a)[0], IntKey(b)[0]);
      }
    }
    r
  }

  /** `sorted(set(xs))` on reals. */
  function UniqueReals(xs: seq<real>): (r: seq<real>)
    ensures forall i, j :: 0 <= i < j < |r| ==> r[i] < r[j]
    ensures forall y :: y in r <==> y in xs
  {
    SortedSetProperties(xs, RealKey);
    var r := SortedSet(xs, RealKey);
    assert forall i, j :: 0 <= i < j < |r| ==> KeyLess(RealKey(r[i]), RealKey(r[j]));
    assert forall a, b :: KeyLess(RealKey(a), RealKey(b)) ==> a < b by {
      forall a, b | KeyLess(RealKey(a), RealKey(b)) ensures a < b {
        SingleKeyLess(RealKey(a)[0], RealKey(b)[0]);
      }
    }
    r
  }

  /** `sorted(set(xs))` on strings. */
  function UniqueStrings(xs: seq<string>): (r: seq<string>)
    ensures forall i, j :: 0 <= i < j < |r| ==> StrLess(r[i], r[j])
    ensures forall y :: y in r <==> y in xs
  {
    assert Injective(StrKey) by {
      forall a, b | StrKey(a) == StrKey(b) ensures a == b { assert StrKey(a)[0] == StrKey(b)[0]; }
    }
    SortedSetProperties(xs, StrKey);
    var r := SortedSet(xs, StrKey);
    assert forall i, j :: 0 <= i < j < |r| ==> KeyLess(StrKey(r[i]), StrKey(r[j]));
    assert forall a, b :: KeyLess(StrKey(a), StrKey(b)) ==> StrLess(a, b) by {
      forall a, b | KeyLess(StrKey(a), StrKey(b)) ensures StrLess(a, b) {
        SingleKeyLess(StrKey(a)[0], StrKey(b)[0]);
      }
    }
    r
  }

  /** A tuple of integers as a sort key. */
  function Tuple(ns: seq<int>): (k: SortKey)
    ensures |k| == |ns|
  {
    seq(|ns|, i requires 0 <= i < |ns| => KNum(ns[i] as real))
  }

  /** Python `max(xs, key=...)` given the keys of `xs`: the position of the
      first greatest key. */
  function FirstMax(keys: seq<SortKey>): (b: nat)
    requires |keys| > 0
    ensures b < |keys|
  {
    if |keys| == 1 then 0
    else
      var p := FirstMax(keys[..|keys| - 1]);
      if KeyLess(keys[p], keys[|keys| - 1]) then |keys| - 1 else p
  }

  /** No key exceeds the chosen one, and every key before it is smaller. */
  lemma {:induction false} FirstMaxRule(keys: seq<SortKey>)
    requires |keys| > 0
    ensures forall j :: 0 <= j < |keys| ==> KeyLe(keys[j], keys[FirstMax(keys)])
    ensures forall j :: 0 <= j < FirstMax(keys) ==> KeyLess(keys[j], keys[FirstMax(keys)])
  {
    var n := |keys|;
    var b := FirstMax(keys);
    KeyLessIrreflexive(keys[b]);
    if n > 1 {
      var init := keys[..n - 1];
      var p := FirstMax(init);
      FirstMaxRule(init);
      assert forall j :: 0 <= j < n - 1 ==> init[j] == keys[j];
      if KeyLess(keys[p], keys[n - 1]) {
        forall j | 0 <= j < n - 1 ensures KeyLess(keys[j], keys[n - 1]) && KeyLe(keys[j], keys[n - 1]) {
          if keys[j] != keys[p] {
            KeyLessTotal(keys[j], keys[p]);
            KeyLessTransitive(keys[j], keys[p], keys[n - 1]);
          }
          KeyLessAsymmetric(keys[j], keys[n - 1]);
        }
      }
    }
  }

  /** The position of the first greatest key among the positions whose value
      is present. Sorting by key, greatest first and stably, and then taking
      the first present value picks exactly this position. */
  function BestWith<U>(keys: seq<SortKey>, values: seq<Option<U>>): (r: Option<nat>)
    requires |keys| == |values|
    ensures r.Some? ==> r.value < |keys| && values[r.value].Some?
  {
    var n := |keys|;
    if n == 0 then None
    else
      var p := BestWith(keys[..n - 1], values[..n - 1]);
      if values[n - 1].None? then p
      else if p.None? || KeyLess(keys[p.value], keys[n - 1]) then Some(n - 1)
      else p
  }

  /** Nothing is chosen exactly when no value is present; the chosen value has
      a key no present value exceeds, and every earlier present value has a
      smaller key. */
  lemma {:induction false} BestWithRule<U>(keys: seq<SortKey>, values: seq<Option<U>>)
    requires |keys| == |values|
    ensures BestWith(keys, values).None? <==> forall j :: 0 <= j < |values| ==> values[j].None?
    ensures BestWith(keys, values).Some? ==>
      var b := BestWith(keys, values).value;
      (forall j :: 0 <= j < |keys| && values[j].Some? ==> KeyLe(keys[j], keys[b])) &&
      (forall j :: 0 <= j < b && values[j].Some? ==> KeyLess(keys[j], keys[b]))
  {
    var n := |keys|;
    if n > 0 {
      var ik, iv := keys[..n - 1], values[..n - 1];
      var p := BestWith(ik, iv);
      BestWithRule(ik, iv);
      assert forall j :: 0 <= j < n - 1 ==> ik[j] == keys[j] && iv[j] == values[j];
      if values[n - 1].Some? {
        KeyLessIrreflexive(keys[n - 1]);
        if p.Some? {
          KeyLessIrreflexive(keys[p.value]);
          if KeyLess(keys[p.value], keys[n - 1]) {
            forall j | 0 <= j < n - 1 && values[j].Some?
              ensures KeyLess(keys[j], keys[n - 1]) && KeyLe(keys[j], keys[n - 1])
            {
              if keys[j] != keys[p.value] {
                KeyLessTotal(keys[j], keys[p.value]);
                KeyLessTransitive(keys[j], keys[p.value], keys[n - 1]);
              }
              KeyLessAsymmetric(keys[j], keys[n - 1]);
            }
          }
        }
      }
    }
  }

  /** The value at `BestWith`, or None. */
  function PickBest<U>(keys: seq<SortKey>, values: seq<Option<U>>): (r: Option<U>)
    requires |keys| == |values|
  {
    match BestWith(keys, values)
    case None => None
    case Some(b) => values[b]
  }

  /** The position of the first least key among the positions whose value is
      present: a later position replaces the current choice only when its key
      is strictly smaller. Sorting ascending, stably, and taking the first
      present entry picks exactly this position. */
  function LeastWith<U>(keys: seq<SortKey>, values: seq<Option<U>>): (r: Option<nat>)
    requires |keys| == |values|
    ensures r.Some? ==> r.value < |keys| && values[r.value].Some?
  {
    var n := |keys|;
    if n == 0 then None
    else
      var p := LeastWith(keys[..n - 1], values[..n - 1]);
      if values[n - 1].None? then p
      else if p.None? || KeyLess(keys[n - 1], keys[p.value]) then Some(n - 1)
      else p
  }

  /** Nothing is chosen exactly when no value is present; no present value
      has a smaller key than the chosen one, and every earlier present value
      has a greater key. */
  lemma {:induction false} LeastWithRule<U>(keys: seq<SortKey>, values: seq<Option<U>>)
    requires |keys| == |values|
    ensures LeastWith(keys, values).None? <==> forall j :: 0 <= j < |values| ==> values[j].None?
    ensures LeastWith(keys, values).Some? ==>
      var b := LeastWith(keys, values).value;
      (forall j :: 0 <= j < |keys| && values[j].Some? ==> KeyLe(keys[b], keys[j])) &&
      (forall j :: 0 <= j < b && values[j].Some? ==> KeyLess(keys[b], keys[j]))
  {
    var n := |keys|;
    if n > 0 {
      var ik, iv := keys[..n - 1], values[..n - 1];
      var p := LeastWith(ik, iv);
      LeastWithRule(ik, iv);
      assert forall j :: 0 <= j < n - 1 ==> ik[j] == keys[j] && iv[j] == values[j];
      if values[n - 1].Some? {
        KeyLessIrreflexive(keys[n - 1]);
        if p.Some? {
          KeyLessIrreflexive(keys[p.value]);
          if KeyLess(keys[n - 1], keys[p.value]) {
            forall j | 0 <= j < n - 1 && values[j].Some?
              ensures KeyLess(keys[n - 1], keys[j]) && KeyLe(keys[n - 1], keys[j])
            {
              if keys[j] != keys[p.value] {
                KeyLessTotal(keys[j], keys[p.value]);
                KeyLessTransitive(keys[n - 1], keys[p.value], keys[j]);
              }
              KeyLessAsymmetric(keys[n - 1], keys[j]);
            }
          } else {
            if keys[n - 1] != keys[p.value] {
              KeyLessTotal(keys[n - 1], keys[p.value]);
            }
          }
        }
      }
    }
  }

  /** One more position for `LeastWith`: it replaces the choice so far only
      when its value is present and its key is strictly smaller. */
  lemma LeastWithStep<U>(keys: seq<SortKey>, values: seq<Option<U>>, i: nat)
    requires |keys| == |values| && i < |keys|
    ensures var p := LeastWith(keys[..i], values[..i]);
      LeastWith(keys[..i + 1], values[..i + 1]) ==
        if values[i].None? then p
        else if p.None? || KeyLess(keys[i], keys[p.value]) then Some(i)
        else p
  {
    assert keys[..i + 1][..i] == keys[..i] && values[..i + 1][..i] == values[..i];
  }
}
