/** Unicode cleanup of extracted drawing text (src/utils/unicode.py): seven
    symbols common on civil plans are rewritten as ASCII text. */
module Unicode {
  import opened Strings

  /** `UNICODE_REPLACEMENTS`, in its iteration order. */
  function Replacements(): seq<(char, string)> {
    [ ('\U{2205}', "DIA"),  // empty set, drawn as a diameter mark
      ('\U{D8}', "DIA"),    // O with stroke
      ('\U{2300}', "DIA"),  // diameter sign
      ('\U{B0}', "deg"),    // degree
      ('\U{2032}', "'"),    // prime (feet)
      ('\U{2033}', "\""),   // double prime (inches)
      ('\U{B1}', "+/-") ]   // plus-minus
  }

  predicate IsMapped(c: char) {
    exists k :: 0 <= k < |Replacements()| && Replacements()[k].0 == c
  }

  /** The text after applying each `(char, replacement)` in turn. */
  function ReplaceAll(text: string, reps: seq<(char, string)>): string
    decreases |reps|
  {
    if |reps| == 0 then text
    else ReplaceAll(ReplaceChar(text, reps[0].0, reps[0].1), reps[1..])
  }

  /** `clean_unicode(text)` */
  function Clean(text: string): string {
    ReplaceAll(text, Replacements())
  }

  /** `clean_unicode`: rebinds `text` once per table entry. */
  method CleanUnicode(text: string) returns (r: string)
    ensures r == Clean(text)
  {
    var reps := Replacements();
    r := text;
    var i := 0;
    while i < |reps|
      invariant 0 <= i <= |reps|
      invariant ReplaceAll(r, reps[i..]) == Clean(text)
    {
      assert reps[i..][1..] == reps[i + 1..];
      r := ReplaceChar(r, reps[i].0, reps[i].1);
      i := i + 1;
    }
  }

  /** What one character becomes: the reference reading of the table, one
      character at a time. */
  function CleanChar(c: char): string {
    if c == '\U{2205}' || c == '\U{D8}' || c == '\U{2300}' then "DIA"
    else if c == '\U{B0}' then "deg"
    else if c == '\U{2032}' then "'"
    else if c == '\U{2033}' then "\""
    else if c == '\U{B1}' then "+/-"
    else [c]
  }

  function CleanEach(s: string): string {
    if |s| == 0 then "" else CleanChar(s[0]) + CleanEach(s[1..])
  }

  lemma {:induction false} ReplaceCharAppend(a: string, b: string, c: char, rep: string)
    ensures ReplaceChar(a + b, c, rep) == ReplaceChar(a, c, rep) + ReplaceChar(b, c, rep)
  {
    if |a| > 0 {
      assert (a + b)[1..] == a[1..] + b;
      ReplaceCharAppend(a[1..], b, c, rep);
    } else {
      assert a + b == b;
    }
  }

  lemma {:induction false} ReplaceAllAppend(a: string, b: string, reps: seq<(char, string)>)
    ensures ReplaceAll(a + b, reps) == ReplaceAll(a, reps) + ReplaceAll(b, reps)
    decreases |reps|
  {
    if |reps| > 0 {
      ReplaceCharAppend(a, b, reps[0].0, reps[0].1);
      ReplaceAllAppend(ReplaceChar(a, reps[0].0, reps[0].1), ReplaceChar(b, reps[0].0, reps[0].1), reps[1..]);
    }
  }

  /** Text holding none of the table's characters passes every step
      unchanged. */
  lemma {:induction false} ReplaceAllAbsent(s: string, reps: seq<(char, string)>)
    requires forall k :: 0 <= k < |reps| ==> reps[k].0 !in s
    ensures ReplaceAll(s, reps) == s
    decreases |reps|
  {
    if |reps| > 0 {
      ReplaceCharAbsent(s, reps[0].0, reps[0].1);
      ReplaceAllAbsent(s, reps[1..]);
    }
  }

  /** Steps whose character does not occur leave the text alone, so they
      can be skipped. */
  lemma {:induction false} ReplaceAllSkip(s: string, reps: seq<(char, string)>, k: nat)
    requires k <= |reps|
    requires forall j :: 0 <= j < k ==> reps[j].0 !in s
    ensures ReplaceAll(s, reps) == ReplaceAll(s, reps[k..])
  {
    if k > 0 {
      ReplaceCharAbsent(s, reps[0].0, reps[0].1);
      ReplaceAllSkip(s, reps[1..], k - 1);
      assert reps[1..][k - 1..] == reps[k..];
    }
  }

  /** The replacements are ASCII and so hold none of the mapped symbols. */
  lemma ReplacementsAscii()
    ensures forall i, j :: 0 <= i < |Replacements()| && 0 <= j < |Replacements()| ==>
              Replacements()[j].0 !in Replacements()[i].1
  {
  }

  /** A character that first occurs as the key of step `k` becomes that
      step's replacement, which no later step touches. */
  lemma ReplaceAllOne(c: char, reps: seq<(char, string)>, k: nat)
    requires k < |reps| && reps[k].0 == c
    requires forall j :: 0 <= j < k ==> reps[j].0 != c
    requires forall j :: k < j < |reps| ==> reps[j].0 !in reps[k].1
    ensures ReplaceAll([c], reps) == reps[k].1
  {
    ReplaceAllSkip([c], reps, k);
    assert reps[k..][1..] == reps[k + 1..];
    assert ReplaceChar([c], c, reps[k].1) == reps[k].1;
    ReplaceAllAbsent(reps[k].1, reps[k + 1..]);
  }

  /** The reference image of each key is its replacement. */
  lemma CleanCharOfKey(k: nat)
    requires k < |Replacements()|
    ensures CleanChar(Replacements()[k].0) == Replacements()[k].1
    ensures forall j :: 0 <= j < k ==> Replacements()[j].0 != Replacements()[k].0
  {
  }

  lemma CleanCharOfOther(c: char)
    requires !IsMapped(c)
    ensures CleanChar(c) == [c]
  {
    var reps := Replacements();
    assert reps[0].0 != c && reps[1].0 != c && reps[2].0 != c && reps[3].0 != c;
    assert reps[4].0 != c && reps[5].0 != c && reps[6].0 != c;
  }

  /** One character through the whole table is exactly its reference
      image. */
  lemma CleanOneChar(c: char)
    ensures Clean([c]) == CleanChar(c)
  {
    var reps := Replacements();
    if IsMapped(c) {
      var k :| 0 <= k < |reps| && reps[k].0 == c;
      CleanCharOfKey(k);
      ReplacementsAscii();
      ReplaceAllOne(c, reps, k);
    } else {
      CleanCharOfOther(c);
      ReplaceAllAbsent([c], reps);
    }
  }

  /** `clean_unicode` replaces every mapped symbol by its ASCII text and
      leaves every other character as it is. */
  lemma {:induction false} CleanIsCharwise(s: string)
    ensures Clean(s) == CleanEach(s)
  {
    if |s| == 0 {
      ReplaceAllAbsent(s, Replacements());
    } else {
      assert s == [s[0]] + s[1..];
      ReplaceAllAppend([s[0]], s[1..], Replacements());
      CleanOneChar(s[0]);
      CleanIsCharwise(s[1..]);
    }
  }

  lemma {:induction false} CleanEachUnmapped(s: string, c: char)
    requires IsMapped(c)
    ensures c !in CleanEach(s)
  {
    if |s| > 0 {
      CleanEachUnmapped(s[1..], c);
      var k :| 0 <= k < |Replacements()| && Replacements()[k].0 == c;
      assert c !in CleanChar(s[0]);
    }
  }

  /** No mapped symbol survives cleaning. */
  lemma CleanRemovesMapped(s: string, c: char)
    requires IsMapped(c)
    ensures c !in Clean(s)
  {
    CleanIsCharwise(s);
    CleanEachUnmapped(s, c);
  }

  /** Text without any mapped symbol is returned unchanged. */
  lemma CleanIdentity(s: string)
    requires forall i :: 0 <= i < |s| ==> !IsMapped(s[i])
    ensures Clean(s) == s
  {
    var reps := Replacements();
    forall k | 0 <= k < |reps| ensures reps[k].0 !in s {
      forall i | 0 <= i < |s| ensures s[i] != reps[k].0 {
        assert !IsMapped(s[i]);
      }
    }
    ReplaceAllAbsent(s, reps);
  }

  /** Cleaning twice is cleaning once. */
  lemma CleanIdempotent(s: string)
    ensures Clean(Clean(s)) == Clean(s)
  {
    var t := Clean(s);
    forall i | 0 <= i < |t| ensures !IsMapped(t[i]) {
      if IsMapped(t[i]) { CleanRemovesMapped(s, t[i]); }
    }
    CleanIdentity(t);
  }
}
