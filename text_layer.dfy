/** Text-coherence scoring of a tile's PDF text layer
    (src/intake/text_layer.py): how many spans carry more than one character,
    how many of those hold a digit, and the most used font. */
module TextLayer {
  import opened Strings
  import Unicode

  /** `COHERENCE_THRESHOLD` */
  const CoherenceThreshold: real := 0.40

  /** A text span: its `text` and `font` entries (missing entries read as ""). */
  datatype Span = Span(text: string, font: string)

  /** A span as the counters see it: its text after `clean_unicode` and
      `strip`, and its stripped font name. */
  datatype Reading = Reading(text: string, font: string)

  function Read(sp: Span): Reading {
    Reading(Strip(Unicode.Clean(sp.text)), Strip(sp.font))
  }

  function Readings(spans: seq<Span>): (rs: seq<Reading>)
    ensures |rs| == |spans|
  {
    ReadAll(spans, Read)
  }

  function ReadAll(spans: seq<Span>, read: Span -> Reading): (rs: seq<Reading>)
    ensures |rs| == |spans|
  {
    if |spans| == 0 then [] else ReadAll(spans[..|spans| - 1], read) + [read(spans[|spans| - 1])]
  }

  /** A span whose cleaned text is blank is skipped entirely. */
  predicate Counted(r: Reading) { |r.text| > 0 }

  predicate IsMulti(r: Reading) { |r.text| > 1 }

  predicate IsNumeric(r: Reading) {
    |r.text| > 1 && HasDigit(r.text)
  }

  /** `any(ch.isdigit() for ch in s)` */
  predicate HasDigit(s: string) {
    |s| > 0 && (IsDigit(s[0]) || HasDigit(s[1..]))
  }

  /** A span that adds one to the counter of font `f`. */
  predicate HasFont(r: Reading, f: string) {
    Counted(r) && r.font != "" && r.font == f
  }

  /** The number of readings satisfying `p`. */
  function Count(rs: seq<Reading>, p: Reading -> bool): nat {
    if |rs| == 0 then 0
    else Count(rs[..|rs| - 1], p) + (if p(rs[|rs| - 1]) then 1 else 0)
  }

  function TotalSpans(rs: seq<Reading>): nat { Count(rs, Counted) }
  function MultiCharSpans(rs: seq<Reading>): nat { Count(rs, IsMulti) }
  function NumericSpans(rs: seq<Reading>): nat { Count(rs, IsNumeric) }
  function FontHits(rs: seq<Reading>, f: string): nat { Count(rs, r => HasFont(r, f)) }

  /** The distinct fonts of the counted spans, in the order first seen: the
      key order of the font `Counter`. */
  function FontsSeen(rs: seq<Reading>): seq<string> {
    if |rs| == 0 then []
    else
      var seen := FontsSeen(rs[..|rs| - 1]);
      var r := rs[|rs| - 1];
      if Counted(r) && r.font != "" && r.font !in seen then seen + [r.font] else seen
  }

  /** The position of the first key with the largest count (what
      `Counter.most_common(1)` picks). */
  function FirstMaxIndex(keys: seq<string>, counts: map<string, nat>): (i: nat)
    requires |keys| > 0 && forall k :: 0 <= k < |keys| ==> keys[k] in counts
    ensures i < |keys|
    ensures forall j :: 0 <= j < |keys| ==> counts[keys[j]] <= counts[keys[i]]
    ensures forall j :: 0 <= j < i ==> counts[keys[j]] < counts[keys[i]]
  {
    if |keys| == 1 then 0
    else
      var b := FirstMaxIndex(keys[..|keys| - 1], counts);
      if counts[keys[|keys| - 1]] > counts[keys[b]] then |keys| - 1 else b
  }

  function FontCounter(rs: seq<Reading>): map<string, nat> {
    map f | f in FontsSeen(rs) :: FontHits(rs, f)
  }

  /** `primary_font`: the most common font, or "" when no counted span names
      one. */
  function PrimaryFont(rs: seq<Reading>): string {
    var fonts := FontsSeen(rs);
    if |fonts| == 0 then "" else fonts[FirstMaxIndex(fonts, FontCounter(rs))]
  }

  /** `coherence_score`: the share of counted spans with more than one
      character. */
  function Coherence(multi: nat, total: nat): real {
    if total == 0 then 0.0 else multi as real / total as real
  }

  /** What `_calculate_coherence_from_spans` returns. */
  datatype Coherent = Coherent(score: real, totalSpans: nat, multiCharSpans: nat, numericSpans: nat, primaryFont: string)

  function Summary(rs: seq<Reading>): Coherent {
    Coherent(Coherence(MultiCharSpans(rs), TotalSpans(rs)), TotalSpans(rs),
             MultiCharSpans(rs), NumericSpans(rs), PrimaryFont(rs))
  }

  /** The result for a list of spans. */
  function CoherenceOf(spans: seq<Span>): Coherent {
    Summary(Readings(spans))
  }

  /** `is_hybrid_viable` of the text layer built from these spans. */
  predicate HybridViable(spans: seq<Span>) {
    CoherenceOf(spans).score >= CoherenceThreshold
  }

  /** The loop state of `_calculate_coherence_from_spans`: the three
      counters and the font `Counter` (its counts and its key order). */
  datatype Tally = Tally(total: nat, multi: nat, numeric: nat, counter: map<string, nat>, fonts: seq<string>)

  /** The loop state after the readings `rs`. */
  predicate Tallies(t: Tally, rs: seq<Reading>) {
    t.total == TotalSpans(rs) && t.multi == MultiCharSpans(rs) && t.numeric == NumericSpans(rs)
    && t.fonts == FontsSeen(rs) && t.counter == FontCounter(rs)
  }

  /** `_calculate_coherence_from_spans`: one pass that bumps the counters and
      the font counter, then the ratio and the most common font. */
  method CalculateCoherence(spans: seq<Span>) returns (r: Coherent)
    ensures r == CoherenceOf(spans)
  {
    var t := Tally(0, 0, 0, map[], []);
    var i := 0;
    while i < |spans|
      invariant 0 <= i <= |spans|
      invariant Tallies(t, Readings(spans[..i]))
    {
      ReadingsStep(spans, i);
      t := TallySpan(Readings(spans[..i]), t, spans[i]);
      i := i + 1;
    }
    assert spans[..|spans|] == spans;
    var score := if t.total == 0 then 0.0 else t.multi as real / t.total as real;
    var primary := if |t.fonts| == 0 then "" else t.fonts[FirstMaxIndex(t.fonts, t.counter)];
    r := Coherent(score, t.total, t.multi, t.numeric, primary);
  }

  /** The loop body for one span: a blank cleaned text is skipped, otherwise
      the counters it qualifies for and its font's count go up by one. */
  method TallySpan(ghost rs: seq<Reading>, t: Tally, sp: Span) returns (t': Tally)
    requires Tallies(t, rs)
    ensures Tallies(t', rs + [Read(sp)])
  {
    var cleaned := Unicode.CleanUnicode(sp.text);
    var text := Strip(cleaned);
    var font := Strip(sp.font);
    ghost var r := Reading(text, font);
    assert Read(sp) == r;
    CounterStep(rs, r);
    if |text| == 0 {
      return t;
    }
    var total, multi, numeric := t.total + 1, t.multi, t.numeric;
    if |text| > 1 {
      multi := multi + 1;
    }
    if |text| > 1 && HasDigit(text) {
      numeric := numeric + 1;
    }
    var counter, fonts := CountFont(rs, r, t.counter, t.fonts, font);
    t' := Tally(total, multi, numeric, counter, fonts);
  }

  /** `font_counter[font] += 1` for a span that is counted, when it names a
      font. */
  method CountFont(ghost rs: seq<Reading>, ghost r: Reading, counter: map<string, nat>, fonts: seq<string>,
                   font: string)
    returns (counter': map<string, nat>, fonts': seq<string>)
    requires Counted(r) && r.font == font
    requires counter == FontCounter(rs) && fonts == FontsSeen(rs)
    ensures counter' == FontCounter(rs + [r]) && fonts' == FontsSeen(rs + [r])
  {
    FontsSeenStep(rs, r);
    FontCounterStep(rs, r);
    FontsSeenHits(rs, font);
    counter', fonts' := counter, fonts;
    if font != "" {
      if font in counter {
        counter' := counter[font := counter[font] + 1];
      } else {
        counter', fonts' := counter[font := 1], fonts + [font];
      }
    }
  }

  lemma ReadingsStep(spans: seq<Span>, i: nat)
    requires i < |spans|
    ensures Readings(spans[..i + 1]) == Readings(spans[..i]) + [Read(spans[i])]
  {
    assert spans[..i + 1][..i] == spans[..i];
  }

  /** A count after one more reading. */
  lemma CountStep(rs: seq<Reading>, r: Reading, p: Reading -> bool)
    ensures Count(rs + [r], p) == Count(rs, p) + (if p(r) then 1 else 0)
  {
    assert (rs + [r])[..|rs|] == rs;
  }

  lemma FontsSeenStep(rs: seq<Reading>, r: Reading)
    ensures FontsSeen(rs + [r]) ==
              if Counted(r) && r.font != "" && r.font !in FontsSeen(rs) then FontsSeen(rs) + [r.font] else FontsSeen(rs)
  {
    assert (rs + [r])[..|rs|] == rs;
  }

  /** The font counter after one more reading. */
  lemma FontCounterStep(rs: seq<Reading>, r: Reading)
    ensures FontCounter(rs + [r]) ==
              if Counted(r) && r.font != "" then
                FontCounter(rs)[r.font := if r.font in FontCounter(rs) then FontCounter(rs)[r.font] + 1 else 1]
              else FontCounter(rs)
  {
    var next := rs + [r];
    var a := FontCounter(next);
    var b := if Counted(r) && r.font != "" then
               FontCounter(rs)[r.font := if r.font in FontCounter(rs) then FontCounter(rs)[r.font] + 1 else 1]
             else FontCounter(rs);
    forall g ensures g in a <==> g in b {
      FontsSeenHits(next, g);
      FontsSeenHits(rs, g);
      CountStep(rs, r, x => HasFont(x, g));
    }
    forall g | g in a ensures a[g] == b[g] {
      FontsSeenHits(rs, g);
      CountStep(rs, r, x => HasFont(x, g));
    }
  }

  /** Every counter after one more reading. */
  lemma CounterStep(rs: seq<Reading>, r: Reading)
    ensures var next := rs + [r];
            TotalSpans(next) == TotalSpans(rs) + (if Counted(r) then 1 else 0)
            && MultiCharSpans(next) == MultiCharSpans(rs) + (if IsMulti(r) then 1 else 0)
            && NumericSpans(next) == NumericSpans(rs) + (if IsNumeric(r) then 1 else 0)
            && FontsSeen(next) == (if Counted(r) && r.font != "" && r.font !in FontsSeen(rs) then FontsSeen(rs) + [r.font] else FontsSeen(rs))
            && FontCounter(next) ==
                 if Counted(r) && r.font != "" then
                   FontCounter(rs)[r.font := if r.font in FontCounter(rs) then FontCounter(rs)[r.font] + 1 else 1]
                 else FontCounter(rs)
  {
    CountStep(rs, r, Counted);
    CountStep(rs, r, IsMulti);
    CountStep(rs, r, IsNumeric);
    FontsSeenStep(rs, r);
    FontCounterStep(rs, r);
  }

  /** A font is listed exactly when some counted span uses it. */
  lemma {:induction false} FontsSeenHits(rs: seq<Reading>, f: string)
    ensures f in FontsSeen(rs) <==> FontHits(rs, f) > 0
  {
    if |rs| > 0 {
      FontsSeenHits(rs[..|rs| - 1], f);
    }
  }

  /** Each font is listed once. */
  lemma {:induction false} FontsSeenDistinct(rs: seq<Reading>)
    ensures forall i, j :: 0 <= i < j < |FontsSeen(rs)| ==> FontsSeen(rs)[i] != FontsSeen(rs)[j]
  {
    if |rs| > 0 {
      FontsSeenDistinct(rs[..|rs| - 1]);
    }
  }

  lemma {:induction false} CountImplies(rs: seq<Reading>, p: Reading -> bool, q: Reading -> bool)
    requires forall sp :: p(sp) ==> q(sp)
    ensures Count(rs, p) <= Count(rs, q)
  {
    if |rs| > 0 {
      CountImplies(rs[..|rs| - 1], p, q);
    }
  }

  /** numeric_spans <= multi_char_spans <= total_spans, so the score lies in
      [0, 1]. */
  lemma CountersOrdered(rs: seq<Reading>)
    ensures NumericSpans(rs) <= MultiCharSpans(rs) <= TotalSpans(rs)
    ensures 0.0 <= Summary(rs).score <= 1.0
  {
    CountImplies(rs, IsNumeric, IsMulti);
    CountImplies(rs, IsMulti, Counted);
    CoherenceBounded(MultiCharSpans(rs), TotalSpans(rs));
  }

  /** A share of a total lies in [0, 1]. */
  lemma CoherenceBounded(multi: nat, total: nat)
    requires multi <= total
    ensures 0.0 <= Coherence(multi, total) <= 1.0
  {
    if total > 0 {
      var m, t := multi as real, total as real;
      assert m / t * t == m;
    }
  }

  lemma {:induction false} CountSkip(a: seq<Reading>, sp: Reading, b: seq<Reading>, p: Reading -> bool)
    requires !p(sp)
    ensures Count(a + [sp] + b, p) == Count(a + b, p)
    decreases |b|
  {
    if |b| == 0 {
      assert a + [sp] + b == a + [sp] && (a + [sp])[..|a|] == a && a + b == a;
    } else {
      var b0 := b[..|b| - 1];
      assert (a + [sp] + b)[..|a + [sp] + b| - 1] == a + [sp] + b0;
      assert (a + b)[..|a + b| - 1] == a + b0;
      CountSkip(a, sp, b0, p);
    }
  }

  lemma {:induction false} FontsSeenSkip(a: seq<Reading>, sp: Reading, b: seq<Reading>)
    requires !Counted(sp)
    ensures FontsSeen(a + [sp] + b) == FontsSeen(a + b)
    decreases |b|
  {
    if |b| == 0 {
      assert a + [sp] + b == a + [sp] && (a + [sp])[..|a|] == a && a + b == a;
    } else {
      var b0 := b[..|b| - 1];
      assert (a + [sp] + b)[..|a + [sp] + b| - 1] == a + [sp] + b0;
      assert (a + b)[..|a + b| - 1] == a + b0;
      FontsSeenSkip(a, sp, b0);
    }
  }

  lemma BlankReadingIgnored(a: seq<Reading>, sp: Reading, b: seq<Reading>)
    requires sp.text == ""
    ensures Summary(a + [sp] + b) == Summary(a + b)
  {
    CountSkip(a, sp, b, Counted);
    CountSkip(a, sp, b, IsMulti);
    CountSkip(a, sp, b, IsNumeric);
    FontsSeenSkip(a, sp, b);
    forall f ensures FontHits(a + [sp] + b, f) == FontHits(a + b, f) {
      CountSkip(a, sp, b, r => HasFont(r, f));
    }
    assert FontCounter(a + [sp] + b) == FontCounter(a + b);
  }

  /** `primary_font` is "" exactly when no counted span names a font;
      otherwise it is a font with the most hits, and every font seen before
      it has strictly fewer. */
  lemma PrimaryFontMostCommon(rs: seq<Reading>)
    ensures PrimaryFont(rs) == "" <==> forall f :: FontHits(rs, f) == 0 || f == ""
    ensures PrimaryFont(rs) != "" ==>
              FontHits(rs, PrimaryFont(rs)) > 0
              && (forall f :: FontHits(rs, f) <= FontHits(rs, PrimaryFont(rs)))
              && (forall j :: 0 <= j < |FontsSeen(rs)| && FontsSeen(rs)[j] == PrimaryFont(rs) ==>
                    forall k :: 0 <= k < j ==> FontHits(rs, FontsSeen(rs)[k]) < FontHits(rs, PrimaryFont(rs)))
  {
    var fonts := FontsSeen(rs);
    forall f ensures f in fonts <==> FontHits(rs, f) > 0 {
      FontsSeenHits(rs, f);
    }
    FontsSeenNonEmpty(rs);
    FontsSeenDistinct(rs);
    if |fonts| > 0 {
      var i := FirstMaxIndex(fonts, FontCounter(rs));
      forall f ensures FontHits(rs, f) <= FontHits(rs, fonts[i]) {
        if f in fonts {
          var j :| 0 <= j < |fonts| && fonts[j] == f;
          assert FontCounter(rs)[fonts[j]] <= FontCounter(rs)[fonts[i]];
        }
      }
    }
  }

  lemma {:induction false} FontsSeenNonEmpty(rs: seq<Reading>)
    ensures "" !in FontsSeen(rs)
  {
    if |rs| > 0 {
      FontsSeenNonEmpty(rs[..|rs| - 1]);
    }
  }

  /** The layer is viable for hybrid extraction exactly when some span is
      counted and at least 40% of the counted spans have more than one
      character. */
  lemma HybridViableIff(spans: seq<Span>)
    ensures HybridViable(spans) <==>
              TotalSpans(Readings(spans)) > 0
              && 100 * MultiCharSpans(Readings(spans)) >= 40 * TotalSpans(Readings(spans))
  {
    RatioAtLeast(MultiCharSpans(Readings(spans)), TotalSpans(Readings(spans)));
  }

  lemma RatioAtLeast(m: nat, t: nat)
    ensures Coherence(m, t) >= CoherenceThreshold <==> t > 0 && 100 * m >= 40 * t
  {
    if t > 0 {
      var q := m as real / t as real;
      assert q * t as real == m as real;
      assert q >= 0.40 <==> q * t as real >= 0.40 * t as real;
    }
  }

  lemma {:induction false} ReadAllAppend(x: seq<Span>, y: seq<Span>, read: Span -> Reading)
    ensures ReadAll(x + y, read) == ReadAll(x, read) + ReadAll(y, read)
    decreases |y|
  {
    if |y| == 0 {
      assert x + y == x;
    } else {
      var y0 := y[..|y| - 1];
      assert (x + y)[..|x + y| - 1] == x + y0;
      ReadAllAppend(x, y0, read);
    }
  }

  /** A span whose cleaned, stripped text is empty changes none of the
      results, wherever it stands in the list. */
  lemma BlankSpanIgnored(a: seq<Span>, sp: Span, b: seq<Span>)
    requires Read(sp).text == ""
    ensures CoherenceOf(a + [sp] + b) == CoherenceOf(a + b)
  {
    ReadAllAppend(a + [sp], b, Read);
    ReadAllAppend(a, [sp], Read);
    ReadAllAppend(a, b, Read);
    assert ReadAll([sp], Read) == [Read(sp)];
    BlankReadingIgnored(Readings(a), Read(sp), Readings(b));
  }
}
