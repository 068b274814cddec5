/** The page selector of the command-line tools (src/utils/cli.py): "14",
    "1,4,7" or "1-3,7,10-12" becomes an ascending list of 1-based pages. */
module Cli {
  import opened Wrappers
  import opened Strings
  import opened Numeric
  import opened Ordering

  /** The pages one comma-separated token selects: nothing for a blank token,
      the inclusive range for "a-b" (split at its first '-'), or one page.
      Text `int()` rejects is an error. */
  function TokenPages(token: string): Result<seq<int>> {
    var t := Strip(token);
    if |t| == 0 then Ok([])
    else match FindChar(t, '-')
      case Some(i) => RangePages(t, i)
      case None =>
        match ParseIntText(t)
        case Some(p) => Ok([p])
        case None => Err("invalid literal for int()")
  }

  /** The range token `t` split at its first '-', at position `i`; a range
      ending below its start is an error. */
  function RangePages(t: string, i: nat): Result<seq<int>>
    requires i < |t|
  {
    var start := ParseIntText(Strip(t[..i]));
    var end := ParseIntText(Strip(t[i + 1..]));
    if start.None? || end.None? then Err("invalid literal for int()")
    else if end.value < start.value then Err("Invalid page range '" + t + "': end < start")
    else Ok(Range(start.value, end.value))
  }

  /** `range(start, end + 1)` */
  function Range(start: int, end: int): (r: seq<int>)
    requires start <= end
    ensures |r| == end - start + 1 && forall k :: 0 <= k < |r| ==> r[k] == start + k
  {
    seq(end - start + 1, k => start + k)
  }

  /** The pages of all tokens, or the error of the first token that fails,
      for a per-token reading `f`. */
  function Collect(tokens: seq<string>, f: string -> Result<seq<int>>): Result<seq<int>> {
    if |tokens| == 0 then Ok([])
    else match Collect(tokens[..|tokens| - 1], f)
      case Err(e) => Err(e)
      case Ok(pages) =>
        match f(tokens[|tokens| - 1])
        case Err(e) => Err(e)
        case Ok(more) => Ok(pages + more)
  }

  /** The result of `parse_pages_argument`: None for a missing or empty
      selector, otherwise the selection of the pages its tokens collect, or
      the error of the first bad token. */
  function ParsePages(pagesArg: Option<string>, totalPages: Option<int>): Result<Option<seq<int>>> {
    if pagesArg.None? || |pagesArg.value| == 0 then Ok(None)
    else match Collect(Split(pagesArg.value, ','), TokenPages)
      case Err(e) => Err(e)
      case Ok(pages) => Selection(pages, totalPages)
  }

  /** The collected pages sorted without duplicates, None when there are
      none, or an error when the smallest is below 1 or the largest is past
      the page count. */
  function Selection(pages: seq<int>, totalPages: Option<int>): Result<Option<seq<int>>> {
    if |pages| == 0 then Ok(None)
    else
      var parsed := UniqueInts(pages);
      if parsed[0] < 1 then Err("Page numbers must be >= 1")
      else if totalPages.Some? && parsed[|parsed| - 1] > totalPages.value then
        Err("Requested page exceeds PDF page count")
      else Ok(Some(parsed))
  }

  /** `parse_pages_argument`: collects the pages of every token, then sorts
      them and checks the bounds. */
  method ParsePagesArgument(pagesArg: Option<string>, totalPages: Option<int>)
    returns (r: Result<Option<seq<int>>>)
    ensures r == ParsePages(pagesArg, totalPages)
  {
    if pagesArg.None? || |pagesArg.value| == 0 {
      return Ok(None);
    }
    var collected := CollectPages(Split(pagesArg.value, ','));
    if collected.Err? {
      return Err(collected.message);
    }
    r := Selection(collected.value, totalPages);
  }

  /** The token loop of `parse_pages_argument`: blank tokens are skipped, a
      range adds all its pages, any other token adds one page, and the first
      bad token raises. */
  method CollectPages(tokens: seq<string>) returns (r: Result<seq<int>>)
    ensures r == Collect(tokens, TokenPages)
  {
    var pages: seq<int> := [];
    var i := 0;
    while i < |tokens|
      invariant 0 <= i <= |tokens|
      invariant Collect(tokens[..i], TokenPages) == Ok(pages)
    {
      var token := Strip(tokens[i]);
      if |token| == 0 {
        assert TokenPages(tokens[i]) == Ok([]);
        CollectStep(tokens, TokenPages, i);
        assert pages + [] == pages;
        i := i + 1;
        continue;
      }
      var dash := FindChar(token, '-');
      if dash.Some? {
        assert TokenPages(tokens[i]) == RangePages(token, dash.value);
        CollectStep(tokens, TokenPages, i);
        var startRaw := token[..dash.value];
        var endRaw := token[dash.value + 1..];
        var start := ParseIntText(Strip(startRaw));
        var end := ParseIntText(Strip(endRaw));
        if start.None? || end.None? {
          CollectPrefixErr(tokens, TokenPages, i + 1);
          return Err("invalid literal for int()");
        }
        if end.value < start.value {
          CollectPrefixErr(tokens, TokenPages, i + 1);
          return Err("Invalid page range '" + token + "': end < start");
        }
        pages := pages + Range(start.value, end.value);
        i := i + 1;
        continue;
      }
      var page := ParseIntText(token);
      assert TokenPages(tokens[i]) == if page.None? then Err("invalid literal for int()") else Ok([page.value]);
      CollectStep(tokens, TokenPages, i);
      if page.None? {
        CollectPrefixErr(tokens, TokenPages, i + 1);
        return Err("invalid literal for int()");
      }
      pages := pages + [page.value];
      i := i + 1;
    }
    assert tokens[..|tokens|] == tokens;
    return Ok(pages);
  }

  /** One more token: its error, or its pages appended. */
  lemma CollectStep(tokens: seq<string>, f: string -> Result<seq<int>>, i: nat)
    requires i < |tokens| && Collect(tokens[..i], f).Ok?
    ensures Collect(tokens[..i + 1], f) ==
            match f(tokens[i])
            case Err(e) => Err(e)
            case Ok(more) => Ok(Collect(tokens[..i], f).value + more)
  {
    assert tokens[..i + 1][..i] == tokens[..i];
  }

  /** A page is collected exactly when some token selects it. */
  lemma {:induction false} CollectMembers(tokens: seq<string>, f: string -> Result<seq<int>>, p: int)
    requires Collect(tokens, f).Ok?
    ensures forall j :: 0 <= j < |tokens| ==> f(tokens[j]).Ok?
    ensures p in Collect(tokens, f).value <==>
            exists j :: 0 <= j < |tokens| && p in f(tokens[j]).value
  {
    if |tokens| > 0 {
      var init := tokens[..|tokens| - 1];
      CollectMembers(init, f, p);
      assert forall j :: 0 <= j < |init| ==> tokens[j] == init[j];
    }
  }

  /** Once a prefix of the tokens fails, the whole collection fails with
      the same error: later tokens are never read. */
  lemma {:induction false} CollectPrefixErr(tokens: seq<string>, f: string -> Result<seq<int>>, k: nat)
    requires k <= |tokens| && Collect(tokens[..k], f).Err?
    ensures Collect(tokens, f) == Collect(tokens[..k], f)
    decreases |tokens| - k
  {
    if k < |tokens| {
      assert tokens[..k + 1][..k] == tokens[..k];
      CollectPrefixErr(tokens, f, k + 1);
    } else {
      assert tokens[..k] == tokens;
    }
  }

  /** Collecting fails exactly when some token fails. */
  lemma {:induction false} CollectFails(tokens: seq<string>, f: string -> Result<seq<int>>)
    ensures Collect(tokens, f).Err? <==> exists j :: 0 <= j < |tokens| && f(tokens[j]).Err?
  {
    if |tokens| > 0 {
      var init := tokens[..|tokens| - 1];
      CollectFails(init, f);
      assert forall j :: 0 <= j < |init| ==> tokens[j] == init[j];
    }
  }

  /** A successful selection is strictly ascending (sorted, no duplicates),
      holds exactly the pages some token selects, and lies within
      [1, total pages]. */
  lemma ParsePagesResult(pagesArg: Option<string>, totalPages: Option<int>)
    requires ParsePages(pagesArg, totalPages).Ok? && ParsePages(pagesArg, totalPages).value.Some?
    ensures var ps := ParsePages(pagesArg, totalPages).value.value;
            var tokens := Split(pagesArg.value, ',');
            |ps| > 0
            && (forall i, j :: 0 <= i < j < |ps| ==> ps[i] < ps[j])
            && (forall p :: p in ps <==> exists j :: 0 <= j < |tokens| && TokenPages(tokens[j]).Ok? && p in TokenPages(tokens[j]).value)
            && (forall p :: p in ps ==> 1 <= p)
            && (totalPages.Some? ==> forall p :: p in ps ==> p <= totalPages.value)
  {
    var ps := ParsePages(pagesArg, totalPages).value.value;
    var tokens := Split(pagesArg.value, ',');
    forall p ensures p in ps <==> exists j :: 0 <= j < |tokens| && TokenPages(tokens[j]).Ok? && p in TokenPages(tokens[j]).value {
      CollectMembers(tokens, TokenPages, p);
    }
    forall p | p in ps ensures 1 <= p && (totalPages.Some? ==> p <= totalPages.value) {
      var k :| 0 <= k < |ps| && ps[k] == p;
      if k > 0 { assert ps[0] < ps[k]; }
      if k < |ps| - 1 { assert ps[k] < ps[|ps| - 1]; }
    }
  }

  /** The selection is None exactly when the selector is missing or empty,
      or when every token parses and none selects a page. */
  lemma ParsePagesNone(pagesArg: Option<string>, totalPages: Option<int>)
    ensures ParsePages(pagesArg, totalPages) == Ok(None) <==>
            pagesArg.None? || |pagesArg.value| == 0
            || (Collect(Split(pagesArg.value, ','), TokenPages).Ok? && |Collect(Split(pagesArg.value, ','), TokenPages).value| == 0)
  {
  }

  /** A token whose range ends below its start makes the whole selector
      fail. */
  lemma ReversedRangeFails(pagesArg: Option<string>, totalPages: Option<int>, j: nat)
    requires pagesArg.Some? && j < |Split(pagesArg.value, ',')|
    requires TokenPages(Split(pagesArg.value, ',')[j]).Err?
    ensures ParsePages(pagesArg, totalPages).Err?
  {
    CollectFails(Split(pagesArg.value, ','), TokenPages);
  }

  /** A range token whose two ends parse selects exactly its inclusive
      range, and fails when its end is below its start. */
  lemma RangeTokenPages(t: string, i: nat)
    requires i < |t|
    requires ParseIntText(Strip(t[..i])).Some? && ParseIntText(Strip(t[i + 1..])).Some?
    ensures var start := ParseIntText(Strip(t[..i])).value;
            var end := ParseIntText(Strip(t[i + 1..])).value;
            (RangePages(t, i).Ok? <==> start <= end)
            && (RangePages(t, i).Ok? ==> forall p :: p in RangePages(t, i).value <==> start <= p <= end)
  {
    var start := ParseIntText(Strip(t[..i])).value;
    var end := ParseIntText(Strip(t[i + 1..])).value;
    if start <= end {
      var r := Range(start, end);
      assert RangePages(t, i) == Ok(r);
      forall p | start <= p <= end ensures p in r { assert r[p - start] == p; }
    }
  }
}
