/**
 * The website scraper: a bounded retry loop around one GET request, the clean-up of the page's
 * text into non-blank phrases, and the aggregation of several pages.  The HTML parser is not
 * modelled: the text it extracts from a fetched page is part of the attempt's outcome.
 */
module WebScraper {
  import opened Wrappers
  import opened Text
  import opened Http

  // ---------------------------------------------------------------- clean-up

  /** The phrases of the stripped lines, each stripped, without the empty ones. */
  function Phrases(lines: seq<string>): (ps: seq<string>)
    ensures forall p :: p in ps ==> p != [] && !IsSpace(p[0]) && !IsSpace(p[|p| - 1])
  {
    if lines == [] then []
    else Phrases(lines[..|lines| - 1]) + LinePhrases(lines[|lines| - 1])
  }

  /** One line's phrases: the line stripped, cut at double spaces, each piece stripped, the empty ones dropped. */
  function LinePhrases(line: string): (ps: seq<string>)
    ensures forall p :: p in ps ==> p != [] && !IsSpace(p[0]) && !IsSpace(p[|p| - 1])
  {
    NonEmpty(StrippedPieces(SplitOn(Strip(line), "  ")))
  }

  function StrippedPieces(pieces: seq<string>): (r: seq<string>)
    ensures |r| == |pieces|
    ensures forall i :: 0 <= i < |r| ==> r[i] == Strip(pieces[i])
  {
    seq(|pieces|, i requires 0 <= i < |pieces| => Strip(pieces[i]))
  }

  function NonEmpty(xs: seq<string>): (r: seq<string>)
    ensures forall x :: x in r <==> x in xs && x != ""
    ensures |xs| == 1 ==> r == (if xs[0] == "" then [] else xs)
    ensures |r| <= |xs|
  {
    if xs == [] then []
    else (if xs[0] == "" then [] else [xs[0]]) + NonEmpty(xs[1..])
  }

  /** The filter keeps the order: filtering a concatenation concatenates the filtered parts. */
  lemma {:induction false} NonEmptyAppend(xs: seq<string>, ys: seq<string>)
    ensures NonEmpty(xs + ys) == NonEmpty(xs) + NonEmpty(ys)
    decreases |xs|
  {
    if xs != [] {
      assert (xs + ys)[1..] == xs[1..] + ys;
      NonEmptyAppend(xs[1..], ys);
    } else {
      assert xs + ys == ys;
    }
  }

  /** The text's non-empty phrases in order: what the clean-up puts one per line. */
  function CleanPhrases(text: string): seq<string> {
    Phrases(SplitLines(text))
  }

  /** The clean-up of the extracted text. */
  function CleanText(text: string): string {
    Join("\n", CleanPhrases(text))
  }

  /** A substring of a text without a given pattern does not contain it either. */
  lemma SubstringAvoids(s: string, i: nat, j: nat, pat: string)
    requires i <= j <= |s|
    requires forall m :: !OccursAt(s, pat, m)
    ensures forall m :: !OccursAt(s[i..j], pat, m)
  {
    forall m ensures !OccursAt(s[i..j], pat, m) {
      if 0 <= m && m + |pat| <= j - i {
        SliceOfSlice(s, i, j, m, m + |pat|);
        assert !OccursAt(s, pat, i + m);
      }
    }
  }

  lemma SliceOfSlice(s: string, i: nat, j: nat, a: nat, b: nat)
    requires i <= j <= |s| && a <= b <= j - i
    ensures s[i..j][a..b] == s[i + a..i + b]
  {
    forall t | 0 <= t < b - a ensures s[i..j][a..b][t] == s[i + a..i + b][t] {
      assert s[i..j][a..b][t] == s[i + a + t];
    }
  }

  /** No phrase contains two consecutive spaces, nor a newline when no line contains a line break. */
  lemma {:induction false} PhrasesAvoid(lines: seq<string>)
    requires forall l, m :: l in lines && 0 <= m < |l| ==> !IsLineBreak(l[m])
    ensures forall p, m :: p in Phrases(lines) ==> !OccursAt(p, "  ", m) && !OccursAt(p, "\n", m)
  {
    if lines != [] {
      var init := lines[..|lines| - 1];
      assert forall l :: l in init ==> l in lines;
      PhrasesAvoid(init);
      LinePhrasesAvoid(lines[|lines| - 1]);
    }
  }

  /** The same for the phrases of one line. */
  lemma LinePhrasesAvoid(last: string)
    requires forall m :: 0 <= m < |last| ==> !IsLineBreak(last[m])
    ensures forall p, m :: p in LinePhrases(last) ==>
              !OccursAt(p, "  ", m) && !OccursAt(p, "\n", m)
  {
    var line := Strip(last);
    var pieces := SplitOn(line, "  ");
    SplitOnPiecesFree(line, "  ");
    forall p | p in NonEmpty(StrippedPieces(pieces))
      ensures forall m :: !OccursAt(p, "  ", m) && !OccursAt(p, "\n", m)
    {
      var k :| 0 <= k < |pieces| && p == Strip(pieces[k]);
      SubstringAvoids(pieces[k], StripStart(pieces[k]), StripEnd(pieces[k]), "  ");
      LineAvoidsNewline(last, line, pieces[k], p);
    }
  }

  /** A phrase cut from a line that has no line break has none either. */
  lemma LineAvoidsNewline(last: string, line: string, piece: string, p: string)
    requires forall m :: 0 <= m < |last| ==> !IsLineBreak(last[m])
    requires line == Strip(last) && piece in SplitOn(line, "  ") && p == Strip(piece)
    ensures forall m :: !OccursAt(p, "\n", m)
  {
    forall m ensures !OccursAt(last, "\n", m) {
      if 0 <= m && m + 1 <= |last| {
        assert last[m..m + 1][0] == last[m];
      }
    }
    SubstringAvoids(last, StripStart(last), StripEnd(last), "\n");
    PiecesAvoidNewline(line, "  ");
    SubstringAvoids(piece, StripStart(piece), StripEnd(piece), "\n");
  }

  /** The pieces of a split text that has no newline have none either. */
  lemma {:induction false} PiecesAvoidNewline(s: string, sep: string)
    requires |sep| > 0
    requires forall m :: !OccursAt(s, "\n", m)
    ensures forall p, m :: p in SplitOn(s, sep) ==> !OccursAt(p, "\n", m)
    decreases |s|
  {
    match FindFrom(s, sep, 0)
    case None =>
    case Some(k) =>
      SubstringAvoids(s, 0, k, "\n");
      SubstringAvoids(s, k + |sep|, |s|, "\n");
      assert s[..k] == s[0..k];
      assert s[k + |sep|..] == s[k + |sep|..|s|];
      PiecesAvoidNewline(s[k + |sep|..], sep);
  }

  /** Splitting on a one-character separator undoes joining with it, for pieces without it. */
  lemma {:induction false} SplitJoinedLines(pieces: seq<string>, sep: string)
    requires |sep| == 1 && pieces != []
    requires forall p, m :: p in pieces ==> !OccursAt(p, sep, m)
    ensures SplitOn(Join(sep, pieces), sep) == pieces
    decreases |pieces|
  {
    var s := Join(sep, pieces);
    var p0 := pieces[0];
    if |pieces| == 1 {
      assert s == p0;
      assert FindFrom(s, sep, 0).None?;
    } else {
      var rest := Join(sep, pieces[1..]);
      assert s == p0 + sep + rest;
      assert OccursAt(s, sep, |p0|) by {
        assert s[|p0|..|p0| + 1] == sep;
      }
      forall m | 0 <= m < |p0| ensures !OccursAt(s, sep, m) {
        assert !OccursAt(p0, sep, m);
        assert s[m..m + 1] == p0[m..m + 1];
      }
      assert FindFrom(s, sep, 0) == Some(|p0|);
      assert s[..|p0|] == p0 && s[|p0| + 1..] == rest;
      assert forall p :: p in pieces[1..] ==> p in pieces;
      SplitJoinedLines(pieces[1..], sep);
      assert pieces == [p0] + pieces[1..];
    }
  }

  /**
   * The lines of the cleaned text are exactly its phrases: none is empty, none starts or ends with
   * whitespace, and none contains two consecutive spaces.
   */
  lemma CleanTextLines(text: string)
    requires CleanPhrases(text) != []
    ensures SplitOn(CleanText(text), "\n") == CleanPhrases(text)
    ensures forall l, m :: l in SplitOn(CleanText(text), "\n") ==>
              l != "" && !IsSpace(l[0]) && !IsSpace(l[|l| - 1]) && !OccursAt(l, "  ", m)
  {
    PhrasesAvoid(SplitLines(text));
    SplitJoinedLines(CleanPhrases(text), "\n");
  }

  /** Text with no phrase cleans to the empty text. */
  lemma BlankTextCleansToEmpty(text: string)
    requires CleanPhrases(text) == []
    ensures CleanText(text) == ""
  {
  }

  // ---------------------------------------------------------------- fetching

  /**
   * One attempt's outcome: a response with its status and the text the parser extracted from the
   * page (scripts, styles, navigation, headers and footers removed), or a request exception.
   */
  datatype Attempt = Fetched(status: int, text: string) | RequestFailed

  /** `raise_for_status()` passes: the response is used. */
  predicate Succeeds(a: Attempt) {
    a.Fetched? && !IsErrorStatus(a.status)
  }

  /** None of the first `n` attempts succeeds. */
  predicate AllFailBefore(outcome: nat -> Attempt, n: nat) {
    forall k: nat :: k < n ==> !Succeeds(outcome(k))
  }

  /**
   * The retry loop from attempt `k` on: the text of the first successful response, if any, and
   * the number of attempts made in all.
   */
  function FetchFrom(maxRetries: int, outcome: nat -> Attempt, k: nat): (Option<string>, nat)
    decreases maxRetries - k
  {
    if maxRetries <= k then (None, k)
    else if Succeeds(outcome(k)) then (Some(outcome(k).text), k + 1)
    else FetchFrom(maxRetries, outcome, k + 1)
  }

  /** Attempt `tried` is the first that succeeds, within the allowed number. */
  predicate Succeeded(maxRetries: int, outcome: nat -> Attempt, tried: nat) {
    1 <= tried <= maxRetries && Succeeds(outcome(tried - 1)) && AllFailBefore(outcome, tried - 1)
  }

  /**
   * From attempt `k`, when the earlier ones failed: the first success gives its text and ends the
   * loop; with none, every attempt up to `maxRetries` is made.
   */
  lemma {:induction false} FetchFromSpec(maxRetries: int, outcome: nat -> Attempt, k: nat)
    requires AllFailBefore(outcome, k) && (k == 0 || k <= maxRetries)
    ensures var (text, tried) := FetchFrom(maxRetries, outcome, k);
            (text.Some? ==> Succeeded(maxRetries, outcome, tried) && text.value == outcome(tried - 1).text)
            && (text.None? ==> tried == (if maxRetries <= 0 then 0 else maxRetries) && AllFailBefore(outcome, tried))
    decreases maxRetries - k
  {
    if k < maxRetries && !Succeeds(outcome(k)) {
      FetchFromSpec(maxRetries, outcome, k + 1);
    }
  }

  /** The cleaned text of the first successful response. */
  function ScrapeResult(maxRetries: int, outcome: nat -> Attempt): (Option<string>, nat) {
    var f := FetchFrom(maxRetries, outcome, 0);
    (if f.0.Some? then Some(CleanText(f.0.value)) else None, f.1)
  }

  /**
   * `scrape_website`: up to `maxRetries` attempts, `outcome(k)` being how attempt `k` ends;
   * the first success gives the cleaned text, and no further attempt is made.
   */
  method ScrapeWebsite(maxRetries: int, outcome: nat -> Attempt) returns (r: Option<string>, tried: nat)
    ensures (r, tried) == ScrapeResult(maxRetries, outcome)
  {
    r, tried := None, 0;
    while tried < maxRetries
      invariant FetchFrom(maxRetries, outcome, tried) == FetchFrom(maxRetries, outcome, 0)
      decreases maxRetries - tried
    {
      var a := outcome(tried);
      if Succeeds(a) {
        r := Some(CleanText(a.text));
        tried := tried + 1;
        return;
      }
      tried := tried + 1;
    }
  }

  /** No attempt is made when none is allowed. */
  lemma ScrapeWithoutRetries(maxRetries: int, outcome: nat -> Attempt)
    requires maxRetries <= 0
    ensures ScrapeResult(maxRetries, outcome) == (None, 0)
  {
  }

  /** A text is returned only from the first successful attempt, and it is that page's text cleaned. */
  lemma ScrapeSuccess(maxRetries: int, outcome: nat -> Attempt)
    requires ScrapeResult(maxRetries, outcome).0.Some?
    ensures Succeeded(maxRetries, outcome, ScrapeResult(maxRetries, outcome).1)
    ensures ScrapeResult(maxRetries, outcome).0.value == CleanText(outcome(ScrapeResult(maxRetries, outcome).1 - 1).text)
  {
    FetchFromSpec(maxRetries, outcome, 0);
    var f := FetchFrom(maxRetries, outcome, 0);
    assert f.0.value == outcome(f.1 - 1).text;
  }

  /** Without a text, every allowed attempt was made and failed. */
  lemma ScrapeFailure(maxRetries: int, outcome: nat -> Attempt)
    requires ScrapeResult(maxRetries, outcome).0.None?
    ensures ScrapeResult(maxRetries, outcome).1 == (if maxRetries <= 0 then 0 else maxRetries)
    ensures AllFailBefore(outcome, ScrapeResult(maxRetries, outcome).1)
  {
    FetchFromSpec(maxRetries, outcome, 0);
  }

  /** The block one scraped page contributes. */
  function Block(url: string, content: string): string {
    "=== Content from " + url + " ===\n\n" + content + "\n\n"
  }

  /** The blocks of the pages whose scrape gave non-empty text, in order. */
  function Blocks(pages: seq<(string, Option<string>)>): seq<string> {
    if pages == [] then []
    else
      var last := pages[|pages| - 1];
      Blocks(pages[..|pages| - 1]) + (if Truthy(last.1) then [Block(last.0, last.1.value)] else [])
  }

  /** Blocks keep the pages' order: the blocks of two runs of pages are those of each in turn. */
  lemma {:induction false} BlocksAppend(a: seq<(string, Option<string>)>, b: seq<(string, Option<string>)>)
    ensures Blocks(a + b) == Blocks(a) + Blocks(b)
    decreases |b|
  {
    if b == [] {
      assert a + b == a;
    } else {
      var b' := b[..|b| - 1];
      assert (a + b)[..|a + b| - 1] == a + b';
      BlocksAppend(a, b');
    }
  }

  /** A block appears exactly for a page whose scrape gave non-empty text. */
  lemma {:induction false} BlocksMembers(pages: seq<(string, Option<string>)>, x: string)
    ensures x in Blocks(pages) <==>
            exists i :: 0 <= i < |pages| && Truthy(pages[i].1) && x == Block(pages[i].0, pages[i].1.value)
    decreases |pages|
  {
    if pages != [] {
      var init := pages[..|pages| - 1];
      BlocksMembers(init, x);
      if x in Blocks(init) {
        var i :| 0 <= i < |init| && Truthy(init[i].1) && x == Block(init[i].0, init[i].1.value);
        assert pages[i] == init[i];
      }
      if exists i :: 0 <= i < |pages| && Truthy(pages[i].1) && x == Block(pages[i].0, pages[i].1.value) {
        var i :| 0 <= i < |pages| && Truthy(pages[i].1) && x == Block(pages[i].0, pages[i].1.value);
        if i < |init| {
          assert init[i] == pages[i];
        }
      }
    }
  }

  /**
   * `scrape_multiple_pages`, given each URL with what `scrape_website` returned for it: the
   * blocks joined with newlines.
   */
  method ScrapeMultiplePages(pages: seq<(string, Option<string>)>) returns (r: string)
    ensures r == Join("\n", Blocks(pages))
    ensures pages == [] ==> r == ""
  {
    var all: seq<string> := [];
    var i := 0;
    while i < |pages|
      invariant 0 <= i <= |pages|
      invariant all == Blocks(pages[..i])
    {
      var (url, content) := pages[i];
      if Truthy(content) {
        all := all + [Block(url, content.value)];
      }
      assert pages[..i + 1][..i] == pages[..i];
      i := i + 1;
    }
    assert pages[..i] == pages;
    r := Join("\n", all);
  }
}
