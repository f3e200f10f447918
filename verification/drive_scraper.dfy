/** The listing pipeline: harvest listing URLs from the search-result
    pages, then scrape each detail page, keeping the records that match the
    criteria. The network is the `Web` value: the listing cards of each
    search page (the first link of each card, if any) and the parsed detail
    pages; a URL absent from either map is a request that raised. */
module DriveScraper {
  import opened Options
  import opened Text
  import opened Numerals
  import opened Criteria
  import opened Constants
  import opened DriveUrl
  import opened DetailPage

  datatype Web = Web(
    searchPages: map<string, seq<Option<string>>>,
    detailPages: map<string, Document>)

  /** The URL of search page `page`: `page=N` is appended to the search URL
      with no separator, so it lands at the end of its `#` fragment. */
  function PageUrl(base: string, page: int): string {
    base + "page=" + IntToString(page)
  }

  const ListingMarker := "/cars-for-sale/car/"

  /** A card link that points at a listing. */
  predicate IsListingHref(href: string) {
    Contains(href, ListingMarker)
  }

  /** The site base followed by the link up to its first `?`. */
  function CleanListingUrl(href: string): (r: string)
    ensures StartsWith(r, DriveBaseUrl)
    ensures '?' !in r[|DriveBaseUrl|..]
  {
    var path := BeforeFirst(href, '?');
    assert (DriveBaseUrl + path)[|DriveBaseUrl|..] == path;
    DriveBaseUrl + path
  }

  /** The card contributes `u`. */
  predicate CardYields(card: Option<string>, u: string) {
    card.Some? && IsListingHref(card.value) && u == CleanListingUrl(card.value)
  }

  /** The cleaned listing URLs of one page's cards, in card order. */
  function CardUrls(cards: seq<Option<string>>): (r: seq<string>)
    ensures forall u :: u in r <==> exists k :: 0 <= k < |cards| && CardYields(cards[k], u)
  {
    if |cards| == 0 then []
    else
      var rest := CardUrls(cards[1..]);
      assert forall k :: 1 <= k < |cards| ==> cards[k] == cards[1..][k - 1];
      var card := cards[0];
      if card.Some? && IsListingHref(card.value) then [CleanListingUrl(card.value)] + rest else rest
  }

  /** Page `p` of the search lies in `page..maxPage` and was fetched. */
  predicate PageFetched(base: string, web: Web, p: int) {
    PageUrl(base, p) in web.searchPages
  }

  /** The listing URLs of pages `page..maxPage`, page by page; the first
      page whose request raises ends the harvest with that exception. */
  function PagesFrom(base: string, web: Web, page: int, maxPage: int): (r: Result<seq<string>>)
    ensures r.Raised? <==> exists p :: page <= p <= maxPage && !PageFetched(base, web, p)
    ensures r.Ok? ==> forall u :: u in r.value <==>
              exists p :: page <= p <= maxPage && PageFetched(base, web, p)
                          && u in CardUrls(web.searchPages[PageUrl(base, p)])
    decreases if page <= maxPage then maxPage - page + 1 else 0
  {
    if page > maxPage then Ok([])
    else if !PageFetched(base, web, page) then Raised("requests.exceptions.RequestException")
    else
      var rest :- PagesFrom(base, web, page + 1, maxPage);
      Ok(CardUrls(web.searchPages[PageUrl(base, page)]) + rest)
  }

  predicate NoDuplicates<T(==)>(xs: seq<T>) {
    forall i, j :: 0 <= i < j < |xs| ==> xs[i] != xs[j]
  }

  /** The elements of `xs` not in `seen`, each once, in order of first
      occurrence. */
  function DedupAvoiding(xs: seq<string>, seen: set<string>): (r: seq<string>)
    ensures forall u :: u in r <==> u in xs && u !in seen
    ensures NoDuplicates(r)
  {
    if |xs| == 0 then []
    else if xs[0] in seen then DedupAvoiding(xs[1..], seen)
    else
      var rest := DedupAvoiding(xs[1..], seen + {xs[0]});
      assert xs[0] !in rest;
      [xs[0]] + rest
  }

  /** `list(set(xs))` with the set's iteration order fixed to first
      occurrence. */
  function Dedup(xs: seq<string>): seq<string> {
    DedupAvoiding(xs, {})
  }

  /** Every listing URL on pages 1 to `maxPage` of the search at `base`,
      each once. */
  function Harvest(base: string, web: Web, maxPage: int): (r: Result<seq<string>>)
    ensures r.Raised? <==> exists p :: 1 <= p <= maxPage && !PageFetched(base, web, p)
    ensures r.Ok? ==> NoDuplicates(r.value)
    ensures r.Ok? ==> forall u :: u in r.value <==>
              exists p :: 1 <= p <= maxPage && PageFetched(base, web, p)
                          && u in CardUrls(web.searchPages[PageUrl(base, p)])
  {
    var all :- PagesFrom(base, web, 1, maxPage);
    Ok(Dedup(all))
  }

  /** `get_unique_listing_urls`: the harvest of the criteria's search. */
  function GetUniqueListingUrls(c: Criteria, web: Web, maxPage: int): (r: Result<seq<string>>)
    ensures r.Raised? <==> exists p :: 1 <= p <= maxPage && !PageFetched(BuildDriveUrl(c), web, p)
    ensures r.Ok? ==> NoDuplicates(r.value)
    ensures r.Ok? ==> forall u :: u in r.value <==>
              exists p :: 1 <= p <= maxPage && PageFetched(BuildDriveUrl(c), web, p)
                          && u in CardUrls(web.searchPages[PageUrl(BuildDriveUrl(c), p)])
  {
    Harvest(BuildDriveUrl(c), web, maxPage)
  }

  /** Every harvested URL is the site base followed by a link path with
      no query string. */
  lemma HarvestedUrlsClean(c: Criteria, web: Web, maxPage: int, u: string)
    requires GetUniqueListingUrls(c, web, maxPage).Ok?
    requires u in GetUniqueListingUrls(c, web, maxPage).value
    ensures StartsWith(u, DriveBaseUrl) && '?' !in u[|DriveBaseUrl|..]
  {
    var base := BuildDriveUrl(c);
    var p :| 1 <= p <= maxPage && PageFetched(base, web, p)
             && u in CardUrls(web.searchPages[PageUrl(base, p)]);
    var cards := web.searchPages[PageUrl(base, p)];
    var k :| 0 <= k < |cards| && CardYields(cards[k], u);
  }

  /** `s[:n]` with Python's slice bounds: a negative `n` counts from the end. */
  function SliceTo<T>(s: seq<T>, n: int): (r: seq<T>)
    ensures |r| <= |s| && r == s[..|r|]
    ensures n >= 0 ==> |r| == if n <= |s| then n else |s|
    ensures n < 0 ==> |r| == if |s| + n >= 0 then |s| + n else 0
  {
    if n >= 0 then (if n <= |s| then s[..n] else s)
    else if |s| + n >= 0 then s[..|s| + n] else []
  }

  // ---------------------------------------------------------------------
  // The detail loop.

  /** What one URL's request, parse and criteria check leave the loop: the
      record to keep, or nothing when the request or parse raised or the
      record does not match. */
  function Verdict(u: string, c: Criteria, pages: map<string, Document>): (r: Option<Listing>)
    ensures r.Some? <==> ScrapeDetailPage(u, pages).Ok? && MatchesCriteria(ScrapeDetailPage(u, pages).value, c)
    ensures r.Some? ==> r == Some(ScrapeDetailPage(u, pages).value) && r.value.url == u
  {
    match ScrapeDetailPage(u, pages)
    case Ok(l) => if MatchesCriteria(l, c) then Some(l) else None
    case Raised(_) => None
  }

  /** What the loop produced: the kept records, the URL each was scraped
      from, and the URLs whose detail page it requested, in request order. */
  datatype Run = Run(listings: seq<Listing>, kept: seq<string>, fetched: seq<string>)

  /** The `for` loop of `scrape_drive` over `urls`, with `seen` the URLs
      already kept and `verdict` the outcome of each URL. A URL already
      kept is skipped without a request; one that yields nothing is
      requested and skipped. */
  function DetailLoop(urls: seq<string>, verdict: string -> Option<Listing>, seen: set<string>): (r: Run)
    ensures |r.kept| == |r.listings| <= |urls|
    ensures forall k :: 0 <= k < |r.kept| ==>
              r.kept[k] in urls && r.kept[k] !in seen && verdict(r.kept[k]) == Some(r.listings[k])
    ensures NoDuplicates(r.kept)
    ensures forall u :: u in r.fetched <==> u in urls && u !in seen
    decreases |urls|
  {
    if |urls| == 0 then Run([], [], [])
    else
      var u := urls[0];
      if u in seen then DetailLoop(urls[1..], verdict, seen)
      else if verdict(u).Some? then
        var rest := DetailLoop(urls[1..], verdict, seen + {u});
        Run([verdict(u).value] + rest.listings, [u] + rest.kept, [u] + rest.fetched)
      else
        var rest := DetailLoop(urls[1..], verdict, seen);
        Run(rest.listings, rest.kept, [u] + rest.fetched)
  }

  /** `scrape_drive`: harvest, keep the first `maxResults` URLs, scrape
      them in order. A harvest request that raises is not caught. */
  function ScrapeDrive(c: Criteria, web: Web, maxResults: int, maxPage: int): (r: Result<seq<Listing>>)
    ensures r.Raised? <==> GetUniqueListingUrls(c, web, maxPage).Raised?
    ensures r.Ok? ==> forall k :: 0 <= k < |r.value| ==> MatchesCriteria(r.value[k], c)
    ensures r.Ok? && maxResults >= 0 ==> |r.value| <= maxResults
  {
    var urls :- GetUniqueListingUrls(c, web, maxPage);
    Ok(ScrapeRun(c, web, SliceTo(urls, maxResults)).listings)
  }

  /** The loop as `scrape_drive` runs it over `urls`. */
  function ScrapeRun(c: Criteria, web: Web, urls: seq<string>): (r: Run)
    ensures |r.listings| <= |urls|
    ensures forall k :: 0 <= k < |r.listings| ==> MatchesCriteria(r.listings[k], c)
  {
    var verdict := u => Verdict(u, c, web.detailPages);
    var run := DetailLoop(urls, verdict, {});
    assert forall k :: 0 <= k < |run.listings| ==> verdict(run.kept[k]) == Some(run.listings[k]);
    run
  }

  // ---------------------------------------------------------------------
  // Properties of the loop.

  /** `xs` is `ys` with some elements left out. */
  predicate IsSubsequence<T(==)>(xs: seq<T>, ys: seq<T>)
    decreases |ys|
  {
    |xs| == 0
    || (|ys| > 0
        && ((xs[0] == ys[0] && IsSubsequence(xs[1..], ys[1..])) || IsSubsequence(xs, ys[1..])))
  }

  /** The records are kept in the order of their URLs in the input. */
  lemma {:induction false} LoopKeepsOrder(urls: seq<string>, verdict: string -> Option<Listing>, seen: set<string>)
    ensures IsSubsequence(DetailLoop(urls, verdict, seen).kept, urls)
    decreases |urls|
  {
    if |urls| > 0 {
      var u := urls[0];
      var seen' := if u !in seen && verdict(u).Some? then seen + {u} else seen;
      LoopKeepsOrder(urls[1..], verdict, seen');
      var r := DetailLoop(urls, verdict, seen);
      var rest := DetailLoop(urls[1..], verdict, seen');
      if u !in seen && verdict(u).Some? {
        assert r.kept == [u] + rest.kept;
        assert r.kept[1..] == rest.kept;
      } else {
        assert r.kept == rest.kept;
      }
    }
  }

  /** With distinct input URLs none of them already kept, every URL is
      requested once, in input order. */
  lemma {:induction false} LoopFetchesEach(urls: seq<string>, verdict: string -> Option<Listing>, seen: set<string>)
    requires NoDuplicates(urls)
    requires forall k :: 0 <= k < |urls| ==> urls[k] !in seen
    ensures DetailLoop(urls, verdict, seen).fetched == urls
    decreases |urls|
  {
    if |urls| > 0 {
      var u := urls[0];
      var seen' := if verdict(u).Some? then seen + {u} else seen;
      assert forall k :: 0 <= k < |urls[1..]| ==> urls[1..][k] == urls[k + 1];
      LoopFetchesEach(urls[1..], verdict, seen');
      assert urls == [u] + urls[1..];
    }
  }

  /** With distinct input URLs, a URL not already kept is kept exactly
      when its verdict is a record. */
  lemma {:induction false} LoopComplete(urls: seq<string>, verdict: string -> Option<Listing>, seen: set<string>, u: string)
    requires NoDuplicates(urls)
    requires u in urls && u !in seen
    ensures u in DetailLoop(urls, verdict, seen).kept <==> verdict(u).Some?
    decreases |urls|
  {
    var r := DetailLoop(urls, verdict, seen);
    var v := urls[0];
    var seen' := if v !in seen && verdict(v).Some? then seen + {v} else seen;
    var rest := DetailLoop(urls[1..], verdict, seen');
    if u == v {
      if verdict(u).Some? {
        assert r.kept[0] == u;
      } else {
        assert r.kept == rest.kept;
        assert u !in urls[1..];
      }
    } else {
      assert u in urls[1..];
      assert forall k :: 0 <= k < |urls[1..]| ==> urls[1..][k] == urls[k + 1];
      LoopComplete(urls[1..], verdict, seen', u);
      if v !in seen && verdict(v).Some? {
        assert r.kept == [v] + rest.kept;
      } else {
        assert r.kept == rest.kept;
      }
    }
  }

  /** The loop over a concatenation is the loop over the first part, then
      the loop over the second with the first part's kept URLs as seen. */
  lemma {:induction false} LoopAppend(a: seq<string>, b: seq<string>, verdict: string -> Option<Listing>, seen: set<string>)
    ensures var ra := DetailLoop(a, verdict, seen);
            var rb := DetailLoop(b, verdict, seen + set u | u in ra.kept);
            DetailLoop(a + b, verdict, seen) == Run(ra.listings + rb.listings, ra.kept + rb.kept, ra.fetched + rb.fetched)
    decreases |a|
  {
    if |a| == 0 {
      assert a + b == b;
      assert seen + (set x | x in DetailLoop(a, verdict, seen).kept) == seen;
    } else if a[0] !in seen && verdict(a[0]).Some? {
      LoopAppend(a[1..], b, verdict, seen + {a[0]});
      LoopSplitsKept(a, b, verdict, seen);
    } else {
      LoopAppend(a[1..], b, verdict, seen);
      LoopSplitsSkipped(a, b, verdict, seen);
    }
  }

  /** `LoopAppend`'s statement for one `a`. */
  predicate LoopSplits(a: seq<string>, b: seq<string>, verdict: string -> Option<Listing>, seen: set<string>) {
    var ra := DetailLoop(a, verdict, seen);
    var rb := DetailLoop(b, verdict, seen + set u | u in ra.kept);
    DetailLoop(a + b, verdict, seen) == Run(ra.listings + rb.listings, ra.kept + rb.kept, ra.fetched + rb.fetched)
  }

  /** The step of `LoopAppend` when the first URL is kept. */
  lemma LoopSplitsKept(a: seq<string>, b: seq<string>, verdict: string -> Option<Listing>, seen: set<string>)
    requires |a| > 0 && a[0] !in seen && verdict(a[0]).Some?
    requires LoopSplits(a[1..], b, verdict, seen + {a[0]})
    ensures LoopSplits(a, b, verdict, seen)
  {
    var u := a[0];
    assert (a + b)[0] == u && (a + b)[1..] == a[1..] + b;
    var ra := DetailLoop(a, verdict, seen);
    var ra' := DetailLoop(a[1..], verdict, seen + {u});
    var rb := DetailLoop(b, verdict, seen + set x | x in ra.kept);
    var tail := DetailLoop(a[1..] + b, verdict, seen + {u});
    assert ra == Run([verdict(u).value] + ra'.listings, [u] + ra'.kept, [u] + ra'.fetched);
    KeptSet(u, ra'.kept, seen);
    assert DetailLoop(a + b, verdict, seen) == Run([verdict(u).value] + tail.listings, [u] + tail.kept, [u] + tail.fetched);
    AssocPrepend(verdict(u).value, ra'.listings, rb.listings);
    AssocPrepend(u, ra'.kept, rb.kept);
    AssocPrepend(u, ra'.fetched, rb.fetched);
  }

  /** The step of `LoopAppend` when the first URL is not kept. */
  lemma LoopSplitsSkipped(a: seq<string>, b: seq<string>, verdict: string -> Option<Listing>, seen: set<string>)
    requires |a| > 0 && !(a[0] !in seen && verdict(a[0]).Some?)
    requires LoopSplits(a[1..], b, verdict, seen)
    ensures LoopSplits(a, b, verdict, seen)
  {
    var u := a[0];
    assert (a + b)[0] == u && (a + b)[1..] == a[1..] + b;
    var ra := DetailLoop(a, verdict, seen);
    var ra' := DetailLoop(a[1..], verdict, seen);
    var rb := DetailLoop(b, verdict, seen + set x | x in ra.kept);
    var tail := DetailLoop(a[1..] + b, verdict, seen);
    if u in seen {
      assert ra == ra';
      assert DetailLoop(a + b, verdict, seen) == tail;
    } else {
      assert ra == Run(ra'.listings, ra'.kept, [u] + ra'.fetched);
      assert DetailLoop(a + b, verdict, seen) == Run(tail.listings, tail.kept, [u] + tail.fetched);
      AssocPrepend(u, ra'.fetched, rb.fetched);
    }
  }

  lemma KeptSet(u: string, kept: seq<string>, seen: set<string>)
    ensures seen + (set x | x in [u] + kept) == (seen + {u}) + (set x | x in kept)
  {
  }

  lemma AssocPrepend<T>(x: T, ys: seq<T>, zs: seq<T>)
    ensures [x] + (ys + zs) == ([x] + ys) + zs
  {
  }

  /** A URL that yields nothing changes only the request log: the records
      are those of the loop without it. */
  lemma FailureSkipped(a: seq<string>, u: string, b: seq<string>, verdict: string -> Option<Listing>, seen: set<string>)
    requires verdict(u).None?
    ensures DetailLoop(a + [u] + b, verdict, seen).listings == DetailLoop(a + b, verdict, seen).listings
  {
    var ra := DetailLoop(a, verdict, seen);
    var seen' := seen + set x | x in ra.kept;
    LoopAppend(a, [u] + b, verdict, seen);
    LoopAppend(a, b, verdict, seen);
    assert a + [u] + b == a + ([u] + b);
    assert ([u] + b)[1..] == b;
    assert DetailLoop([u] + b, verdict, seen').listings == DetailLoop(b, verdict, seen').listings;
  }

  /** The pipeline over harvested URLs `urls`: exactly the first
      `maxResults` are requested, in order; every record kept is the
      matching record of its own URL; no URL is kept twice; records follow
      the harvested order; and a URL is kept exactly when it is among the
      first `maxResults` and its page yields a matching record. */
  lemma ScrapeRunSpec(c: Criteria, web: Web, urls: seq<string>, maxResults: int)
    requires NoDuplicates(urls)
    ensures var head := SliceTo(urls, maxResults);
            var run := ScrapeRun(c, web, head);
            && run.fetched == head
            && (forall k :: 0 <= k < |run.listings| ==>
                  run.listings[k].url == run.kept[k]
                  && ScrapeDetailPage(run.kept[k], web.detailPages) == Ok(run.listings[k])
                  && MatchesCriteria(run.listings[k], c))
            && NoDuplicates(run.kept)
            && IsSubsequence(run.kept, head)
            && (forall u :: u in run.kept <==>
                  u in head && ScrapeDetailPage(u, web.detailPages).Ok?
                  && MatchesCriteria(ScrapeDetailPage(u, web.detailPages).value, c))
  {
    var head := SliceTo(urls, maxResults);
    var verdict := u => Verdict(u, c, web.detailPages);
    assert forall k :: 0 <= k < |head| ==> head[k] == urls[k];
    assert NoDuplicates(head);
    LoopKeepsOrder(head, verdict, {});
    LoopFetchesEach(head, verdict, {});
    var run := DetailLoop(head, verdict, {});
    forall k | 0 <= k < |run.listings|
      ensures run.listings[k].url == run.kept[k]
              && ScrapeDetailPage(run.kept[k], web.detailPages) == Ok(run.listings[k])
              && MatchesCriteria(run.listings[k], c)
    {
      assert verdict(run.kept[k]) == Some(run.listings[k]);
    }
    forall u | u in head
      ensures u in run.kept <==> ScrapeDetailPage(u, web.detailPages).Ok?
                                 && MatchesCriteria(ScrapeDetailPage(u, web.detailPages).value, c)
    {
      LoopComplete(head, verdict, {}, u);
    }
  }
}
