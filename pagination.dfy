/**
 * The page loop of a search, as a specification: which URLs it requests,
 * when it pauses, and which records it gathers. Page outcomes come from an
 * oracle `fetch` from URLs to outcomes, timestamps from `clock(page)`.
 */
module Pagination {
  import opened Wrappers
  import opened Listing
  import opened Page
  import opened Query
  import opened Fields

  /** What the loop does to the outside world: request a URL, or sleep between pages. */
  datatype Action = Get(url: PageAddress) | Sleep

  /** The records page `page` yields. */
  function PageResult(selected: seq<FieldId>, params: Params, fetch: PageAddress -> FetchOutcome,
                      clock: int -> string, page: int): seq<Record>
  {
    PageProducts(fetch(PageUrl(params, page)), selected, clock(page))
  }

  /** Page numbers to the records each page yields. */
  function PageResults(selected: seq<FieldId>, params: Params, fetch: PageAddress -> FetchOutcome,
                       clock: int -> string): int -> seq<Record>
  {
    page => PageResult(selected, params, fetch, clock, page)
  }

  /** The records of pages 1..pages, concatenated in page order. */
  function Gathered(results: int -> seq<Record>, pages: nat): seq<Record>
  {
    if pages == 0 then [] else Gathered(results, pages - 1) + results(pages)
  }

  /** The records gathered through page n are those through page n - 1, then page n's. */
  lemma GatheredStep(selected: seq<FieldId>, params: Params, fetch: PageAddress -> FetchOutcome,
                     clock: int -> string, page: nat, products: seq<Record>)
    requires page >= 1
    requires products == PageProducts(fetch(PageUrl(params, page)), selected, clock(page))
    ensures Gathered(PageResults(selected, params, fetch, clock), page)
         == Gathered(PageResults(selected, params, fetch, clock), page - 1) + products
    ensures PageResults(selected, params, fetch, clock)(page) == products
  {
  }

  /** Setting `_pgn` again replaces the previous page number: the parameters are always those of page 1 with `_pgn` = page. */
  lemma PageParamUpdate(initial: Params, params: Params, page: int)
    requires page == 1 ==> params == initial
    requires page > 1 ==> params == SetParam(initial, Pgn, Int(page - 1))
    requires page >= 1
    ensures SetParam(params, Pgn, Int(page)) == SetParam(initial, Pgn, Int(page))
  {
    if page > 1 {
      SetParamTwice(initial, Pgn, Int(page - 1), Int(page));
    }
  }

  /** How many pages the loop requests: one when page 1 is empty, all of them otherwise. */
  function PagesAttempted(maxPages: int, firstEmpty: bool): nat
  {
    if maxPages < 1 then 0 else if firstEmpty then 1 else maxPages
  }

  /** Page numbers to the URL of each page. */
  function PageUrlOf(params: Params): int -> PageAddress
  {
    page => PageUrl(params, page)
  }

  /** Pages 1..pages, each requested and followed by a pause. */
  function Rounds(urls: int -> PageAddress, pages: nat): seq<Action>
  {
    if pages == 0 then [] else Rounds(urls, pages - 1) + [Get(urls(pages)), Sleep]
  }

  /** Everything the loop does: the break on an empty first page comes before its pause. */
  function SearchLog(params: Params, maxPages: int, firstEmpty: bool): seq<Action>
  {
    if maxPages < 1 then []
    else if firstEmpty then [Get(PageUrl(params, 1))]
    else Rounds(PageUrlOf(params), maxPages)
  }

  /** The URLs a log requests, in order. */
  function Requests(log: seq<Action>): seq<PageAddress>
  {
    if log == [] then []
    else Requests(log[..|log| - 1]) + (match log[|log| - 1] case Get(u) => [u] case Sleep => [])
  }

  /** The number of pauses in a log. */
  function Sleeps(log: seq<Action>): nat
  {
    if log == [] then 0 else Sleeps(log[..|log| - 1]) + (if log[|log| - 1] == Sleep then 1 else 0)
  }

  /** The URLs of pages 1..pages, in order. */
  function PageUrls(urls: int -> PageAddress, pages: nat): (us: seq<PageAddress>)
    ensures |us| == pages
    ensures forall i :: 0 <= i < pages ==> us[i] == urls(i + 1)
  {
    if pages == 0 then [] else PageUrls(urls, pages - 1) + [urls(pages)]
  }

  lemma {:induction false} RequestsAppend(a: seq<Action>, b: seq<Action>)
    ensures Requests(a + b) == Requests(a) + Requests(b)
    ensures Sleeps(a + b) == Sleeps(a) + Sleeps(b)
    decreases |b|
  {
    if b == [] {
      assert a + b == a;
    } else {
      var init := b[..|b| - 1];
      assert (a + b)[..|a + b| - 1] == a + init;
      assert (a + b)[|a + b| - 1] == b[|b| - 1];
      RequestsAppend(a, init);
    }
  }

  /**
   * Where the page loop ends: after an empty page 1 with one request and no
   * pause, otherwise after all pages; either way the loop's records and log
   * are the ones the search promises.
   */
  lemma SearchEnd(results: int -> seq<Record>, params: Params, maxPages: int, page: int, stoppedEarly: bool,
                  products: seq<Record>, log: seq<Action>)
    requires stoppedEarly ==>
      && page == 1 <= maxPages && results(1) == []
      && products == Gathered(results, 1) && log == [Get(PageUrl(params, 1))]
    requires !stoppedEarly ==>
      && 1 <= page && maxPages < page
      && (maxPages >= 1 ==> page == maxPages + 1 && results(1) != [])
      && (maxPages < 1 ==> page == 1)
      && products == Gathered(results, page - 1) && log == Rounds(PageUrlOf(params), page - 1)
    ensures var firstEmpty := maxPages >= 1 && results(1) == [];
      && products == Gathered(results, PagesAttempted(maxPages, firstEmpty))
      && log == SearchLog(params, maxPages, firstEmpty)
  {
    if !stoppedEarly && maxPages >= 1 {
      var pages: nat := maxPages;
      assert page - 1 == pages;
    }
  }

  /** Full rounds hold two actions per page. */
  lemma {:induction false} RoundsLength(urls: int -> PageAddress, pages: nat)
    ensures |Rounds(urls, pages)| == 2 * pages
  {
    if pages > 0 {
      RoundsLength(urls, pages - 1);
    }
  }

  /** Full rounds alternate a request for page i + 1 and a pause. */
  lemma {:induction false} RoundsLayout(urls: int -> PageAddress, pages: nat, i: nat)
    requires i < pages
    ensures |Rounds(urls, pages)| == 2 * pages
    ensures Rounds(urls, pages)[2 * i] == Get(urls(i + 1))
    ensures Rounds(urls, pages)[2 * i + 1] == Sleep
  {
    RoundsLength(urls, pages);
    RoundsLength(urls, pages - 1);
    if i < pages - 1 {
      RoundsLayout(urls, pages - 1, i);
    }
  }

  /**
   * Full rounds request pages 1..pages in order and pause exactly once after
   * each of them, the last one included.
   */
  lemma {:induction false} RoundsRequests(urls: int -> PageAddress, pages: nat)
    ensures Requests(Rounds(urls, pages)) == PageUrls(urls, pages)
    ensures Sleeps(Rounds(urls, pages)) == pages
  {
    if pages > 0 {
      var u := urls(pages);
      RoundsRequests(urls, pages - 1);
      RequestsAppend(Rounds(urls, pages - 1), [Get(u), Sleep]);
      var pair: seq<Action> := [Get(u), Sleep];
      assert pair[..1] == [Get(u)];
      assert [Get(u)][..0] == [];
      assert Requests([Get(u)]) == [u];
      assert Requests(pair) == [u];
      assert Sleeps([Get(u)]) == 0;
      assert Sleeps(pair) == 1;
    }
  }

  /**
   * A search requests exactly one page when page 1 is empty and exactly
   * `maxPages` pages otherwise, page i with `_pgn` = i; it pauses after every
   * page except an empty first one.
   */
  lemma SearchAttempts(params: Params, maxPages: int, firstEmpty: bool)
    ensures Requests(SearchLog(params, maxPages, firstEmpty)) == PageUrls(PageUrlOf(params), PagesAttempted(maxPages, firstEmpty))
    ensures Sleeps(SearchLog(params, maxPages, firstEmpty)) == if maxPages >= 1 && firstEmpty then 0 else PagesAttempted(maxPages, firstEmpty)
  {
    if maxPages >= 1 && !firstEmpty {
      RoundsRequests(PageUrlOf(params), maxPages);
    } else if maxPages >= 1 {
      var log := [Get(PageUrl(params, 1))];
      assert log[..0] == [];
      assert Requests(log) == [PageUrl(params, 1)];
      assert PageUrls(PageUrlOf(params), 1) == [PageUrl(params, 1)];
    }
  }

  /**
   * Whether a page is requested depends on page 1 alone: after a non-empty
   * first page, an empty or failed later page does not stop the loop.
   */
  lemma LaterPagesAlwaysRequested(params: Params, maxPages: int, page: int)
    requires 1 <= page <= maxPages
    ensures PageUrl(params, page) in Requests(SearchLog(params, maxPages, false))
  {
    SearchAttempts(params, maxPages, false);
    assert PageUrls(PageUrlOf(params), maxPages)[page - 1] == PageUrl(params, page);
  }

  /** The records of pages m+1..n, concatenated in page order. */
  function GatheredAfter(results: int -> seq<Record>, m: nat, n: nat): seq<Record>
    decreases n
  {
    if n <= m then [] else GatheredAfter(results, m, n - 1) + results(n)
  }

  /**
   * The records of earlier pages are kept, unchanged and first, whatever
   * later pages yield: later pages only append.
   */
  lemma {:induction false} GatheredPrefix(results: int -> seq<Record>, m: nat, n: nat)
    requires m <= n
    ensures Gathered(results, n) == Gathered(results, m) + GatheredAfter(results, m, n)
  {
    var g := Gathered(results, m);
    if m == n {
      assert g + [] == g;
    } else {
      GatheredPrefix(results, m, n - 1);
      var a := GatheredAfter(results, m, n - 1);
      assert (g + a) + results(n) == g + (a + results(n));
    }
  }

  /** A page that fails adds nothing: the records so far stay as they were. */
  lemma FailedPageAddsNothing(selected: seq<FieldId>, params: Params, fetch: PageAddress -> FetchOutcome,
                              clock: int -> string, page: nat)
    requires page >= 1 && fetch(PageUrl(params, page)).Failed?
    ensures Gathered(PageResults(selected, params, fetch, clock), page)
         == Gathered(PageResults(selected, params, fetch, clock), page - 1)
  {
    assert PageResults(selected, params, fetch, clock)(page) == [];
  }

  /** Every gathered record comes from one of the pages 1..pages. */
  lemma {:induction false} GatheredFromPages(results: int -> seq<Record>, pages: nat, p: Record)
    requires p in Gathered(results, pages)
    ensures exists page :: 1 <= page <= pages && p in results(page)
  {
    if p !in results(pages) {
      GatheredFromPages(results, pages - 1, p);
    }
  }

  /**
   * Every gathered record was extracted, with its page's timestamp, from a
   * listing node of a page that was fetched and parsed.
   */
  lemma GatheredFromListings(selected: seq<FieldId>, params: Params, fetch: PageAddress -> FetchOutcome,
                             clock: int -> string, pages: nat, p: Record)
    requires p in Gathered(PageResults(selected, params, fetch, clock), pages)
    ensures exists page, x ::
      && 1 <= page <= pages
      && fetch(PageUrl(params, page)).Parsed?
      && x in Items(fetch(PageUrl(params, page)))
      && Extract(x, selected, clock(page)) == Some(p)
  {
    GatheredFromPages(PageResults(selected, params, fetch, clock), pages, p);
    var page :| 1 <= page <= pages && p in PageResults(selected, params, fetch, clock)(page);
    var outcome := fetch(PageUrl(params, page));
    assert p in PageProducts(outcome, selected, clock(page));
    AcceptedMembers(Items(outcome), selected, clock(page));
    var x :| x in Items(outcome) && Extract(x, selected, clock(page)) == Some(p);
  }
}
