/**
 * The fetcher: lists closed pull requests newest-first, page after page,
 * upserting each page's batch into the `pulls` table, and stops early once
 * it reaches numbers at or below the cached frontier (the largest number
 * stored before the run), unless a full refresh was asked for.
 *
 * The network is an input: `responses[k - 1]` is what the request for page
 * k returns. A page past the end of `responses` is an empty page, which is
 * what the API answers for a page after the last one.
 */
module Fetcher {
  import opened Wrappers
  import opened Timestamps
  import opened PullStore

  /** One element of a page, with its timestamps already parsed. */
  datatype PullItem = PullItem(number: int,
                               mergedAt: Option<DateTime>,
                               createdAt: Option<DateTime>,
                               closedAt: Option<DateTime>,
                               state: Option<string>)

  /**
   * The answer to one page request: a failing HTTP status, or the page's
   * items together with whether its Link header announces a next page.
   */
  datatype Response = HttpError(status: int) | Page(items: seq<PullItem>, hasNext: bool)

  /** How a run ends: normally after `requests` page requests, or by an HTTP error on page `requests`. */
  datatype FetchResult = Completed(requests: nat, totalNew: nat) | Aborted(requests: nat, status: int)

  /** The table a run leaves behind, and how the run ended. */
  datatype Outcome = Outcome(rows: Rows, result: FetchResult)

  function ResponseTo(responses: seq<Response>, page: nat): Response
    requires page >= 1
  {
    if page <= |responses| then responses[page - 1] else Page([], false)
  }

  // ---------------------------------------------------------------------
  // One page: the scan that builds the batch

  /** The stop rule: an item at or below the cached frontier is already cached. */
  predicate AlreadyCached(item: PullItem, frontier: Option<int>) {
    frontier.Some? && item.number <= frontier.value
  }

  /**
   * The row stored for a listed item: its fields as listed, flagged merged
   * iff it carries a merge time, so the loader selects it exactly then.
   */
  function ToRecord(item: PullItem): (r: PullRecord)
    ensures r.number == item.number && r.mergedAt == item.mergedAt
    ensures r.createdAt == item.createdAt && r.closedAt == item.closedAt && r.state == item.state
    ensures r.merged <==> item.mergedAt.Some?
    ensures Selected(r) <==> item.mergedAt.Some?
  {
    PullRecord(item.number, item.mergedAt, item.createdAt, item.closedAt, item.state,
               item.mergedAt.Some?)
  }

  function Records(items: seq<PullItem>): (ps: seq<PullRecord>)
    ensures |ps| == |items|
    ensures forall i :: 0 <= i < |items| ==> ps[i] == ToRecord(items[i])
  {
    seq(|items|, i requires 0 <= i < |items| => ToRecord(items[i]))
  }

  /** How many leading items the scan keeps: up to the first already-cached item. */
  function CutIndex(items: seq<PullItem>, frontier: Option<int>): (n: nat)
    ensures n <= |items|
    ensures forall i :: 0 <= i < n ==> !AlreadyCached(items[i], frontier)
    ensures n < |items| ==> AlreadyCached(items[n], frontier)
    decreases |items|
  {
    if items == [] || AlreadyCached(items[0], frontier) then 0
    else 1 + CutIndex(items[1..], frontier)
  }

  /** Whether the scan of a page stopped on an already-cached item. */
  predicate HitsFrontier(items: seq<PullItem>, frontier: Option<int>) {
    CutIndex(items, frontier) < |items|
  }

  /** The batch a page contributes: the rows of the items before the first cached one. */
  function PageBatch(items: seq<PullItem>, frontier: Option<int>): seq<PullRecord> {
    Records(items[..CutIndex(items, frontier)])
  }

  /**
   * What a page's batch holds: one row per leading item, up to the first
   * cached one, each `merged` exactly when it has a merge time and each
   * numbered above the frontier; the whole page when nothing is cached.
   */
  lemma PageBatchFacts(items: seq<PullItem>, frontier: Option<int>)
    ensures var batch := PageBatch(items, frontier);
            && |batch| <= |items|
            && (forall i :: 0 <= i < |batch| ==> batch[i] == ToRecord(items[i]))
            && (forall i :: 0 <= i < |batch| ==> batch[i].merged == batch[i].mergedAt.Some?)
            && (frontier.Some? ==> forall i :: 0 <= i < |batch| ==> batch[i].number > frontier.value)
            && (!HitsFrontier(items, frontier) <==> |batch| == |items|)
            && (frontier.None? ==> batch == Records(items))
  {
    assert frontier.None? ==> items[..CutIndex(items, frontier)] == items;
  }

  /**
   * The `for pr in prs` scan of one page: collects rows until the first
   * already-cached item, and reports whether it stopped there.
   */
  method BuildBatch(items: seq<PullItem>, frontier: Option<int>)
    returns (batch: seq<PullRecord>, stopDueToCache: bool)
    ensures batch == PageBatch(items, frontier)
    ensures stopDueToCache == HitsFrontier(items, frontier)
  {
    batch := [];
    stopDueToCache := false;
    for i := 0 to |items|
      invariant i <= CutIndex(items, frontier)
      invariant batch == Records(items[..i])
    {
      var pr := items[i];
      if AlreadyCached(pr, frontier) {
        stopDueToCache := true;
        return;
      }
      batch := batch + [ToRecord(pr)];
    }
  }

  // ---------------------------------------------------------------------
  // The page loop

  /** Whether the loop requests another page after this response. */
  predicate Continues(r: Response, frontier: Option<int>) {
    r.Page? && r.items != [] && !HitsFrontier(r.items, frontier) && r.hasNext
  }

  /** The batch a response contributes; an error contributes none. */
  function BatchOf(r: Response, frontier: Option<int>): seq<PullRecord> {
    if r.Page? then PageBatch(r.items, frontier) else []
  }

  /** The frontier a run uses: none on a full refresh, else the largest stored number. */
  function Frontier(stored: Rows, fullRefresh: bool): Option<int> {
    if fullRefresh then None else MaxNumber(stored)
  }

  /** The table the page loop starts from: emptied on a full refresh. */
  function StartRows(stored: Rows, fullRefresh: bool): Rows {
    if fullRefresh then map[] else stored
  }

  /** The first page from `page` on after which the loop requests nothing more. */
  function StopPage(responses: seq<Response>, frontier: Option<int>, page: nat): (p: nat)
    requires page >= 1
    ensures page <= p
    decreases |responses| + 1 - page
  {
    if Continues(ResponseTo(responses, page), frontier) then StopPage(responses, frontier, page + 1)
    else page
  }

  /** Every page from `page` up to the stop page continues, and the stop page does not. */
  lemma {:induction false} StopPageFacts(responses: seq<Response>, frontier: Option<int>, page: nat)
    requires page >= 1
    ensures var p := StopPage(responses, frontier, page);
            && (forall j :: page <= j < p ==> Continues(ResponseTo(responses, j), frontier))
            && !Continues(ResponseTo(responses, p), frontier)
    decreases |responses| + 1 - page
  {
    if Continues(ResponseTo(responses, page), frontier) {
      StopPageFacts(responses, frontier, page + 1);
    }
  }

  /** The batches of pages lo..hi-1, concatenated in page order. */
  function Batches(responses: seq<Response>, frontier: Option<int>, lo: nat, hi: nat): seq<PullRecord>
    requires 1 <= lo <= hi
    decreases hi - lo
  {
    if lo == hi then []
    else BatchOf(ResponseTo(responses, lo), frontier) + Batches(responses, frontier, lo + 1, hi)
  }

  lemma AppendAssoc(a: seq<PullRecord>, b: seq<PullRecord>, c: seq<PullRecord>)
    ensures a + (b + c) == a + b + c
  {
  }

  /** The batches up to page hi are those up to hi - 1 followed by page hi's. */
  lemma {:induction false} BatchesSnoc(responses: seq<Response>, frontier: Option<int>, lo: nat, hi: nat)
    requires 1 <= lo <= hi
    ensures Batches(responses, frontier, lo, hi + 1)
            == Batches(responses, frontier, lo, hi) + BatchOf(ResponseTo(responses, hi), frontier)
    decreases hi - lo
  {
    if lo < hi {
      BatchesSnoc(responses, frontier, lo + 1, hi);
      AppendAssoc(BatchOf(ResponseTo(responses, lo), frontier), Batches(responses, frontier, lo + 1, hi),
                  BatchOf(ResponseTo(responses, hi), frontier));
    }
  }

  /** How the loop ends on its last page `page`, given that page's response. */
  function EndOf(r: Response, page: nat, totalNew: nat): FetchResult {
    match r
    case HttpError(status) => Aborted(page, status)
    case Page(_, _) => Completed(page, totalNew)
  }

  /**
   * A whole run of fetch_and_cache_prs against the stored table: it
   * requests pages 1..p, p being the first page after which the loop goes
   * no further; the batches of those pages are upserted, in page order,
   * into the start table; the run aborts when page p answered with an
   * error and otherwise reports the number of rows upserted.
   */
  function FetchAndCache(stored: Rows, responses: seq<Response>, fullRefresh: bool): (o: Outcome)
    ensures o.result.requests >= 1
    ensures forall j :: 1 <= j < o.result.requests ==> Continues(ResponseTo(responses, j), Frontier(stored, fullRefresh))
    ensures !Continues(ResponseTo(responses, o.result.requests), Frontier(stored, fullRefresh))
    ensures o.result.Aborted? <==> ResponseTo(responses, o.result.requests).HttpError?
    ensures o.result.Aborted? ==> o.result.status == ResponseTo(responses, o.result.requests).status
  {
    var frontier := Frontier(stored, fullRefresh);
    var p := StopPage(responses, frontier, 1);
    StopPageFacts(responses, frontier, 1);
    var done := Batches(responses, frontier, 1, p + 1);
    Outcome(Upsert(StartRows(stored, fullRefresh), done), EndOf(ResponseTo(responses, p), p, |done|))
  }

  /**
   * fetch_and_cache_prs: the page loop. Each page's batch is upserted
   * before the stop tests, so a page that hits the frontier or has no next
   * page is stored; an error or an empty page stores nothing.
   */
  method FetchAndCachePrs(table: PullsTable, responses: seq<Response>, fullRefresh: bool)
    returns (result: FetchResult)
    requires table.Valid()
    modifies table
    ensures table.Valid()
    ensures Outcome(table.rows, result) == FetchAndCache(old(table.rows), responses, fullRefresh)
  {
    var maxCachedNumber := if fullRefresh then None else MaxNumber(table.rows);
    if fullRefresh {
      table.DeleteAll();
    }
    ghost var start := table.rows;
    var page: nat := 1;
    var totalNew: nat := 0;
    while true
      invariant page >= 1 && table.Valid()
      invariant maxCachedNumber == Frontier(old(table.rows), fullRefresh)
      invariant start == StartRows(old(table.rows), fullRefresh)
      invariant forall j :: 1 <= j < page ==> Continues(ResponseTo(responses, j), maxCachedNumber)
      invariant table.rows == Upsert(start, Batches(responses, maxCachedNumber, 1, page))
      invariant totalNew == |Batches(responses, maxCachedNumber, 1, page)|
      decreases |responses| + 1 - page
    {
      var resp := ResponseTo(responses, page);
      ghost var done := Batches(responses, maxCachedNumber, 1, page);
      BatchesSnoc(responses, maxCachedNumber, 1, page);
      if resp.HttpError? {
        StopPageIsFirst(responses, maxCachedNumber, page);
        assert done + [] == done;
        return Aborted(page, resp.status);
      }
      var prs := resp.items;
      if prs == [] {
        StopPageIsFirst(responses, maxCachedNumber, page);
        PageBatchFacts(prs, maxCachedNumber);
        assert done + [] == done;
        return Completed(page, totalNew);
      }
      var batch, stopDueToCache := BuildBatch(prs, maxCachedNumber);
      table.InsertPrs(batch);
      UpsertConcat(start, done, batch);
      totalNew := totalNew + |batch|;
      if stopDueToCache {
        StopPageIsFirst(responses, maxCachedNumber, page);
        return Completed(page, totalNew);
      }
      if !resp.hasNext {
        StopPageIsFirst(responses, maxCachedNumber, page);
        return Completed(page, totalNew);
      }
      page := page + 1;
    }
  }

  /** The stop page is the first page that does not continue, whichever way it is found. */
  lemma StopPageIsFirst(responses: seq<Response>, frontier: Option<int>, k: nat)
    requires k >= 1
    requires forall j :: 1 <= j < k ==> Continues(ResponseTo(responses, j), frontier)
    requires !Continues(ResponseTo(responses, k), frontier)
    ensures StopPage(responses, frontier, 1) == k
  {
    StopPageFacts(responses, frontier, 1);
    var p := StopPage(responses, frontier, 1);
  }

  /**
   * An HTTP error on page k, reached because pages 1..k-1 all continued,
   * ends the run on page k with the batches of pages 1..k-1 already upserted.
   */
  lemma AbortedRunKeepsEarlierPages(stored: Rows, responses: seq<Response>, fullRefresh: bool, k: nat)
    requires k >= 1
    requires forall j :: 1 <= j < k ==> Continues(ResponseTo(responses, j), Frontier(stored, fullRefresh))
    requires ResponseTo(responses, k).HttpError?
    ensures var o := FetchAndCache(stored, responses, fullRefresh);
            && o.result == Aborted(k, ResponseTo(responses, k).status)
            && o.rows == Upsert(StartRows(stored, fullRefresh), Batches(responses, Frontier(stored, fullRefresh), 1, k))
  {
    var frontier := Frontier(stored, fullRefresh);
    StopPageIsFirst(responses, frontier, k);
    BatchesSnoc(responses, frontier, 1, k);
    assert Batches(responses, frontier, 1, k) + [] == Batches(responses, frontier, 1, k);
  }

  /** Every row of the batch has a number above `f`. */
  predicate AllAbove(batch: seq<PullRecord>, f: int) {
    forall i :: 0 <= i < |batch| ==> batch[i].number > f
  }

  lemma AllAboveConcat(a: seq<PullRecord>, b: seq<PullRecord>, f: int)
    requires AllAbove(a, f) && AllAbove(b, f)
    ensures AllAbove(a + b, f)
  {
    forall i | 0 <= i < |a + b| ensures (a + b)[i].number > f {
      if i >= |a| {
        assert (a + b)[i] == b[i - |a|];
      }
    }
  }

  lemma {:induction false} BatchesAboveFrontier(responses: seq<Response>, f: int, lo: nat, hi: nat)
    requires 1 <= lo <= hi
    ensures AllAbove(Batches(responses, Some(f), lo, hi), f)
    decreases hi - lo
  {
    if lo < hi {
      BatchesAboveFrontier(responses, f, lo + 1, hi);
      var head := BatchOf(ResponseTo(responses, lo), Some(f));
      AllAboveConcat(head, Batches(responses, Some(f), lo + 1, hi), f);
    }
  }

  /**
   * An incremental run never rewrites a cached row, and every row it adds
   * has a number above every number cached before the run: no item at or
   * below the frontier is processed.
   */
  lemma IncrementalRunKeepsCachedRows(stored: Rows, responses: seq<Response>)
    ensures var o := FetchAndCache(stored, responses, false);
            && (forall k :: k in stored ==> k in o.rows && o.rows[k] == stored[k])
            && (forall k, c :: k in o.rows && k !in stored && c in stored ==> c < k)
  {
    var o := FetchAndCache(stored, responses, false);
    var frontier := Frontier(stored, false);
    var p := StopPage(responses, frontier, 1);
    var done := Batches(responses, frontier, 1, p + 1);
    if frontier.None? {
      assert stored == map[];
      forall k | k in o.rows ensures k !in stored || k in stored { }
    } else {
      var f := frontier.value;
      BatchesAboveFrontier(responses, f, 1, p + 1);
      assert AllAbove(done, f);
      forall k | k in stored
        ensures k in o.rows && o.rows[k] == stored[k]
      {
        UpsertAt(stored, done, k);
      }
      forall k, c | k in o.rows && k !in stored && c in stored
        ensures c < k
      {
        UpsertAt(stored, done, k);
      }
    }
  }

  function ItemsOf(r: Response): seq<PullItem> {
    if r.Page? then r.items else []
  }

  /** The items of pages lo..hi-1, in page order. */
  function PageItems(responses: seq<Response>, lo: nat, hi: nat): seq<PullItem>
    requires 1 <= lo <= hi
    decreases hi - lo
  {
    if lo == hi then []
    else ItemsOf(ResponseTo(responses, lo)) + PageItems(responses, lo + 1, hi)
  }

  lemma RecordsAppend(a: seq<PullItem>, b: seq<PullItem>)
    ensures Records(a + b) == Records(a) + Records(b)
  {
  }

  /** Without a frontier a page's batch is the rows of all its items. */
  lemma BatchOfWithoutFrontier(r: Response)
    ensures BatchOf(r, None) == Records(ItemsOf(r))
  {
    if r.Page? {
      PageBatchFacts(r.items, None);
    }
  }

  /** Without a frontier nothing is cut off: each page's batch is all of its items. */
  lemma {:induction false} BatchesWithoutFrontier(responses: seq<Response>, lo: nat, hi: nat)
    requires 1 <= lo <= hi
    ensures Batches(responses, None, lo, hi) == Records(PageItems(responses, lo, hi))
    decreases hi - lo
  {
    if lo < hi {
      BatchesWithoutFrontier(responses, lo + 1, hi);
      BatchOfWithoutFrontier(ResponseTo(responses, lo));
      RecordsAppend(ItemsOf(ResponseTo(responses, lo)), PageItems(responses, lo + 1, hi));
    }
  }

  /**
   * A full refresh does not depend on what was cached: the table ends up
   * holding exactly the rows of the items received, each number with the
   * row of its last item.
   */
  lemma FullRefreshRefetchesEverything(stored: Rows, responses: seq<Response>)
    ensures var o := FetchAndCache(stored, responses, true);
            var fetched := PageItems(responses, 1, StopPage(responses, None, 1) + 1);
            && o == FetchAndCache(map[], responses, true)
            && o.rows == Upsert(map[], Records(fetched))
            && (forall k :: k in o.rows <==> exists i :: 0 <= i < |fetched| && fetched[i].number == k)
            && (forall k :: k in o.rows ==> o.rows[k] == ToRecord(fetched[LastIndexOf(Records(fetched), k)]))
  {
    var o := FetchAndCache(stored, responses, true);
    var p := StopPage(responses, None, 1);
    var fetched := PageItems(responses, 1, p + 1);
    BatchesWithoutFrontier(responses, 1, p + 1);
    forall k
      ensures (k in o.rows <==> exists i :: 0 <= i < |fetched| && fetched[i].number == k)
      ensures k in o.rows ==> o.rows[k] == ToRecord(fetched[LastIndexOf(Records(fetched), k)])
    {
      UpsertAt(map[], Records(fetched), k);
    }
  }
}
