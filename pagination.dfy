/** The list-page logic the admin and employee tables share: the two pagination
    shapes the backend answers with, their normalisation into one page
    descriptor, the query a list request carries, page clamping, row numbering,
    and the "export all pages" loop that follows the reported page numbers. */
module Pagination {
  import opened Js

  /** The `meta` object of a wrapped response. */
  datatype MetaBlock = MetaBlock(currentPage: Option<int>, lastPage: Option<int>, total: Option<int>,
                                 from: Option<int>, to: Option<int>)

  /** The `links` object of a wrapped response. */
  datatype LinksBlock = LinksBlock(prev: Option<string>, next: Option<string>)

  /** The JSON body of a list response: a bare array, or an object that carries
      either the classic flat fields or `data` with `meta` and `links`. A `null`
      body behaves as an object with no fields. */
  datatype Body<T> =
    | BareArray(elements: seq<T>)
    | Object(data: Option<seq<T>>,
             currentPage: Option<int>, lastPage: Option<int>, total: Option<int>,
             from: Option<int>, to: Option<int>,
             prevPageUrl: Option<string>, nextPageUrl: Option<string>,
             meta: Option<MetaBlock>, links: Option<LinksBlock>)

  /** One list request's outcome. */
  datatype Response<T> = Ok(body: Body<T>) | Failed(error: HttpError)

  /** The normalised pagination fields (a classic body's fields are copied as
      they are, so any of them may be missing). */
  datatype PageMeta = PageMeta(currentPage: Option<int>, lastPage: Option<int>, total: Option<int>,
                               from: Option<int>, to: Option<int>,
                               prevPageUrl: Option<string>, nextPageUrl: Option<string>)

  /** The page descriptor every table works from. */
  datatype Page<T> = Page(items: seq<T>, meta: PageMeta)

  /** `Array.isArray(data) ? data : data?.data || []`. */
  function ItemsOf<T>(body: Body<T>): seq<T> {
    match body
    case BareArray(xs) => xs
    case Object(data, _, _, _, _, _, _, _, _, _) => Coalesce(data, [])
  }

  /** `data?.current_page != null`: the classic flat shape. */
  predicate IsClassic<T>(body: Body<T>) {
    body.Object? && body.currentPage.Some?
  }

  /** `data?.meta`, with every field missing when there is none. */
  function MetaOf<T>(body: Body<T>): MetaBlock {
    if body.Object? && body.meta.Some? then body.meta.value
    else MetaBlock(None, None, None, None, None)
  }

  /** `data?.links`, with both links missing when there are none. */
  function LinksOf<T>(body: Body<T>): LinksBlock {
    if body.Object? && body.links.Some? then body.links.value
    else LinksBlock(None, None)
  }

  /** `normalizePagination(data, fallbackPage)` of the settlements table, which
      the loans table repeats inline in `fetchLoans`. */
  function Normalize<T>(body: Body<T>, fallbackPage: int): (p: Page<T>)
    ensures p.items == ItemsOf(body)
    ensures IsClassic(body) ==>
      p.meta == PageMeta(body.currentPage, body.lastPage, body.total, body.from, body.to,
                         body.prevPageUrl, body.nextPageUrl)
    ensures !IsClassic(body) ==>
      && p.meta.currentPage == Some(Coalesce(MetaOf(body).currentPage, fallbackPage))
      && p.meta.lastPage == Some(Coalesce(MetaOf(body).lastPage, 1))
      && p.meta.total == Some(Coalesce(MetaOf(body).total, |p.items|))
      && p.meta.from == Some(Coalesce(MetaOf(body).from, 1))
      && p.meta.to == Some(Coalesce(MetaOf(body).to, |p.items|))
      && p.meta.prevPageUrl == LinksOf(body).prev
      && p.meta.nextPageUrl == LinksOf(body).next
  {
    var items := ItemsOf(body);
    if IsClassic(body) then
      Page(items, PageMeta(body.currentPage, body.lastPage, body.total, body.from, body.to,
                           body.prevPageUrl, body.nextPageUrl))
    else
      var m := MetaOf(body);
      var l := LinksOf(body);
      Page(items, PageMeta(Some(Coalesce(m.currentPage, fallbackPage)), Some(Coalesce(m.lastPage, 1)),
                           Some(Coalesce(m.total, |items|)), Some(Coalesce(m.from, 1)),
                           Some(Coalesce(m.to, |items|)), l.prev, l.next))
  }

  /** A page as the server means it, independent of the shape it is sent in. */
  datatype LogicalPage<T> = LogicalPage(items: seq<T>, currentPage: int, lastPage: int, total: int,
                                        from: int, to: int, prev: Option<string>, next: Option<string>)

  /** The classic flat encoding of a logical page. */
  function AsClassic<T>(lp: LogicalPage<T>): Body<T> {
    Object(Some(lp.items), Some(lp.currentPage), Some(lp.lastPage), Some(lp.total), Some(lp.from),
           Some(lp.to), lp.prev, lp.next, None, None)
  }

  /** The `data` + `meta` + `links` encoding of a logical page. */
  function AsWrapped<T>(lp: LogicalPage<T>): Body<T> {
    Object(Some(lp.items), None, None, None, None, None, None, None,
           Some(MetaBlock(Some(lp.currentPage), Some(lp.lastPage), Some(lp.total), Some(lp.from), Some(lp.to))),
           Some(LinksBlock(lp.prev, lp.next)))
  }

  /** The descriptor a logical page should normalise to. */
  function Descriptor<T>(lp: LogicalPage<T>): Page<T> {
    Page(lp.items, PageMeta(Some(lp.currentPage), Some(lp.lastPage), Some(lp.total), Some(lp.from),
                            Some(lp.to), lp.prev, lp.next))
  }

  /** Both encodings of the same page normalise to the same descriptor,
      whatever page was requested. */
  lemma ShapesAgree<T>(lp: LogicalPage<T>, requested: int)
    ensures Normalize(AsClassic(lp), requested) == Descriptor(lp)
    ensures Normalize(AsWrapped(lp), requested) == Descriptor(lp)
  {
  }

  /** A bare array is one whole page: every item, total = item count, last page 1,
      and the requested page number as the current page. */
  lemma BareArrayIsOnePage<T>(xs: seq<T>, requested: int)
    ensures Normalize(BareArray(xs), requested)
      == Page(xs, PageMeta(Some(requested), Some(1), Some(|xs|), Some(1), Some(|xs|), None, None))
  {
  }

  // ---- The savings tables' own fallbacks ----

  /** The savings tables keep only these three fields. */
  datatype SavingsMeta = SavingsMeta(currentPage: int, lastPage: int, total: int)

  /** Top-level field reads of the savings tables (`data?.current_page` etc.). */
  function TopCurrent<T>(body: Body<T>): Option<int> {
    if body.Object? then body.currentPage else None
  }

  function TopLast<T>(body: Body<T>): Option<int> {
    if body.Object? then body.lastPage else None
  }

  function TopTotal<T>(body: Body<T>): Option<int> {
    if body.Object? then body.total else None
  }

  /** The savings tables' fetch: items as above; `current_page ?? page`,
      `last_page ?? 1`, `total ?? items.length`; on failure no rows and {1, 1, 0}. */
  function SavingsFetch<T>(r: Response<T>, page: int): (res: (seq<T>, SavingsMeta))
    ensures r.Failed? ==> res == ([], SavingsMeta(1, 1, 0))
    ensures r.Ok? ==> res.0 == ItemsOf(r.body)
    ensures r.Ok? ==> res.1.currentPage == Coalesce(TopCurrent(r.body), page)
    ensures r.Ok? ==> res.1.lastPage == Coalesce(TopLast(r.body), 1)
    ensures r.Ok? ==> res.1.total == Coalesce(TopTotal(r.body), |res.0|)
  {
    match r
    case Failed(_) => ([], SavingsMeta(1, 1, 0))
    case Ok(body) =>
      var items := ItemsOf(body);
      (items, SavingsMeta(Coalesce(TopCurrent(body), page), Coalesce(TopLast(body), 1),
                          Coalesce(TopTotal(body), |items|)))
  }

  /** The savings tables read no `meta` object: a wrapped answer always looks
      like the only page, numbered as requested, whatever its `meta` says. */
  lemma SavingsIgnoreWrappedMeta<T>(lp: LogicalPage<T>, page: int)
    ensures SavingsFetch(Ok(AsWrapped(lp)), page) == (lp.items, SavingsMeta(page, 1, |lp.items|))
  {
  }

  // ---- Query parameters ----

  /** The parameters of a list request: the page, then each filter that is set. */
  datatype Query = Query(page: int, filters: seq<(string, string)>)

  /** Drops the filters whose value is empty, keeping the others in order. */
  function SetFilters(candidates: seq<(string, string)>): (r: seq<(string, string)>)
    ensures forall kv :: kv in r <==> kv in candidates && kv.1 != ""
    ensures |r| <= |candidates|
  {
    if candidates == [] then []
    else (if candidates[0].1 != "" then [candidates[0]] else []) + SetFilters(candidates[1..])
  }

  /** `{ page }` followed by `if (value) p.key = value` for each filter. */
  function QueryOf(page: int, candidates: seq<(string, string)>): (q: Query)
    ensures q.page == page
    ensures forall kv :: kv in q.filters <==> kv in candidates && kv.1 != ""
  {
    Query(page, SetFilters(candidates))
  }

  // ---- Paging controls and row numbers ----

  /** The "previous" button: `Math.max(1, p - 1)`. */
  function PrevPage(p: int): (r: int)
    ensures r >= 1
    ensures p > 1 ==> r == p - 1
  {
    if p - 1 > 1 then p - 1 else 1
  }

  /** The "next" button: `Math.min(last_page, p + 1)`. */
  function NextPage(p: int, lastPage: int): (r: int)
    ensures r <= lastPage
    ensures p < lastPage ==> r == p + 1
  {
    if lastPage < p + 1 then lastPage else p + 1
  }

  /** Within [1, last_page] the buttons never leave it. */
  lemma PagingStaysInRange(p: int, lastPage: int)
    requires 1 <= p <= lastPage
    ensures 1 <= PrevPage(p) <= lastPage
    ensures 1 <= NextPage(p, lastPage) <= lastPage
  {
  }

  /** The savings tables' row number: `(current_page - 1) * 20 + (idx + 1)`. */
  function RowNumber(currentPage: int, idx: nat): int {
    (currentPage - 1) * 20 + idx + 1
  }

  /** Row numbers of 20-row pages follow on from one page to the next and never
      repeat across pages. */
  lemma {:induction false} RowNumbersAreOrdered(p: int, i: nat, q: int, j: nat)
    requires i < 20 && j < 20
    requires p < q || (p == q && i < j)
    ensures RowNumber(p, i) < RowNumber(q, j)
  {
    if p < q {
      assert (q - 1) * 20 - (p - 1) * 20 == (q - p) * 20;
      assert (q - p) * 20 >= 20;
    }
  }

  // ---- "Export all pages" (the do-while loop of both admin tables) ----

  /** From one answer, the loop's next page (`current_page ?? p` plus one) and
      its last page (`last_page ?? 1`), read from the top level for a classic
      answer and from `meta` otherwise. */
  function Advance<T>(body: Body<T>, p: int): (int, int) {
    if IsClassic(body) then (body.currentPage.value + 1, Coalesce(body.lastPage, 1))
    else (Coalesce(MetaOf(body).currentPage, p) + 1, Coalesce(MetaOf(body).lastPage, 1))
  }

  /** How an export run ends: all items collected with the pages asked for, an
      aborting failure, or the given answers ran out before the loop stopped. */
  datatype CrawlResult<T> = Collected(items: seq<T>, pages: seq<int>) | Aborted(error: HttpError) | Unfinished(pages: seq<int>)

  /** The loop from the request for page `p` on, the k-th request answered by `answers[k]`. */
  function CrawlFrom<T>(answers: seq<Response<T>>, p: int, acc: seq<T>, asked: seq<int>): CrawlResult<T>
    decreases |answers|
  {
    if answers == [] then Unfinished(asked)
    else match answers[0]
      case Failed(e) => Aborted(e)
      case Ok(body) =>
        var (next, last) := Advance(body, p);
        if next <= last then CrawlFrom(answers[1..], next, acc + ItemsOf(body), asked + [p])
        else Collected(acc + ItemsOf(body), asked + [p])
  }

  /** The whole loop, starting at page 1. */
  function Crawl<T>(answers: seq<Response<T>>): CrawlResult<T> {
    CrawlFrom(answers, 1, [], [])
  }

  /** `handleDownloadAll`'s do-while loop: ask for page `p`, append its items,
      move to the reported current page + 1, stop once that exceeds `last_page`. */
  method CollectAllPages<T>(answers: seq<Response<T>>) returns (r: CrawlResult<T>)
    ensures r == Crawl(answers)
  {
    var all: seq<T> := [];
    var asked: seq<int> := [];
    var p := 1;
    var last := 1;
    var k := 0;
    while true
      invariant 0 <= k <= |answers|
      invariant CrawlFrom(answers[k..], p, all, asked) == Crawl(answers)
      decreases |answers| - k
    {
      if k == |answers| {
        return Unfinished(asked);
      }
      assert answers[k..][0] == answers[k] && answers[k..][1..] == answers[k + 1..];
      match answers[k]
      case Failed(e) =>
        return Aborted(e);
      case Ok(body) =>
        all := all + ItemsOf(body);
        asked := asked + [p];
        var (next, l) := Advance(body, p);
        p, last := next, l;
        k := k + 1;
        if !(p <= last) {
          return Collected(all, asked);
        }
    }
  }

  /** What an "export all" button ends with: a file handed to the browser, an
      alert, or nothing yet because the given answers ran out. */
  datatype ExportOutcome = Download(fileName: string, content: string) | Alert(message: string) | NotFinished

  /** The answer to the request for `page` reports `page` as current (or lets it
      default to the requested page) and `lastPage` as the last page. */
  predicate Serves<T>(r: Response<T>, page: int, lastPage: int) {
    r.Ok? && Advance(r.body, page) == (page + 1, lastPage)
  }

  /** The items an answer carries (none for a failure). */
  function ItemsOfAnswer<T>(r: Response<T>): seq<T> {
    if r.Ok? then ItemsOf(r.body) else []
  }

  /** The items of the first `n` answers, in order. */
  function ItemsUpTo<T>(answers: seq<Response<T>>, n: nat): seq<T>
    requires n <= |answers|
  {
    if n == 0 then [] else ItemsUpTo(answers, n - 1) + ItemsOfAnswer(answers[n - 1])
  }

  /** 1, 2, ..., n. */
  function PagesUpTo(n: nat): (r: seq<int>)
    ensures |r| == n
    ensures forall k :: 0 <= k < n ==> r[k] == k + 1
  {
    if n == 0 then [] else PagesUpTo(n - 1) + [n]
  }

  lemma {:induction false} CrawlFromConsistent<T>(answers: seq<Response<T>>, lastPage: nat, k: nat)
    requires 1 <= lastPage <= |answers|
    requires k < lastPage
    requires forall j :: 0 <= j < lastPage ==> Serves(answers[j], j + 1, lastPage)
    ensures CrawlFrom(answers[k..], k + 1, ItemsUpTo(answers, k), PagesUpTo(k))
         == Collected(ItemsUpTo(answers, lastPage), PagesUpTo(lastPage))
    decreases lastPage - k
  {
    var rest := answers[k..];
    assert rest[0] == answers[k] && rest[1..] == answers[k + 1..];
    assert Serves(answers[k], k + 1, lastPage);
    assert ItemsUpTo(answers, k + 1) == ItemsUpTo(answers, k) + ItemsOf(answers[k].body);
    assert PagesUpTo(k + 1) == PagesUpTo(k) + [k + 1];
    if k + 1 < lastPage {
      CrawlFromConsistent(answers, lastPage, k + 1);
    }
  }

  /** Against a server that answers every page 1..last_page as asked, the export
      asks for exactly pages 1..last_page, in order, and collects their items in
      page order. */
  lemma CrawlVisitsEveryPage<T>(answers: seq<Response<T>>, lastPage: nat)
    requires 1 <= lastPage <= |answers|
    requires forall j :: 0 <= j < lastPage ==> Serves(answers[j], j + 1, lastPage)
    ensures Crawl(answers) == Collected(ItemsUpTo(answers, lastPage), PagesUpTo(lastPage))
  {
    CrawlFromConsistent(answers, lastPage, 0);
    assert answers[0..] == answers;
  }

  /** The first request is always for page 1: a run that gets past its first
      answer has asked for page 1 first. */
  lemma CrawlStartsAtPageOne<T>(answers: seq<Response<T>>)
    requires answers != [] && answers[0].Ok?
    ensures Crawl(answers).Collected? ==> |Crawl(answers).pages| >= 1 && Crawl(answers).pages[0] == 1
    ensures Crawl(answers).Unfinished? ==> |Crawl(answers).pages| >= 1 && Crawl(answers).pages[0] == 1
  {
    var body := answers[0].body;
    var (next, last) := Advance(body, 1);
    var none: seq<T> := [];
    var noPages: seq<int> := [];
    assert none + ItemsOf(body) == ItemsOf(body);
    assert noPages + [1] == [1];
    if next <= last {
      assert Crawl(answers) == CrawlFrom(answers[1..], next, ItemsOf(body), [1]);
      CrawlKeepsAsked(answers[1..], next, ItemsOf(body), [1]);
    }
  }

  /** The pages already asked for stay at the front of the record. */
  lemma {:induction false} CrawlKeepsAsked<T>(answers: seq<Response<T>>, p: int, acc: seq<T>, asked: seq<int>)
    ensures CrawlFrom(answers, p, acc, asked).Collected? ==> asked <= CrawlFrom(answers, p, acc, asked).pages
    ensures CrawlFrom(answers, p, acc, asked).Unfinished? ==> asked <= CrawlFrom(answers, p, acc, asked).pages
    decreases |answers|
  {
    if answers != [] && answers[0].Ok? {
      var (next, last) := Advance(answers[0].body, p);
      if next <= last {
        CrawlKeepsAsked(answers[1..], next, acc + ItemsOf(answers[0].body), asked + [p]);
      }
    }
  }
}
