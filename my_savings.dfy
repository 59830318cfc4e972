/** The employee's own savings table: one page of their savings fetched with
    the month / type filters, the yearly dividend of each year on the page,
    and CSV exports of the current page or of every page. */
module MySavings {
  import opened Js
  import opened Csv
  import opened Pagination
  import opened Dividends

  /** A savings record as listed: `month`, `type` and `Number(r.amount ?? 0)`. */
  datatype MySaving = MySaving(month: Option<string>, kind: Option<string>, amount: Num)

  /** The year a row asks a dividend for: its month must be truthy and start
      with four digits. */
  function NeededYear(r: MySaving): (y: Option<string>)
    ensures y.Some? ==> Truthy(r.month) && FourDigits(y.value) && y.value == YearOf(r.month)
    ensures Truthy(r.month) && FourDigits(YearOf(r.month)) ==> y.Some?
  {
    if !Truthy(r.month) then None
    else
      var y := Take(r.month.value, 4);
      if FourDigits(y) then Some(y) else None
  }

  /** The years of the rows, in row order, repeats included. */
  function NeededYears(rows: seq<MySaving>): (ys: seq<string>)
    ensures forall i :: 0 <= i < |rows| && NeededYear(rows[i]).Some? ==> NeededYear(rows[i]).value in ys
  {
    if rows == [] then []
    else
      var n := |rows| - 1;
      var front := NeededYears(rows[..n]);
      assert forall i :: 0 <= i < n ==> rows[..n][i] == rows[i];
      match NeededYear(rows[n])
      case Some(y) => front + [y]
      case None => front
  }

  /** Only the rows' own years are collected. */
  lemma {:induction false} NeededYearsOnlyNeeded(rows: seq<MySaving>)
    ensures forall y :: y in NeededYears(rows) ==> exists i :: 0 <= i < |rows| && NeededYear(rows[i]) == Some(y)
  {
    if rows != [] {
      var n := |rows| - 1;
      var front := NeededYears(rows[..n]);
      NeededYearsOnlyNeeded(rows[..n]);
      forall y | y in NeededYears(rows) ensures exists i :: 0 <= i < |rows| && NeededYear(rows[i]) == Some(y) {
        if y in front {
          var i :| 0 <= i < n && NeededYear(rows[..n][i]) == Some(y);
          assert rows[..n][i] == rows[i];
        } else {
          assert NeededYear(rows[n]) == Some(y);
        }
      }
    }
  }

  /** Each requested year is sent as `Number(y)`, its four-digit value. */
  lemma YearRequestValue(y: string)
    requires FourDigits(y)
    ensures NumberOf(y) == Finite(DigitsValue(y) as real)
    ensures DigitsValue(y) <= 9999
  {
    NumberOfDigits(y);
    DigitsValueBound(y);
    assert Pow10(4) == 10000;
  }

  /** The header of the current-page export. */
  const PageHeader: seq<string> := ["No", "Bulan", "Jenis", "Jumlah", "Bagi Hasil Tahunan"]

  /** The header of the all-pages export. */
  const AllHeader: seq<string> := ["No", "Bulan", "Jenis", "Jumlah"]

  lemma HeadersArePlain()
    ensures forall i :: 0 <= i < |PageHeader| ==> !NeedsQuotes(PageHeader[i])
    ensures forall i :: 0 <= i < |AllHeader| ==> !NeedsQuotes(AllHeader[i])
  {
    forall i | 0 <= i < |PageHeader| ensures !NeedsQuotes(PageHeader[i]) {
      assert PageHeader[i] in PageHeader;
    }
    forall i | 0 <= i < |AllHeader| ensures !NeedsQuotes(AllHeader[i]) {
      assert AllHeader[i] in AllHeader;
    }
  }

  /** `divCache[yr] ?? 0`. */
  function CachedOrZero(cache: Cache, y: string): Num {
    if y in cache then cache[y] else Finite(0.0)
  }

  /** The five values of the row at `idx` of the current page, before escaping;
      `show` is `String(...)` of a number. */
  function PageCells(r: MySaving, currentPage: int, idx: nat, cache: Cache, show: Num -> string): (c: seq<string>)
    ensures |c| == |PageHeader|
    ensures c[0] == IntToString(RowNumber(currentPage, idx))
    ensures c[1] == MonthLabel(r.month) && c[2] == Coalesce(r.kind, "")
    ensures c[3] == show(r.amount) && c[4] == show(CachedOrZero(cache, YearOf(r.month)))
  {
    [IntToString(RowNumber(currentPage, idx)), MonthLabel(r.month), Coalesce(r.kind, ""),
     show(r.amount), show(CachedOrZero(cache, YearOf(r.month)))]
  }

  function PageCellRows(rows: seq<MySaving>, currentPage: int, cache: Cache, show: Num -> string): (r: seq<seq<string>>)
    ensures |r| == |rows|
    ensures forall i :: 0 <= i < |rows| ==> r[i] == PageCells(rows[i], currentPage, i, cache, show)
  {
    if rows == [] then []
    else PageCellRows(rows[..|rows| - 1], currentPage, cache, show)
         + [PageCells(rows[|rows| - 1], currentPage, |rows| - 1, cache, show)]
  }

  /** The current-page export: header, then one record per row numbered from
      the page's first row number. */
  function PageCsv(rows: seq<MySaving>, currentPage: int, cache: Cache, show: Num -> string): string {
    WithHeader(PageHeader, PageCellRows(rows, currentPage, cache, show))
  }

  /** The current-page export reads back as its header and each row's values. */
  lemma PageCsvRoundTrip(rows: seq<MySaving>, currentPage: int, cache: Cache, show: Num -> string)
    ensures ReadRecords(PageCsv(rows, currentPage, cache, show))
         == [PageHeader] + PageCellRows(rows, currentPage, cache, show)
  {
    HeadersArePlain();
    WithHeaderRoundTrip(PageHeader, PageCellRows(rows, currentPage, cache, show));
  }

  /** The four values of the `i`-th exported row of the all-pages export. */
  function AllCells(r: MySaving, i: nat, show: Num -> string): (c: seq<string>)
    ensures |c| == |AllHeader|
    ensures c[0] == NatToString(i + 1)
    ensures c[1] == MonthLabel(r.month) && c[2] == Coalesce(r.kind, "") && c[3] == show(r.amount)
  {
    [NatToString(i + 1), MonthLabel(r.month), Coalesce(r.kind, ""), show(r.amount)]
  }

  function AllCellRows(rows: seq<MySaving>, show: Num -> string): (r: seq<seq<string>>)
    ensures |r| == |rows|
    ensures forall i :: 0 <= i < |rows| ==> r[i] == AllCells(rows[i], i, show)
  {
    if rows == [] then []
    else AllCellRows(rows[..|rows| - 1], show) + [AllCells(rows[|rows| - 1], |rows| - 1, show)]
  }

  /** The items of the pages `lo..hi` whose request succeeded, in page order;
      a failed page adds nothing. */
  function Gathered(answerFor: int -> Response<MySaving>, lo: int, hi: int): seq<MySaving>
    decreases hi - lo
  {
    if hi < lo then [] else Gathered(answerFor, lo, hi - 1) + ItemsOfAnswer(answerFor(hi))
  }

  /** `first.data?.last_page ?? 1`. */
  function LastPageOf(first: Body<MySaving>): int {
    Coalesce(TopLast(first), 1)
  }

  /** The rows of the all-pages export: the first page's, then those of pages
      2..last that were answered. */
  function AllRows(first: Body<MySaving>, answerFor: int -> Response<MySaving>): seq<MySaving> {
    ItemsOf(first) + Gathered(answerFor, 2, LastPageOf(first))
  }

  /** `exportCsvAllPages`: a failed first request ends in the alert; otherwise
      the file of every answered page's rows, numbered from 1. */
  function ExportAllSpec(first: Response<MySaving>, answerFor: int -> Response<MySaving>, show: Num -> string): ExportOutcome {
    match first
    case Failed(_) => Alert("Gagal export semua halaman.")
    case Ok(body) => Download("simpanan-semua-halaman.csv", WithHeader(AllHeader, AllCellRows(AllRows(body, answerFor), show)))
  }

  /** The all-pages file reads back as the header and the rows numbered 1..n. */
  lemma ExportAllRoundTrip(body: Body<MySaving>, answerFor: int -> Response<MySaving>, show: Num -> string)
    ensures var rows := AllRows(body, answerFor);
      && ExportAllSpec(Ok(body), answerFor, show).Download?
      && ReadRecords(ExportAllSpec(Ok(body), answerFor, show).content) == [AllHeader] + AllCellRows(rows, show)
      && forall i :: 0 <= i < |rows| ==> AllCellRows(rows, show)[i][0] == NatToString(i + 1)
  {
    HeadersArePlain();
    WithHeaderRoundTrip(AllHeader, AllCellRows(AllRows(body, answerFor), show));
  }

  /** When every page 2..last answers, nothing is skipped: the export holds
      every page's items in page order. */
  lemma {:induction false} GatheredAllAnswered(answerFor: int -> Response<MySaving>, lo: int, hi: int, pages: seq<seq<MySaving>>)
    requires lo <= hi + 1 && |pages| == hi - lo + 1
    requires forall p :: lo <= p <= hi ==> answerFor(p).Ok? && ItemsOf(answerFor(p).body) == pages[p - lo]
    ensures Gathered(answerFor, lo, hi) == Flatten(pages)
    decreases hi - lo
  {
    if hi >= lo {
      GatheredAllAnswered(answerFor, lo, hi - 1, pages[..|pages| - 1]);
      FlattenSnoc(pages[..|pages| - 1], pages[|pages| - 1]);
      assert pages[..|pages| - 1] + [pages[|pages| - 1]] == pages;
    }
  }

  function Flatten(pages: seq<seq<MySaving>>): seq<MySaving> {
    if pages == [] then [] else pages[0] + Flatten(pages[1..])
  }

  lemma {:induction false} FlattenSnoc(pages: seq<seq<MySaving>>, last: seq<MySaving>)
    ensures Flatten(pages + [last]) == Flatten(pages) + last
  {
    if pages == [] {
      assert [] + [last] == [last];
      assert Flatten([last]) == last + Flatten([]);
    } else {
      assert (pages + [last])[1..] == pages[1..] + [last];
      FlattenSnoc(pages[1..], last);
    }
  }

  /** A first page in the wrapped shape has no top-level `last_page`, so only
      that page is exported whatever its `meta.last_page` says. */
  lemma ExportAllReadsOnlyTopLevelLastPage(lp: LogicalPage<MySaving>, answerFor: int -> Response<MySaving>)
    ensures AllRows(AsWrapped(lp), answerFor) == lp.items
  {
    assert Gathered(answerFor, 2, 1) == [];
  }

  /** One step of the years loop: a cached year changes nothing. */
  lemma YearsStepCached(before: seq<string>, y: string, cache: Cache)
    requires y in cache
    ensures Distinct(Uncached(before + [y], cache)) == Distinct(Uncached(before, cache))
  {
    UncachedSnoc(before, y, cache);
    assert Uncached(before, cache) + [] == Uncached(before, cache);
  }

  /** One step of the years loop: a missing year joins the list unless listed. */
  lemma YearsStepMissing(before: seq<string>, y: string, cache: Cache)
    requires y !in cache
    ensures var years := Distinct(Uncached(before, cache));
      Distinct(Uncached(before + [y], cache)) == if y in years then years else years + [y]
  {
    UncachedSnoc(before, y, cache);
    DistinctSnoc(Uncached(before, cache), y);
  }

  /** The years of the first `i + 1` rows: those of the first `i`, then row `i`'s. */
  lemma NeededYearsStep(rows: seq<MySaving>, i: nat)
    requires i < |rows|
    ensures NeededYears(rows[..i + 1])
         == NeededYears(rows[..i]) + (if NeededYear(rows[i]).Some? then [NeededYear(rows[i]).value] else [])
  {
    var p := rows[..i + 1];
    assert p[..i] == rows[..i];
    assert p[i] == rows[i];
  }

  /** The turn of the years loop at row `i`: the row's year `w` joins the
      list when it is wanted, not cached and not yet listed. */
  lemma YearsLoopStepAt(rows: seq<MySaving>, i: nat, w: Option<string>, cache: Cache, years: seq<string>)
    requires i < |rows| && w == NeededYear(rows[i])
    requires years == Distinct(Uncached(NeededYears(rows[..i]), cache))
    ensures Distinct(Uncached(NeededYears(rows[..i + 1]), cache))
         == if w.Some? && w.value !in cache && w.value !in years then years + [w.value] else years
  {
    var before := NeededYears(rows[..i]);
    NeededYearsStep(rows, i);
    if w.Some? {
      if w.value in cache {
        YearsStepCached(before, w.value, cache);
      } else {
        YearsStepMissing(before, w.value, cache);
      }
    } else {
      assert before + [] == before;
    }
  }

  /** The loop of the dividend effect over the rows. */
  method YearsToFetch(rows: seq<MySaving>, cache: Cache) returns (years: seq<string>)
    ensures years == Distinct(Uncached(NeededYears(rows), cache))
  {
    years := [];
    for i := 0 to |rows|
      invariant years == Distinct(Uncached(NeededYears(rows[..i]), cache))
    {
      var wanted := NeededYear(rows[i]);
      YearsLoopStepAt(rows, i, wanted, cache, years);
      if wanted.Some? && wanted.value !in cache && wanted.value !in years {
        years := years + [wanted.value];
      }
    }
    assert rows[..|rows|] == rows;
  }

  /** The loop over pages 2..last of the all-pages export. */
  method CollectPages(first: Body<MySaving>, answerFor: int -> Response<MySaving>) returns (all: seq<MySaving>)
    ensures all == AllRows(first, answerFor)
  {
    all := ItemsOf(first);
    var last := LastPageOf(first);
    if last > 1 {
      var p := 2;
      while p <= last
        invariant 2 <= p <= last + 1
        invariant all == ItemsOf(first) + Gathered(answerFor, 2, p - 1)
        decreases last - p
      {
        match answerFor(p) {
          case Ok(body) =>
            all := all + ItemsOf(body);
          case Failed(_) =>
        }
        p := p + 1;
      }
    }
  }

  /** The rows of the all-pages export, numbered from 1. */
  method NumberRows(all: seq<MySaving>, show: Num -> string) returns (cells: seq<seq<string>>)
    ensures cells == AllCellRows(all, show)
  {
    cells := [];
    for i := 0 to |all|
      invariant cells == AllCellRows(all[..i], show)
    {
      assert all[..i + 1][..i] == all[..i];
      cells := cells + [AllCells(all[i], i, show)];
    }
    assert all[..|all|] == all;
  }

  class MySavingsTable {
    var rows: seq<MySaving>
    var loading: bool
    var filterMonth: string
    var filterType: string
    var page: int
    var meta: SavingsMeta
    var divCache: Cache

    constructor ()
      ensures rows == [] && !loading && page == 1 && meta == SavingsMeta(1, 1, 0)
      ensures filterMonth == "" && filterType == "" && divCache == map[]
    {
      rows := [];
      loading := false;
      filterMonth := "";
      filterType := "";
      page := 1;
      meta := SavingsMeta(1, 1, 0);
      divCache := map[];
    }

    /** `queryParams`: the page, and each filter only when it is set. */
    function RequestQuery(): (q: Query)
      reads this
      ensures q.page == page
      ensures forall kv :: kv in q.filters <==> kv in [("month", filterMonth), ("type", filterType)] && kv.1 != ""
    {
      QueryOf(page, [("month", filterMonth), ("type", filterType)])
    }

    /** Settles the fetch of the current query: the rows and the top-level
        pagination fields, or an empty first page when the request failed. */
    method Load(answer: Response<MySaving>)
      modifies this`loading, this`rows, this`meta
      ensures (rows, meta) == SavingsFetch(answer, old(page))
      ensures !loading && page == old(page) && divCache == old(divCache)
      ensures filterMonth == old(filterMonth) && filterType == old(filterType)
    {
      loading := true;
      var fetched := SavingsFetch(answer, page);
      rows := fetched.0;
      meta := fetched.1;
      loading := false;
    }

    /** Changing a filter brings the table back to page 1. */
    method SetFilterMonth(m: string)
      modifies this`filterMonth, this`page
      ensures filterMonth == m && page == 1
      ensures filterType == old(filterType) && rows == old(rows) && meta == old(meta) && divCache == old(divCache)
    {
      filterMonth := m;
      page := 1;
    }

    method SetFilterType(t: string)
      modifies this`filterType, this`page
      ensures filterType == t && page == 1
      ensures filterMonth == old(filterMonth) && rows == old(rows) && meta == old(meta) && divCache == old(divCache)
    {
      filterType := t;
      page := 1;
    }

    predicate PrevEnabled()
      reads this
    {
      meta.currentPage > 1 && !loading
    }

    predicate NextEnabled()
      reads this
    {
      meta.currentPage < meta.lastPage && !loading
    }

    method Prev()
      requires PrevEnabled()
      modifies this`page
      ensures page == PrevPage(old(page)) && page >= 1
      ensures rows == old(rows) && meta == old(meta)
    {
      page := PrevPage(page);
    }

    method Next()
      requires NextEnabled()
      modifies this`page
      ensures page == NextPage(old(page), meta.lastPage) && page <= meta.lastPage
      ensures rows == old(rows) && meta == old(meta)
    {
      page := NextPage(page, meta.lastPage);
    }

    /** The loop of the dividend effect: each four-digit year of the rows with
        no cached dividend, once, in first-seen order. These are the jobs of
        the shared plan, although the cache test comes before the dedupe. */
    method CollectYears() returns (years: seq<string>)
      ensures years == Jobs(NeededYears(rows), divCache)
    {
      years := YearsToFetch(rows, divCache);
      DistinctUncachedCommute(NeededYears(rows), divCache);
    }

    /** Settles the dividend requests: each year gets its answer, 0 for a failure. */
    method StoreDividends(years: seq<string>, answers: seq<Answer>)
      requires |answers| == |years|
      modifies this`divCache
      ensures divCache == Merged(old(divCache), years, answers)
      ensures rows == old(rows) && meta == old(meta) && page == old(page)
    {
      divCache := Merge(divCache, years, answers);
    }

    /** `dividendForYear(y)`: the cached value, or nothing yet ("…"). */
    function DividendForYear(y: string): (d: Option<Num>)
      reads this
      ensures d.Some? <==> y in divCache
      ensures d.Some? ==> d.value == divCache[y]
    {
      if y in divCache then Some(divCache[y]) else None
    }

    /** `exportCsvCurrentPage`. */
    method DownloadCurrent(show: Num -> string) returns (file: ExportOutcome)
      ensures file == Download("simpanan-halaman-" + IntToString(meta.currentPage) + ".csv",
                               PageCsv(rows, meta.currentPage, divCache, show))
    {
      var cells: seq<seq<string>> := [];
      for idx := 0 to |rows|
        invariant cells == PageCellRows(rows[..idx], meta.currentPage, divCache, show)
      {
        assert rows[..idx + 1][..idx] == rows[..idx];
        cells := cells + [PageCells(rows[idx], meta.currentPage, idx, divCache, show)];
      }
      assert rows[..|rows|] == rows;
      file := Download("simpanan-halaman-" + IntToString(meta.currentPage) + ".csv",
                       WithHeader(PageHeader, cells));
    }

    /** `exportCsvAllPages`, page `p` answered by `answerFor(p)` (the current
        filters with that page). */
    method ExportAllPages(first: Response<MySaving>, answerFor: int -> Response<MySaving>, show: Num -> string)
      returns (file: ExportOutcome)
      ensures file == ExportAllSpec(first, answerFor, show)
    {
      if first.Failed? {
        return Alert("Gagal export semua halaman.");
      }
      var all := CollectPages(first.body, answerFor);
      var cells := NumberRows(all, show);
      file := Download("simpanan-semua-halaman.csv", WithHeader(AllHeader, cells));
    }
  }
}
