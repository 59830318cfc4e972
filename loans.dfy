/** The admin loans table: its rows, CSV export, status badge, filters (applied
    on demand), paging and the approve/reject flow. */
module Loans {
  import opened Js
  import opened Csv
  import opened Pagination
  import opened ListFilter

  /** One loan application as the table reads it; scalars as `String(value)` text. */
  datatype Loan = Loan(
    id: Option<string>, submittedAt: Option<Timestamp>, userName: Option<string>,
    amount: Option<string>, phone: Option<string>, address: Option<string>, status: Option<string>)

  function StatusOf(l: Loan): Option<string> { l.status }

  function SubmittedAt(l: Loan): Option<Timestamp> { l.submittedAt }

  /** The row filter of this table: status and the month of `submitted_at`. */
  function Shown(rows: seq<Loan>, f: Filters): seq<Loan> {
    Displayed(rows, StatusOf, SubmittedAt, f)
  }

  /** `badgeForStatus`: one class per known status, the plain badge otherwise. */
  function Badge(status: Option<string>): (r: string)
    ensures status == Some("applied") <==> r == "badge badge-warning"
    ensures status == Some("approved") <==> r == "badge badge-info"
    ensures status == Some("rejected") <==> r == "badge badge-error"
    ensures status == Some("paid") <==> r == "badge badge-success"
    ensures r == "badge" <==> status !in {Some("applied"), Some("approved"), Some("rejected"), Some("paid")}
  {
    match status
    case Some("applied") => "badge badge-warning"
    case Some("approved") => "badge badge-info"
    case Some("rejected") => "badge badge-error"
    case Some("paid") => "badge badge-success"
    case _ => "badge"
  }

  /** Approve and reject are enabled only for an applied loan. */
  predicate CanDecide(l: Loan) {
    l.status == Some("applied")
  }

  const Header: seq<string> :=
    ["ID", "Tanggal Pengajuan", "Nama Karyawan", "Besar Pinjaman (IDR)", "Nomor Telepon", "Alamat", "Status"]

  /** The seven values of one exported row, before escaping. */
  function Cells(l: Loan): (c: seq<string>)
    ensures |c| == |Header|
    ensures c[0] == Coalesce(l.id, "") && c[1] == IsoDate(l.submittedAt)
    ensures c[2] == Coalesce(l.userName, "") && c[3] == Coalesce(l.amount, "")
    ensures c[4] == Coalesce(l.phone, "") && c[5] == Coalesce(l.address, "")
    ensures c[6] == Coalesce(l.status, "")
  {
    [ Coalesce(l.id, ""), IsoDate(l.submittedAt), Coalesce(l.userName, ""), Coalesce(l.amount, ""),
      Coalesce(l.phone, ""), Coalesce(l.address, ""), Coalesce(l.status, "") ]
  }

  function CellRows(list: seq<Loan>): (r: seq<seq<string>>)
    ensures |r| == |list|
    ensures forall i :: 0 <= i < |list| ==> r[i] == Cells(list[i])
  {
    if list == [] then [] else [Cells(list[0])] + CellRows(list[1..])
  }

  /** `toCSV`: the header joined as is, then one escaped record per row. */
  function ToCsv(list: seq<Loan>): string {
    WithHeader(Header, CellRows(list))
  }

  /** No header name has a character that needs quoting. */
  lemma HeaderIsPlain()
    ensures forall i :: 0 <= i < |Header| ==> !NeedsQuotes(Header[i])
  {
    forall i | 0 <= i < |Header| ensures !NeedsQuotes(Header[i]) {
      assert Header[i] in Header;
    }
  }

  /** The export reads back as the header followed by each loan's values, in
      the order of the loans. */
  lemma ToCsvRoundTrip(list: seq<Loan>)
    ensures ReadRecords(ToCsv(list)) == [Header] + CellRows(list)
  {
    HeaderIsPlain();
    WithHeaderRoundTrip(Header, CellRows(list));
  }

  /** The filter parameters a loans request may carry. */
  function FilterParams(f: Filters): seq<(string, string)> {
    [("status", f.status), ("month", f.month)]
  }

  /** `handleDownloadAll` after its loop: the filtered loans as CSV, or the alert. */
  function ExportAll(answers: seq<Response<Loan>>, f: Filters): ExportOutcome {
    match Crawl(answers)
    case Collected(items, _) => Download("pinjaman_semua" + Suffix(f) + ".csv", ToCsv(Shown(items, f)))
    case Aborted(e) => Alert(LoadErrorMessage(e, "Gagal mengunduh CSV"))
    case Unfinished(_) => NotFinished
  }

  /** Against a server that serves pages 1..last as asked, the export holds
      exactly the filtered loans of all those pages, in page order. */
  lemma ExportAllCoversEveryPage(answers: seq<Response<Loan>>, lastPage: nat, f: Filters)
    requires 1 <= lastPage <= |answers|
    requires forall j :: 0 <= j < lastPage ==> Serves(answers[j], j + 1, lastPage)
    ensures ExportAll(answers, f)
         == Download("pinjaman_semua" + Suffix(f) + ".csv", ToCsv(Shown(ItemsUpTo(answers, lastPage), f)))
  {
    CrawlVisitsEveryPage(answers, lastPage);
  }

  /** The requests "Reset" issues, as written: `fetchLoans(1)` runs with the
      filters of the render the button belongs to, before the cleared filters
      take effect; the page change (if any) then fetches page 1 unfiltered. */
  function ResetRequests(before: Filters, page: int): seq<Query> {
    [QueryOf(1, FilterParams(before))] + (if page != 1 then [QueryOf(1, FilterParams(Filters("", "")))] else [])
  }

  /** The last request "Reset" issues carries no filter exactly when the page
      was not already 1 or no filter was set. */
  lemma ResetLastRequest(before: Filters, page: int)
    ensures var rs := ResetRequests(before, page);
      rs[|rs| - 1].filters == [] <==> page != 1 || !Active(before)
  {
    var rs := ResetRequests(before, page);
    if page == 1 && Active(before) {
      if before.status != "" {
        assert ("status", before.status) in rs[|rs| - 1].filters;
      } else {
        assert ("month", before.month) in rs[|rs| - 1].filters;
      }
    }
  }

  /** On page 1 with the status filter "approved", the only request "Reset"
      makes still asks for approved loans. */
  lemma ResetOnFirstPageKeepsOldFilter()
    ensures ResetRequests(Filters("approved", ""), 1) == [Query(1, [("status", "approved")])]
  {
    var ps := FilterParams(Filters("approved", ""));
    assert ps[1..] == [("month", "")];
    assert ps[1..][1..] == [];
    assert SetFilters(ps[1..]) == [];
    assert SetFilters(ps) == [("status", "approved")];
  }

  /** The requests "Reset" evidently means to make: page 1 with no filter,
      whatever the filters were. */
  function IntendedResetRequests(page: int): seq<Query> {
    [QueryOf(1, FilterParams(Filters("", "")))] + (if page != 1 then [QueryOf(1, FilterParams(Filters("", "")))] else [])
  }

  lemma IntendedResetClearsFilters(page: int)
    ensures forall q :: q in IntendedResetRequests(page) ==> q == Query(1, [])
  {
    assert SetFilters(FilterParams(Filters("", ""))) == [];
  }

  /** The decision the confirmation dialog asks for. */
  datatype Action = Approve | Reject

  /** The path of the POST that carries a decision: the record's id (the text
      "undefined" when it has none) under "/loans/", then the decision. */
  function DecisionPath(l: Loan, a: Action): (p: string)
    ensures StartsWith(p, "/loans/")
    ensures l.id.Some? ==> StartsWith(p[7..], l.id.value + "/")
    ensures |p| >= 7 + 7 && (p[|p| - 8..] == "/approve" <==> a == Approve)
  {
    var p := "/loans/" + Coalesce(l.id, "undefined") + (if a == Approve then "/approve" else "/reject");
    assert a == Reject ==> p[|p| - 7] == '/';
    p
  }

  class LoanTable {
    var loans: seq<Loan>
    var loading: bool
    var err: Option<string>
    var page: int
    var meta: Option<PageMeta>
    var statusFilter: string
    var monthFilter: string
    var selected: Option<Loan>
    var actionType: Option<Action>
    var modalOpen: bool
    var submitting: bool
    var submitErr: Option<string>

    constructor ()
      ensures page == 1 && statusFilter == "" && monthFilter == ""
      ensures loans == [] && meta == None && err == None && !loading
      ensures selected == None && actionType == None && !modalOpen && !submitting && submitErr == None
      ensures DecisionGuard()
    {
      loans := [];
      loading := false;
      err := None;
      page := 1;
      meta := None;
      statusFilter := "";
      monthFilter := "";
      selected := None;
      actionType := None;
      modalOpen := false;
      submitting := false;
      submitErr := None;
    }

    function CurrentFilters(): Filters
      reads this
    {
      Filters(statusFilter, monthFilter)
    }

    /** The parameters `fetchLoans(pageNum)` sends with the current filters. */
    function RequestQuery(pageNum: int): (q: Query)
      reads this
      ensures q.page == pageNum
      ensures ("status", statusFilter) in q.filters <==> statusFilter != ""
      ensures ("month", monthFilter) in q.filters <==> monthFilter != ""
    {
      QueryOf(pageNum, FilterParams(CurrentFilters()))
    }

    /** `displayedLoans`. */
    function DisplayedLoans(): seq<Loan>
      reads this
    {
      Shown(loans, CurrentFilters())
    }

    /** `fetchLoans(pageNum)` once its request is answered. */
    method Load(pageNum: int, answer: Response<Loan>)
      modifies this`loading, this`err, this`loans, this`meta
      ensures answer.Ok? ==>
        loans == Normalize(answer.body, pageNum).items && meta == Some(Normalize(answer.body, pageNum).meta)
        && err == None
      ensures answer.Failed? ==>
        loans == [] && meta == None && err == Some(LoadErrorMessage(answer.error, "Gagal memuat data pinjaman"))
      ensures !loading
      ensures page == old(page) && CurrentFilters() == old(CurrentFilters())
      ensures selected == old(selected) && actionType == old(actionType) && modalOpen == old(modalOpen)
      ensures submitting == old(submitting) && submitErr == old(submitErr)
    {
      loading := true;
      err := None;
      match answer {
        case Ok(body) =>
          var normalized := Normalize(body, pageNum);
          loans := normalized.items;
          meta := Some(normalized.meta);
        case Failed(e) =>
          err := Some(LoadErrorMessage(e, "Gagal memuat data pinjaman"));
          loans := [];
          meta := None;
      }
      loading := false;
    }

    /** The month input only records the value: no page change, no request. */
    method SetMonthFilter(value: string)
      modifies this`monthFilter
      ensures monthFilter == value && statusFilter == old(statusFilter) && page == old(page)
      ensures loans == old(loans) && meta == old(meta)
    {
      monthFilter := value;
    }

    /** The status select only records the value: no page change, no request. */
    method SetStatusFilter(value: string)
      modifies this`statusFilter
      ensures statusFilter == value && monthFilter == old(monthFilter) && page == old(page)
      ensures loans == old(loans) && meta == old(meta)
    {
      statusFilter := value;
    }

    /** "Terapkan": page 1, then `fetchLoans(1)` with the current filters; the
        page change, when there is one, fetches page 1 again. */
    method ApplyFilters() returns (requests: seq<Query>)
      modifies this`page
      ensures page == 1 && CurrentFilters() == old(CurrentFilters())
      ensures requests == [RequestQuery(1)] + (if old(page) != 1 then [RequestQuery(1)] else [])
      ensures loans == old(loans) && meta == old(meta)
    {
      var pageChanged := page != 1;
      page := 1;
      requests := [RequestQuery(1)];
      if pageChanged {
        requests := requests + [RequestQuery(1)];
      }
    }

    /** "Reset": both filters cleared and page 1, with the requests made from
        the cleared filters (`IntendedResetRequests`; the source's own
        requests are `ResetRequests`, see the lemmas above). */
    method ResetFilters() returns (requests: seq<Query>)
      modifies this`statusFilter, this`monthFilter, this`page
      ensures statusFilter == "" && monthFilter == "" && page == 1
      ensures requests == IntendedResetRequests(old(page))
      ensures forall q :: q in requests ==> q == RequestQuery(1)
      ensures loans == old(loans) && meta == old(meta)
    {
      var pageChanged := page != 1;
      statusFilter := "";
      monthFilter := "";
      page := 1;
      requests := [RequestQuery(1)];
      if pageChanged {
        requests := requests + [RequestQuery(1)];
      }
    }

    predicate PrevEnabled()
      reads this
    {
      meta.Some? && Truthy(meta.value.prevPageUrl) && page > 1
    }

    /** The "»" button is enabled (a missing `last_page` is left out). */
    predicate NextEnabled()
      reads this
    {
      meta.Some? && meta.value.lastPage.Some? && Truthy(meta.value.nextPageUrl) && page < meta.value.lastPage.value
    }

    method Prev()
      requires PrevEnabled()
      modifies this`page
      ensures page == PrevPage(old(page)) && page == old(page) - 1 && page >= 1
      ensures loans == old(loans) && meta == old(meta) && CurrentFilters() == old(CurrentFilters())
    {
      page := PrevPage(page);
    }

    method Next()
      requires NextEnabled()
      modifies this`page
      ensures loans == old(loans) && meta == old(meta) && CurrentFilters() == old(CurrentFilters())
      ensures page == old(page) + 1 && page <= meta.value.lastPage.value
    {
      page := NextPage(page, meta.value.lastPage.value);
    }

    /** The current-page export, named after the page state. */
    method DownloadCurrent() returns (file: ExportOutcome)
      ensures file == Download("pinjaman_page" + IntToString(page) + Suffix(CurrentFilters()) + ".csv",
                               ToCsv(DisplayedLoans()))
    {
      file := Download("pinjaman_page" + IntToString(page) + Suffix(CurrentFilters()) + ".csv", ToCsv(DisplayedLoans()));
    }

    /** `handleDownloadAll`, the k-th request answered by `answers[k]`. */
    method DownloadAll(answers: seq<Response<Loan>>) returns (file: ExportOutcome)
      ensures file == ExportAll(answers, CurrentFilters())
    {
      var crawl := CollectAllPages(answers);
      match crawl
      case Collected(items, _) =>
        var exportRows := items;
        if statusFilter != "" || monthFilter != "" {
          exportRows := Keep(items, StatusOf, SubmittedAt, CurrentFilters());
        }
        file := Download("pinjaman_semua" + Suffix(CurrentFilters()) + ".csv", ToCsv(exportRows));
      case Aborted(e) =>
        file := Alert(LoadErrorMessage(e, "Gagal mengunduh CSV"));
      case Unfinished(_) =>
        file := NotFinished;
    }

    /** The loan in the dialog, if any, passed the guard of the button that shown it. */
    predicate DecisionGuard()
      reads this
    {
      selected.Some? ==> CanDecide(selected.value)
    }

    /** An "Approve" or "Reject" button: disabled unless the loan is applied,
        so a click opens the dialog on an applied loan and does nothing else. */
    method ClickDecide(l: Loan, a: Action) returns (shown: bool)
      modifies this`selected, this`actionType, this`submitErr, this`modalOpen
      ensures shown <==> CanDecide(l)
      ensures shown ==> selected == Some(l) && actionType == Some(a) && submitErr == None && modalOpen
      ensures !shown ==>
        && selected == old(selected) && actionType == old(actionType)
        && submitErr == old(submitErr) && modalOpen == old(modalOpen)
      ensures old(DecisionGuard()) ==> DecisionGuard()
    {
      shown := CanDecide(l);
      if shown {
        OpenModal(l, a);
      }
    }

    /** `openModal`, reached only from an enabled button. */
    method OpenModal(l: Loan, a: Action)
      requires CanDecide(l)
      modifies this`selected, this`actionType, this`submitErr, this`modalOpen
      ensures selected == Some(l) && actionType == Some(a) && submitErr == None && modalOpen
      ensures DecisionGuard()
      ensures loans == old(loans) && page == old(page) && meta == old(meta) && CurrentFilters() == old(CurrentFilters())
    {
      selected := Some(l);
      actionType := Some(a);
      submitErr := None;
      modalOpen := true;
    }

    method CloseModal()
      modifies this`modalOpen, this`selected, this`actionType, this`submitErr
      ensures !modalOpen && selected == None && actionType == None && submitErr == None
      ensures DecisionGuard()
      ensures loans == old(loans) && page == old(page) && meta == old(meta) && CurrentFilters() == old(CurrentFilters())
    {
      modalOpen := false;
      selected := None;
      actionType := None;
      submitErr := None;
    }

    /** `onConfirm`, `failure` being the POST's rejection (None when it succeeds).
        Returns the POST made, and whether the page is fetched again. */
    method Confirm(failure: Option<HttpError>) returns (post: Option<string>, refetch: bool)
      requires DecisionGuard()
      modifies this`modalOpen, this`selected, this`actionType, this`submitErr, this`submitting
      ensures DecisionGuard()
      ensures post.Some? ==> old(selected).Some? && CanDecide(old(selected).value)
      ensures old(selected).None? || old(actionType).None? ==>
        post == None && !refetch && selected == old(selected) && actionType == old(actionType)
        && modalOpen == old(modalOpen) && submitErr == old(submitErr) && submitting == old(submitting)
      ensures old(selected).Some? && old(actionType).Some? ==>
        && post == Some(DecisionPath(old(selected).value, old(actionType).value))
        && !submitting
        && (failure.None? ==> refetch && !modalOpen && selected == None && actionType == None && submitErr == None)
        && (failure.Some? ==>
              && !refetch && modalOpen == old(modalOpen) && selected == old(selected)
              && actionType == old(actionType)
              && submitErr == Some(ActionErrorMessage(failure.value, "Gagal memperbarui status")))
      ensures loans == old(loans) && page == old(page) && meta == old(meta) && CurrentFilters() == old(CurrentFilters())
    {
      if selected.None? || actionType.None? {
        return None, false;
      }
      submitting := true;
      submitErr := None;
      post := Some(DecisionPath(selected.value, actionType.value));
      if failure.None? {
        CloseModal();
        refetch := true;
      } else {
        submitErr := Some(ActionErrorMessage(failure.value, "Gagal memperbarui status"));
        refetch := false;
      }
      submitting := false;
    }
  }
}
