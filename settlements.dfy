/** The admin settlements table (loan pay-off submissions): its rows, CSV
    export, status badge, filters, paging and the approve/reject flow. */
module Settlements {
  import opened Js
  import opened Csv
  import opened Pagination
  import opened ListFilter

  /** One settlement as the table reads it. Scalar values are held as the text
      `String(value)` gives; the nested `loan` and `user` objects are flattened. */
  datatype Settlement = Settlement(
    id: Option<string>, paidAt: Option<Timestamp>, status: Option<string>,
    loanId: Option<string>, loanUserName: Option<string>, userName: Option<string>,
    loanAmount: Option<string>, amount: Option<string>,
    proofPath: Option<string>, proofUrl: Option<string>)

  function StatusOf(s: Settlement): Option<string> { s.status }

  function PaidAt(s: Settlement): Option<Timestamp> { s.paidAt }

  /** The row filter of this table: status and the month of `paid_at`. */
  function Shown(rows: seq<Settlement>, f: Filters): seq<Settlement> {
    Displayed(rows, StatusOf, PaidAt, f)
  }

  /** `badgeForStatus`. */
  function Badge(status: Option<string>): (r: string)
    ensures status == Some("approved") <==> r == "badge badge-success"
    ensures status == Some("rejected") <==> r == "badge badge-error"
    ensures r == "badge" <==> status != Some("approved") && status != Some("rejected")
  {
    if status == Some("approved") then "badge badge-success"
    else if status == Some("rejected") then "badge badge-error"
    else "badge"
  }

  /** Approve and reject are enabled only for a submitted settlement. */
  predicate CanDecide(s: Settlement) {
    s.status == Some("submitted")
  }

  /** The "Lihat Bukti" button is enabled when a proof path or URL is set. */
  predicate HasProof(s: Settlement) {
    Truthy(s.proofPath) || Truthy(s.proofUrl)
  }

  const Header: seq<string> :=
    ["Settlement ID", "Tanggal Bayar", "Status", "Loan ID", "Nama Karyawan", "Jumlah Pinjaman (IDR)", "Ada Bukti"]

  /** The seven values of one exported row, before escaping. */
  function Cells(s: Settlement): (c: seq<string>)
    ensures |c| == |Header|
    ensures c[0] == Coalesce(s.id, "") && c[1] == IsoDate(s.paidAt) && c[2] == Coalesce(s.status, "")
    ensures c[3] == Coalesce(s.loanId, "")
    ensures Truthy(s.loanUserName) ==> c[4] == s.loanUserName.value
    ensures !Truthy(s.loanUserName) && Truthy(s.userName) ==> c[4] == s.userName.value
    ensures !Truthy(s.loanUserName) && !Truthy(s.userName) ==> c[4] == ""
    ensures s.loanAmount.Some? ==> c[5] == s.loanAmount.value
    ensures s.loanAmount.None? ==> c[5] == Coalesce(s.amount, "")
    ensures c[6] == "ya" <==> HasProof(s)
    ensures c[6] == "tidak" <==> !HasProof(s)
  {
    [ Coalesce(s.id, ""), IsoDate(s.paidAt), Coalesce(s.status, ""), Coalesce(s.loanId, ""),
      OrElse(s.loanUserName, OrElse(s.userName, "")),
      Coalesce(s.loanAmount, Coalesce(s.amount, "")),
      if HasProof(s) then "ya" else "tidak" ]
  }

  function CellRows(list: seq<Settlement>): (r: seq<seq<string>>)
    ensures |r| == |list|
    ensures forall i :: 0 <= i < |list| ==> r[i] == Cells(list[i])
  {
    if list == [] then [] else [Cells(list[0])] + CellRows(list[1..])
  }

  /** `toCSV`: the header joined as is, then one escaped record per row. */
  function ToCsv(list: seq<Settlement>): string {
    WithHeader(Header, CellRows(list))
  }

  /** The export reads back as the header followed by each row's values, in
      the order of the rows. */
  lemma ToCsvRoundTrip(list: seq<Settlement>)
    ensures ReadRecords(ToCsv(list)) == [Header] + CellRows(list)
  {
    HeaderIsPlain();
    WithHeaderRoundTrip(Header, CellRows(list));
  }

  /** No header name has a character that needs quoting. */
  lemma HeaderIsPlain()
    ensures forall i :: 0 <= i < |Header| ==> !NeedsQuotes(Header[i])
  {
    forall i | 0 <= i < |Header| ensures !NeedsQuotes(Header[i]) {
      assert Header[i] in Header;
    }
  }

  /** The name of the current-page export. */
  function CurrentFileName(shownPage: int, f: Filters): string {
    "pelunasan_page" + IntToString(shownPage) + Suffix(f) + ".csv"
  }

  /** `handleDownloadAll` after its loop: the filtered rows as CSV, or the alert. */
  function ExportAll(answers: seq<Response<Settlement>>, f: Filters): ExportOutcome {
    match Crawl(answers)
    case Collected(items, _) => Download("pelunasan_semua" + Suffix(f) + ".csv", ToCsv(Shown(items, f)))
    case Aborted(e) => Alert(LoadErrorMessage(e, "Gagal mengunduh CSV"))
    case Unfinished(_) => NotFinished
  }

  /** Against a server that serves pages 1..last as asked, the export holds
      exactly the filtered rows of all those pages, in page order. */
  lemma ExportAllCoversEveryPage(answers: seq<Response<Settlement>>, lastPage: nat, f: Filters)
    requires 1 <= lastPage <= |answers|
    requires forall j :: 0 <= j < lastPage ==> Serves(answers[j], j + 1, lastPage)
    ensures ExportAll(answers, f)
         == Download("pelunasan_semua" + Suffix(f) + ".csv", ToCsv(Shown(ItemsUpTo(answers, lastPage), f)))
  {
    CrawlVisitsEveryPage(answers, lastPage);
  }

  /** The decision the confirmation dialog asks for. */
  datatype Action = Approve | Reject

  /** The path of the POST that carries a decision: the record's id (the text
      "undefined" when it has none) under "/settlements/", then the decision. */
  function DecisionPath(s: Settlement, a: Action): (p: string)
    ensures StartsWith(p, "/settlements/")
    ensures s.id.Some? ==> StartsWith(p[13..], s.id.value + "/")
    ensures |p| >= 13 + 7 && (p[|p| - 8..] == "/approve" <==> a == Approve)
  {
    var p := "/settlements/" + Coalesce(s.id, "undefined") + (if a == Approve then "/approve" else "/reject");
    assert a == Reject ==> p[|p| - 7] == '/';
    p
  }

  class SettlementTable {
    var rows: seq<Settlement>
    var loading: bool
    var err: Option<string>
    var page: int
    var meta: Option<PageMeta>
    var statusFilter: string
    var monthFilter: string
    var selected: Option<Settlement>
    var actionType: Option<Action>
    var confirmOpen: bool
    var submitting: bool
    var submitErr: Option<string>

    /** The first render: page 1, status filter "submitted", no month filter. */
    constructor ()
      ensures page == 1 && statusFilter == "submitted" && monthFilter == ""
      ensures rows == [] && meta == None && err == None && !loading
      ensures selected == None && actionType == None && !confirmOpen && !submitting && submitErr == None
      ensures DecisionGuard()
    {
      rows := [];
      loading := false;
      err := None;
      page := 1;
      meta := None;
      statusFilter := "submitted";
      monthFilter := "";
      selected := None;
      actionType := None;
      confirmOpen := false;
      submitting := false;
      submitErr := None;
    }

    function CurrentFilters(): Filters
      reads this
    {
      Filters(statusFilter, monthFilter)
    }

    /** The parameters `fetchRows` sends: the page, then status and month when set. */
    function RequestQuery(): (q: Query)
      reads this
      ensures q.page == page
      ensures ("status", statusFilter) in q.filters <==> statusFilter != ""
      ensures ("month", monthFilter) in q.filters <==> monthFilter != ""
    {
      QueryOf(page, [("status", statusFilter), ("month", monthFilter)])
    }

    /** `displayedRows`. */
    function DisplayedRows(): seq<Settlement>
      reads this
    {
      Shown(rows, CurrentFilters())
    }

    /** The number shown in a row's first column: the rows are numbered one
        by one from the page's `from` (1 without one, or without a page). */
    function RowNo(idx: nat): (n: int)
      reads this
      ensures n - idx == (if meta.Some? then Coalesce(meta.value.from, 1) else 1)
    {
      if meta.Some? then Coalesce(meta.value.from, 1) + idx else idx + 1
    }

    /** `fetchRows(page)` once its request is answered. */
    method Load(answer: Response<Settlement>)
      modifies this`loading, this`err, this`rows, this`meta
      ensures answer.Ok? ==>
        rows == Normalize(answer.body, page).items && meta == Some(Normalize(answer.body, page).meta) && err == None
      ensures answer.Failed? ==>
        rows == [] && meta == None && err == Some(LoadErrorMessage(answer.error, "Gagal memuat data pelunasan"))
      ensures !loading
      ensures page == old(page) && statusFilter == old(statusFilter) && monthFilter == old(monthFilter)
      ensures selected == old(selected) && actionType == old(actionType) && confirmOpen == old(confirmOpen)
      ensures submitting == old(submitting) && submitErr == old(submitErr)
    {
      loading := true;
      err := None;
      match answer {
        case Ok(body) =>
          var normalized := Normalize(body, page);
          rows := normalized.items;
          meta := Some(normalized.meta);
        case Failed(e) =>
          err := Some(LoadErrorMessage(e, "Gagal memuat data pelunasan"));
          rows := [];
          meta := None;
      }
      loading := false;
    }

    /** The month input: back to page 1, then the new month. */
    method SetMonthFilter(value: string)
      modifies this`page, this`monthFilter
      ensures page == 1 && monthFilter == value
      ensures statusFilter == old(statusFilter) && rows == old(rows) && meta == old(meta)
    {
      page := 1;
      monthFilter := value;
    }

    /** The status select: back to page 1, then the new status. */
    method SetStatusFilter(value: string)
      modifies this`page, this`statusFilter
      ensures page == 1 && statusFilter == value
      ensures monthFilter == old(monthFilter) && rows == old(rows) && meta == old(meta)
    {
      page := 1;
      statusFilter := value;
    }

    /** The "«" button is enabled. */
    predicate PrevEnabled()
      reads this
    {
      meta.Some? && Truthy(meta.value.prevPageUrl) && page > 1 && !loading
    }

    /** The "»" button is enabled (a missing `last_page` is left out). */
    predicate NextEnabled()
      reads this
    {
      && meta.Some? && meta.value.lastPage.Some? && Truthy(meta.value.nextPageUrl)
      && Coalesce(meta.value.currentPage, page) < meta.value.lastPage.value && !loading
    }

    method Prev()
      requires PrevEnabled()
      modifies this`page
      ensures page == PrevPage(old(page)) && page == old(page) - 1 && page >= 1
      ensures rows == old(rows) && meta == old(meta) && CurrentFilters() == old(CurrentFilters())
    {
      page := PrevPage(page);
    }

    method Next()
      requires NextEnabled()
      modifies this`page
      ensures rows == old(rows) && meta == old(meta) && CurrentFilters() == old(CurrentFilters())
      ensures page == NextPage(old(page), meta.value.lastPage.value)
      ensures page <= meta.value.lastPage.value
      ensures old(page) < meta.value.lastPage.value ==> page == old(page) + 1
    {
      page := NextPage(page, meta.value.lastPage.value);
    }

    /** The current-page export: the displayed rows, named after the shown page. */
    method DownloadCurrent() returns (file: ExportOutcome)
      ensures file == Download(CurrentFileName(if meta.Some? then Coalesce(meta.value.currentPage, page) else page,
                                               CurrentFilters()),
                               ToCsv(DisplayedRows()))
    {
      var shownPage := if meta.Some? then Coalesce(meta.value.currentPage, page) else page;
      file := Download(CurrentFileName(shownPage, CurrentFilters()), ToCsv(DisplayedRows()));
    }

    /** `handleDownloadAll`, the k-th request answered by `answers[k]`. */
    method DownloadAll(answers: seq<Response<Settlement>>) returns (file: ExportOutcome)
      ensures file == ExportAll(answers, CurrentFilters())
    {
      var crawl := CollectAllPages(answers);
      match crawl
      case Collected(items, _) =>
        var exportRows := items;
        if Active(CurrentFilters()) {
          exportRows := Keep(items, StatusOf, PaidAt, CurrentFilters());
        }
        file := Download("pelunasan_semua" + Suffix(CurrentFilters()) + ".csv", ToCsv(exportRows));
      case Aborted(e) =>
        file := Alert(LoadErrorMessage(e, "Gagal mengunduh CSV"));
      case Unfinished(_) =>
        file := NotFinished;
    }

    /** The settlement in the dialog, if any, passed the guard of the button that shown it. */
    predicate DecisionGuard()
      reads this
    {
      selected.Some? ==> CanDecide(selected.value)
    }

    /** An "Approve" or "Reject" button: disabled unless the settlement is
        submitted, so a click opens the dialog on a submitted settlement and
        does nothing else. */
    method ClickDecide(s: Settlement, a: Action) returns (shown: bool)
      modifies this`selected, this`actionType, this`submitErr, this`confirmOpen
      ensures shown <==> CanDecide(s)
      ensures shown ==> selected == Some(s) && actionType == Some(a) && submitErr == None && confirmOpen
      ensures !shown ==>
        && selected == old(selected) && actionType == old(actionType)
        && submitErr == old(submitErr) && confirmOpen == old(confirmOpen)
      ensures old(DecisionGuard()) ==> DecisionGuard()
    {
      shown := CanDecide(s);
      if shown {
        OpenConfirm(s, a);
      }
    }

    /** `openConfirm`, reached only from an enabled button. */
    method OpenConfirm(s: Settlement, a: Action)
      requires CanDecide(s)
      modifies this`selected, this`actionType, this`submitErr, this`confirmOpen
      ensures selected == Some(s) && actionType == Some(a) && submitErr == None && confirmOpen
      ensures DecisionGuard()
      ensures rows == old(rows) && page == old(page) && meta == old(meta) && CurrentFilters() == old(CurrentFilters())
    {
      selected := Some(s);
      actionType := Some(a);
      submitErr := None;
      confirmOpen := true;
    }

    method CloseConfirm()
      modifies this`confirmOpen, this`selected, this`actionType, this`submitErr
      ensures !confirmOpen && selected == None && actionType == None && submitErr == None
      ensures DecisionGuard()
      ensures rows == old(rows) && page == old(page) && meta == old(meta) && CurrentFilters() == old(CurrentFilters())
    {
      confirmOpen := false;
      selected := None;
      actionType := None;
      submitErr := None;
    }

    /** `onConfirm`, `failure` being the POST's rejection (None when it succeeds).
        Returns the POST made, and whether the page is fetched again. */
    method Confirm(failure: Option<HttpError>) returns (post: Option<string>, refetch: bool)
      requires DecisionGuard()
      modifies this`confirmOpen, this`selected, this`actionType, this`submitErr, this`submitting
      ensures DecisionGuard()
      ensures post.Some? ==> old(selected).Some? && CanDecide(old(selected).value)
      ensures old(selected).None? || old(actionType).None? ==>
        post == None && !refetch && selected == old(selected) && actionType == old(actionType)
        && confirmOpen == old(confirmOpen) && submitErr == old(submitErr) && submitting == old(submitting)
      ensures old(selected).Some? && old(actionType).Some? ==>
        && post == Some(DecisionPath(old(selected).value, old(actionType).value))
        && !submitting
        && (failure.None? ==> refetch && !confirmOpen && selected == None && actionType == None && submitErr == None)
        && (failure.Some? ==>
              && !refetch && confirmOpen == old(confirmOpen) && selected == old(selected)
              && actionType == old(actionType)
              && submitErr == Some(ActionErrorMessage(failure.value, "Gagal memperbarui status")))
      ensures rows == old(rows) && page == old(page) && meta == old(meta) && CurrentFilters() == old(CurrentFilters())
    {
      if selected.None? || actionType.None? {
        return None, false;
      }
      submitting := true;
      submitErr := None;
      post := Some(DecisionPath(selected.value, actionType.value));
      if failure.None? {
        CloseConfirm();
        refetch := true;
      } else {
        submitErr := Some(ActionErrorMessage(failure.value, "Gagal memperbarui status"));
        refetch := false;
      }
      submitting := false;
    }
  }
}
