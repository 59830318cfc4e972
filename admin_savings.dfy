/** The admin savings table: one page of savings records fetched with the
    month / type / member filters, the yearly dividend of each (member, year)
    pair shown beside each row, and editing or deleting a record. */
module AdminSavings {
  import opened Js
  import opened Pagination
  import opened Dividends

  /** A savings record as listed: `id`, `user_id`, `month` ("YYYY-MM..."),
      `type` and `amount` (as `Number(...)` reads it). */
  datatype Saving = Saving(id: Option<int>, userId: Option<int>, month: Option<string>,
                           kind: Option<string>, amount: Option<Num>)

  /** `${v}` for an optional id; a missing one prints as "undefined". */
  function IdText(id: Option<int>): string {
    if id.Some? then IntToString(id.value) else "undefined"
  }

  /** The key `dividendFor` looks up: `${row.user_id}-${String(row?.month ?? "").slice(0, 4)}`. */
  function LookupKey(r: Saving): string {
    IdText(r.userId) + "-" + YearOf(r.month)
  }

  /** The dividend key a row asks for: none when the member id is falsy or the
      month is falsy, or when the month's first four characters are not four
      digits. */
  function NeededKey(r: Saving): (k: Option<string>)
    ensures k.Some? ==> k.value == LookupKey(r)
    ensures k.Some? ==> r.userId.Some? && r.userId.value != 0 && Truthy(r.month)
    ensures k.Some? ==> FourDigits(Take(r.month.value, 4))
  {
    if r.userId.None? || r.userId.value == 0 || !Truthy(r.month) then None
    else
      var y := Take(r.month.value, 4);
      if FourDigits(y) then Some(IntToString(r.userId.value) + "-" + y) else None
  }

  /** The keys the rows ask for, in row order, repeats included. */
  function NeededKeys(rows: seq<Saving>): (ks: seq<string>)
    ensures forall i :: 0 <= i < |rows| && NeededKey(rows[i]).Some? ==> NeededKey(rows[i]).value in ks
  {
    if rows == [] then []
    else
      var n := |rows| - 1;
      var front := NeededKeys(rows[..n]);
      assert forall i :: 0 <= i < n ==> rows[..n][i] == rows[i];
      match NeededKey(rows[n])
      case Some(k) => front + [k]
      case None => front
  }

  /** Only the rows' own keys are collected. */
  lemma {:induction false} NeededKeysOnlyNeeded(rows: seq<Saving>)
    ensures forall k :: k in NeededKeys(rows) ==> exists i :: 0 <= i < |rows| && NeededKey(rows[i]) == Some(k)
  {
    if rows != [] {
      var n := |rows| - 1;
      var front := NeededKeys(rows[..n]);
      NeededKeysOnlyNeeded(rows[..n]);
      KeysFromPrefix(rows, n, front);
      forall k | k in NeededKeys(rows) ensures exists i :: 0 <= i < |rows| && NeededKey(rows[i]) == Some(k) {
        if k !in front {
          assert NeededKey(rows[n]) == Some(k);
        }
      }
    }
  }

  /** A key asked for by a row of a prefix is asked for by a row of the whole. */
  lemma KeysFromPrefix(rows: seq<Saving>, n: nat, ks: seq<string>)
    requires n <= |rows|
    requires forall k :: k in ks ==> exists i :: 0 <= i < n && NeededKey(rows[..n][i]) == Some(k)
    ensures forall k :: k in ks ==> exists i :: 0 <= i < |rows| && NeededKey(rows[i]) == Some(k)
  {
    forall k | k in ks ensures exists i :: 0 <= i < |rows| && NeededKey(rows[i]) == Some(k) {
      var i :| 0 <= i < n && NeededKey(rows[..n][i]) == Some(k);
      assert rows[..n][i] == rows[i];
    }
  }

  /** A dividend request: `key.split("-")` gives the member id and the year. */
  datatype Job = Job(uid: string, yr: string, key: string)

  /** `const [uid, yr] = key.split("-")`; a missing second piece is `undefined`. */
  function JobFor(key: string): (j: Job)
    ensures j.key == key
  {
    var parts := Split(key, '-');
    Job(parts[0], if |parts| > 1 then parts[1] else "undefined", key)
  }

  function KeysOf(jobs: seq<Job>): (ks: seq<string>)
    ensures |ks| == |jobs|
    ensures forall i :: 0 <= i < |jobs| ==> ks[i] == jobs[i].key
  {
    if jobs == [] then [] else KeysOf(jobs[..|jobs| - 1]) + [jobs[|jobs| - 1].key]
  }

  lemma KeysOfSnoc(jobs: seq<Job>, job: Job)
    ensures KeysOf(jobs + [job]) == KeysOf(jobs) + [job.key]
  {
    assert (jobs + [job])[..|jobs|] == jobs;
  }

  /** For a positive member id and a four-digit year the key splits back into
      the id and the year, and `Number(yr)` is the year's value. */
  lemma JobForKey(uid: int, y: string)
    requires uid > 0 && FourDigits(y)
    ensures JobFor(IntToString(uid) + "-" + y) == Job(IntToString(uid), y, IntToString(uid) + "-" + y)
    ensures NumberOf(y) == Finite(DigitsValue(y) as real)
  {
    DigitsHaveNoSeparator(IntToString(uid));
    DigitsHaveNoSeparator(y);
    SplitPair(IntToString(uid), '-', y);
    NumberOfDigits(y);
  }

  /** `dividendFor`: the cached dividend of the row's key, or nothing yet ("…"). */
  function DividendShown(r: Saving, cache: Cache): (d: Option<Num>)
    ensures d.Some? <==> LookupKey(r) in cache
  {
    if LookupKey(r) in cache then Some(cache[LookupKey(r)]) else None
  }

  /** Once the answers for the planned keys are merged, every row that asks for
      a dividend has one to show, and rows whose key was cached keep their value. */
  lemma DividendsSettleForRows(rows: seq<Saving>, cache: Cache, answers: seq<Answer>)
    requires |answers| == |Jobs(NeededKeys(rows), cache)|
    ensures var next := Merged(cache, Jobs(NeededKeys(rows), cache), answers);
      forall i :: 0 <= i < |rows| && NeededKey(rows[i]).Some? ==> DividendShown(rows[i], next).Some?
    ensures var next := Merged(cache, Jobs(NeededKeys(rows), cache), answers);
      forall r :: LookupKey(r) in cache ==> DividendShown(r, next) == DividendShown(r, cache)
  {
    var jobs := Jobs(NeededKeys(rows), cache);
    var next := Merged(cache, jobs, answers);
    forall i | 0 <= i < |rows| && NeededKey(rows[i]).Some?
      ensures DividendShown(rows[i], next).Some?
    {
      var k := NeededKey(rows[i]).value;
      assert k in NeededKeys(rows);
      assert k in cache || k in jobs;
    }
  }

  /** The two edit fields checked before the update request. */
  datatype Validation = Accepted(amount: real, kind: string) | Refused(message: string)

  const Kinds: seq<string> := ["wajib", "pokok", "sukarela"]

  /** `String(editAmount).replace(/[^\d.-]/g, "")`. */
  function Cleaned(s: string): (r: string)
    ensures forall i :: 0 <= i < |r| ==> NumberChar(r[i])
    ensures (forall i :: 0 <= i < |s| ==> NumberChar(s[i])) ==> r == s
    ensures |r| <= |s|
  {
    if s == [] then []
    else (if NumberChar(s[0]) then [s[0]] else []) + Cleaned(s[1..])
  }

  /** The amount must read as a finite number of at least 1, then the type
      must be one of the three kinds; the amount is checked first. */
  function ValidateEdit(amountText: string, kind: Option<string>): (v: Validation)
    ensures v.Accepted? <==>
      && NumberOf(Cleaned(amountText)).Finite? && NumberOf(Cleaned(amountText)).value >= 1.0
      && kind.Some? && kind.value in Kinds
    ensures v.Accepted? ==> Finite(v.amount) == NumberOf(Cleaned(amountText)) && Some(v.kind) == kind
    ensures v.Refused? && !(NumberOf(Cleaned(amountText)).Finite? && NumberOf(Cleaned(amountText)).value >= 1.0)
      ==> v.message == "Nominal tidak valid (minimal 1)."
    ensures v.Refused? && NumberOf(Cleaned(amountText)).Finite? && NumberOf(Cleaned(amountText)).value >= 1.0
      ==> v.message == "Jenis harus: wajib/pokok/sukarela."
  {
    var n := NumberOf(Cleaned(amountText));
    if !n.Finite? || n.value < 1.0 then Refused("Nominal tidak valid (minimal 1).")
    else if kind.None? || kind.value !in Kinds then Refused("Jenis harus: wajib/pokok/sukarela.")
    else Accepted(n.value, kind.value)
  }

  /** A plain whole amount of at least 1 with a valid type passes. */
  lemma WholeAmountAccepted(n: nat, kind: string)
    requires n >= 1 && kind in Kinds
    ensures ValidateEdit(NatToString(n), Some(kind)) == Accepted(n as real, kind)
  {
    NumberOfNat(n);
  }

  /** The cleaning pass keeps exactly the characters `Number` may read. */
  lemma {:induction false} CleanedAppend(a: string, b: string)
    ensures Cleaned(a + b) == Cleaned(a) + Cleaned(b)
  {
    if a == [] {
      assert a + b == b;
    } else {
      CleanedAppend(a[1..], b);
      assert (a + b)[1..] == a[1..] + b;
      ConcatAssoc(if NumberChar(a[0]) then [a[0]] else [], Cleaned(a[1..]), Cleaned(b));
    }
  }

  /** A dot is a decimal point to `Number`: an amount typed with a thousands
      dot after "Rp " ("Rp 50.000") is edited to the whole part plus a
      fraction, and to the whole part alone when the digits after the dot
      are zeros (fifty, not fifty thousand). */
  lemma DottedThousandsReadAsDecimal(w: string, f: string, kind: string)
    requires w != [] && AllDigits(w) && AllDigits(f) && DigitsValue(w) >= 1 && kind in Kinds
    ensures ValidateEdit("Rp " + w + "." + f, Some(kind)) == Accepted(DecimalValue(w, f), kind)
    ensures DigitsValue(f) == 0 ==> ValidateEdit("Rp " + w + "." + f, Some(kind)) == Accepted(DigitsValue(w) as real, kind)
  {
    var t := w + "." + f;
    assert "Rp " + w + "." + f == "Rp " + t by {
      ConcatAssoc("Rp ", w + ".", f);
      ConcatAssoc("Rp ", w, ".");
    }
    CleanedCurrencyPrefix(t);
    CleanedPointed(w, f);
    NumberOfPointed(w, f);
    assert NumberOf(Cleaned("Rp " + w + "." + f)) == Finite(DecimalValue(w, f));
    if DigitsValue(f) == 0 {
      WholeDecimal(w, f);
    }
  }

  /** Zero fraction digits add nothing to the whole part. */
  lemma WholeDecimal(w: string, f: string)
    requires AllDigits(w) && AllDigits(f) && DigitsValue(f) == 0
    ensures DecimalValue(w, f) == DigitsValue(w) as real
  {
    assert DigitsValue(f) as real / Pow10(|f|) as real == 0.0;
  }

  /** The "Rp " prefix is dropped by the cleaning pass. */
  lemma CleanedCurrencyPrefix(t: string)
    ensures Cleaned("Rp " + t) == Cleaned(t)
  {
    CleanedAppend("Rp ", t);
    assert Cleaned("Rp ") == [];
  }

  /** Digits around one dot survive the cleaning pass unchanged. */
  lemma CleanedPointed(w: string, f: string)
    requires AllDigits(w) && AllDigits(f)
    ensures Cleaned(w + "." + f) == w + "." + f
  {
    var t := w + "." + f;
    forall i | 0 <= i < |t| ensures NumberChar(t[i]) {
      if i < |w| { assert t[i] == w[i]; }
      else if i > |w| { assert t[i] == f[i - |w| - 1]; }
    }
  }

  /** The PUT sent for a valid edit. */
  datatype UpdateRequest = UpdateRequest(path: string, amount: real, kind: string)

  /** `prev.map(r => r.id === id ? { ...r, amount, type } : r)`. */
  function Patched(rows: seq<Saving>, id: Option<int>, amount: real, kind: string): (r: seq<Saving>)
    ensures |r| == |rows|
    ensures forall i :: 0 <= i < |rows| && rows[i].id != id ==> r[i] == rows[i]
    ensures forall i :: 0 <= i < |rows| && rows[i].id == id ==>
      r[i] == rows[i].(amount := Some(Finite(amount)), kind := Some(kind))
  {
    if rows == [] then []
    else
      [if rows[0].id == id then rows[0].(amount := Some(Finite(amount)), kind := Some(kind)) else rows[0]]
      + Patched(rows[1..], id, amount, kind)
  }

  /** Patching keeps every row's id, and patching again with the same values changes nothing. */
  lemma PatchedKeepsIdsAndSettles(rows: seq<Saving>, id: Option<int>, amount: real, kind: string)
    ensures forall i :: 0 <= i < |rows| ==> Patched(rows, id, amount, kind)[i].id == rows[i].id
    ensures Patched(Patched(rows, id, amount, kind), id, amount, kind) == Patched(rows, id, amount, kind)
  {
  }

  /** `prev.filter(r => r.id !== id)`. */
  function Removed(rows: seq<Saving>, id: Option<int>): (r: seq<Saving>)
    ensures forall x :: x in r <==> x in rows && x.id != id
    ensures |r| <= |rows|
  {
    if rows == [] then []
    else (if rows[0].id != id then [rows[0]] else []) + Removed(rows[1..], id)
  }

  /** Removing keeps the other rows in their order, repeats included: a row
      added at the end stays at the end exactly when its id differs. */
  lemma {:induction false} RemovedSnoc(rows: seq<Saving>, r: Saving, id: Option<int>)
    ensures Removed(rows + [r], id) == Removed(rows, id) + (if r.id == id then [] else [r])
  {
    if rows == [] {
      RemovedCons(r, [], id);
      assert rows + [r] == [r] + [];
    } else {
      var x, rest := rows[0], rows[1..];
      assert rows == [x] + rest;
      assert rows + [r] == [x] + (rest + [r]);
      RemovedCons(x, rest + [r], id);
      RemovedCons(x, rest, id);
      RemovedSnoc(rest, r, id);
    }
  }

  /** One step of the filter. */
  lemma RemovedCons(x: Saving, rest: seq<Saving>, id: Option<int>)
    ensures Removed([x] + rest, id) == (if x.id != id then [x] else []) + Removed(rest, id)
  {
    assert ([x] + rest)[1..] == rest;
  }

  /** Removing twice is removing once. */
  lemma {:induction false} RemovedIsIdempotent(rows: seq<Saving>, id: Option<int>)
    ensures Removed(Removed(rows, id), id) == Removed(rows, id)
  {
    if rows != [] {
      RemovedIsIdempotent(rows[1..], id);
      var tail := Removed(rows[1..], id);
      if rows[0].id != id {
        var r := [rows[0]] + tail;
        assert Removed(rows, id) == r;
        assert r[0] == rows[0] && r[1..] == tail;
        assert Removed(r, id) == [rows[0]] + Removed(tail, id);
      } else {
        assert Removed(rows, id) == tail;
      }
    }
  }

  /** `Math.max(0, (m.total || 1) - 1)`. */
  function TotalAfterDelete(total: int): (t: int)
    ensures t >= 0
    ensures total >= 1 ==> t == total - 1
    ensures total <= 1 ==> t == 0
  {
    var base := if total == 0 then 1 else total;
    if base - 1 < 0 then 0 else base - 1
  }

  /** The DELETE sent for the record being deleted. */
  function DeletePath(r: Saving): string {
    "/savings/" + IdText(r.id)
  }

  class AdminSavingsTable {
    var rows: seq<Saving>
    var loading: bool
    var filterMonth: string
    var filterType: string
    var filterUserId: string
    var page: int
    var meta: SavingsMeta
    var divCache: Cache
    var editingRow: Option<Saving>
    var editAmount: string
    var editType: Option<string>
    var deletingRow: Option<Saving>
    var updating: bool
    var deleting: bool

    constructor ()
      ensures rows == [] && !loading && page == 1 && meta == SavingsMeta(1, 1, 0)
      ensures filterMonth == "" && filterType == "" && filterUserId == ""
      ensures divCache == map[] && editingRow == None && deletingRow == None
      ensures editAmount == "" && editType == Some("") && !updating && !deleting
    {
      rows := [];
      loading := false;
      filterMonth := "";
      filterType := "";
      filterUserId := "";
      page := 1;
      meta := SavingsMeta(1, 1, 0);
      divCache := map[];
      editingRow := None;
      editAmount := "";
      editType := Some("");
      deletingRow := None;
      updating := false;
      deleting := false;
    }

    /** `queryParams`: the page, and each filter only when it is set. */
    function RequestQuery(): (q: Query)
      reads this
      ensures q.page == page
      ensures forall kv :: kv in q.filters <==>
        kv in [("month", filterMonth), ("type", filterType), ("user_id", filterUserId)] && kv.1 != ""
    {
      QueryOf(page, [("month", filterMonth), ("type", filterType), ("user_id", filterUserId)])
    }

    /** Settles the fetch of the current query: the rows and the top-level
        pagination fields, or an empty first page when the request failed. */
    method Load(answer: Response<Saving>)
      modifies this`loading, this`rows, this`meta
      ensures (rows, meta) == SavingsFetch(answer, old(page))
      ensures !loading
      ensures page == old(page) && divCache == old(divCache)
      ensures filterMonth == old(filterMonth) && filterType == old(filterType) && filterUserId == old(filterUserId)
      ensures editingRow == old(editingRow) && deletingRow == old(deletingRow)
    {
      loading := true;
      var fetched := SavingsFetch(answer, page);
      rows := fetched.0;
      meta := fetched.1;
      loading := false;
    }

    /** Changing a filter brings the table back to page 1. */
    method SetFilterMonth(m: string)
      modifies this`filterMonth, this`page
      ensures filterMonth == m && page == 1
      ensures filterType == old(filterType) && filterUserId == old(filterUserId)
      ensures rows == old(rows) && meta == old(meta) && divCache == old(divCache)
    {
      filterMonth := m;
      page := 1;
    }

    method SetFilterType(t: string)
      modifies this`filterType, this`page
      ensures filterType == t && page == 1
      ensures filterMonth == old(filterMonth) && filterUserId == old(filterUserId)
      ensures rows == old(rows) && meta == old(meta) && divCache == old(divCache)
    {
      filterType := t;
      page := 1;
    }

    method SetFilterUserId(u: string)
      modifies this`filterUserId, this`page
      ensures filterUserId == u && page == 1
      ensures filterMonth == old(filterMonth) && filterType == old(filterType)
      ensures rows == old(rows) && meta == old(meta) && divCache == old(divCache)
    {
      filterUserId := u;
      page := 1;
    }

    predicate PrevEnabled()
      reads this
    {
      meta.currentPage > 1 && !loading
    }

    predicate NextEnabled()
      reads this
    {
      meta.currentPage < meta.lastPage && !loading
    }

    /** "Prev": one page back, never below 1. */
    method Prev()
      requires PrevEnabled()
      modifies this`page
      ensures page == PrevPage(old(page)) && page >= 1
      ensures rows == old(rows) && meta == old(meta)
    {
      page := PrevPage(page);
    }

    /** "Next": one page on, never past the last page. */
    method Next()
      requires NextEnabled()
      modifies this`page
      ensures page == NextPage(old(page), meta.lastPage) && page <= meta.lastPage
      ensures rows == old(rows) && meta == old(meta)
    {
      page := NextPage(page, meta.lastPage);
    }

    /** The "No" column of the row at `idx` on the current page. */
    function RowNo(idx: nat): (n: int)
      reads this
      ensures meta.currentPage >= 1 ==> n >= idx + 1
    {
      RowNumber(meta.currentPage, idx)
    }

    /** The first loop of the dividend effect: the keys the rows ask for, each
        once, in first-seen order (a `Set`). */
    method CollectPairs() returns (pairs: seq<string>)
      ensures pairs == Distinct(NeededKeys(rows))
    {
      pairs := [];
      for i := 0 to |rows|
        invariant pairs == Distinct(NeededKeys(rows[..i]))
      {
        assert rows[..i + 1][..i] == rows[..i];
        var before := NeededKeys(rows[..i]);
        match NeededKey(rows[i]) {
          case Some(k) =>
            assert NeededKeys(rows[..i + 1]) == before + [k];
            DistinctSnoc(before, k);
            if k !in pairs {
              pairs := pairs + [k];
            }
          case None =>
            assert NeededKeys(rows[..i + 1]) == before;
        }
      }
      assert rows[..|rows|] == rows;
    }

    /** The second loop: a job for every key with no cached dividend. */
    method PlanJobs(pairs: seq<string>) returns (jobs: seq<Job>)
      ensures KeysOf(jobs) == Uncached(pairs, divCache)
      ensures forall j :: j in jobs ==> j == JobFor(j.key)
    {
      jobs := [];
      for i := 0 to |pairs|
        invariant KeysOf(jobs) == Uncached(pairs[..i], divCache)
        invariant forall j :: j in jobs ==> j == JobFor(j.key)
      {
        UncachedSnoc(pairs[..i], pairs[i], divCache);
        TakeSnoc(pairs, i);
        if pairs[i] !in divCache {
          var job := JobFor(pairs[i]);
          KeysOfSnoc(jobs, job);
          jobs := jobs + [job];
        }
      }
      assert pairs[..|pairs|] == pairs;
    }

    /** Both loops together: exactly the jobs the dividend plan calls for. */
    method PlanDividends() returns (jobs: seq<Job>)
      ensures KeysOf(jobs) == Jobs(NeededKeys(rows), divCache)
      ensures forall j :: j in jobs ==> j == JobFor(j.key)
    {
      var pairs := CollectPairs();
      jobs := PlanJobs(pairs);
    }

    /** Settles the dividend requests: each job's key gets its answer, 0 for a failure. */
    method StoreDividends(jobs: seq<Job>, answers: seq<Answer>)
      requires |answers| == |jobs|
      modifies this`divCache
      ensures divCache == Merged(old(divCache), KeysOf(jobs), answers)
      ensures rows == old(rows) && meta == old(meta) && page == old(page)
    {
      divCache := Merge(divCache, KeysOf(jobs), answers);
    }

    method OpenEdit(row: Saving, amountText: string)
      modifies this`editingRow, this`editAmount, this`editType
      ensures editingRow == Some(row) && editAmount == amountText && editType == row.kind
      ensures rows == old(rows) && meta == old(meta) && divCache == old(divCache)
    {
      editingRow := Some(row);
      editAmount := amountText;
      editType := row.kind;
    }

    method CloseEdit()
      modifies this`editingRow, this`editAmount, this`editType
      ensures editingRow == None && editAmount == "" && editType == Some("")
      ensures rows == old(rows) && meta == old(meta) && divCache == old(divCache)
    {
      editingRow := None;
      editAmount := "";
      editType := Some("");
    }

    /** Saves the edit: nothing without a record being edited; an alert when a
        field is invalid; otherwise the PUT, and on success the matching rows
        patched, the dialog closed and "Berhasil diupdate."; on failure the
        server's first field message or "Gagal mengubah data.". The early
        returns leave `updating` alone; only the PUT sets and clears it. */
    method HandleUpdate(failure: Option<HttpError>) returns (request: Option<UpdateRequest>, message: Option<string>)
      modifies this`rows, this`editingRow, this`editAmount, this`editType, this`updating
      ensures old(editingRow).None? ==>
        && request.None? && message.None? && rows == old(rows) && editingRow == old(editingRow)
        && editAmount == old(editAmount) && editType == old(editType) && updating == old(updating)
      ensures old(editingRow).Some? && ValidateEdit(old(editAmount), old(editType)).Refused? ==>
        && request.None? && rows == old(rows) && editingRow == old(editingRow)
        && editAmount == old(editAmount) && editType == old(editType) && updating == old(updating)
        && message == Some(ValidateEdit(old(editAmount), old(editType)).message)
      ensures old(editingRow).Some? && ValidateEdit(old(editAmount), old(editType)).Accepted? ==>
        var v := ValidateEdit(old(editAmount), old(editType));
        && request == Some(UpdateRequest("/savings/" + IdText(old(editingRow).value.id), v.amount, v.kind))
        && (failure.None? ==>
              && rows == Patched(old(rows), old(editingRow).value.id, v.amount, v.kind)
              && editingRow == None && editAmount == "" && editType == Some("")
              && message == Some("Berhasil diupdate."))
        && (failure.Some? ==>
              && rows == old(rows) && editingRow == old(editingRow)
              && editAmount == old(editAmount) && editType == old(editType)
              && message == Some(FirstErrorMessage(failure.value, "Gagal mengubah data.")))
        && !updating
      ensures meta == old(meta) && page == old(page) && divCache == old(divCache) && deletingRow == old(deletingRow)
    {
      request := None;
      message := None;
      if editingRow.None? {
        return;
      }
      var row := editingRow.value;
      var v := ValidateEdit(editAmount, editType);
      if v.Refused? {
        message := Some(v.message);
        return;
      }
      updating := true;
      request := Some(UpdateRequest("/savings/" + IdText(row.id), v.amount, v.kind));
      message := CommitEdit(row.id, v.amount, v.kind, failure);
      updating := false;
    }

    /** The outcome of the PUT for an accepted edit: on success the row is
        patched in place and the editor closes; on failure nothing changes. */
    method CommitEdit(id: Option<int>, amount: real, kind: string, failure: Option<HttpError>) returns (message: Option<string>)
      modifies this`rows, this`editingRow, this`editAmount, this`editType
      ensures failure.None? ==>
        && rows == Patched(old(rows), id, amount, kind)
        && editingRow == None && editAmount == "" && editType == Some("")
        && message == Some("Berhasil diupdate.")
      ensures failure.Some? ==>
        && rows == old(rows) && editingRow == old(editingRow)
        && editAmount == old(editAmount) && editType == old(editType)
        && message == Some(FirstErrorMessage(failure.value, "Gagal mengubah data."))
    {
      if failure.None? {
        rows := Patched(rows, id, amount, kind);
        editingRow := None;
        editAmount := "";
        editType := Some("");
        message := Some("Berhasil diupdate.");
      } else {
        message := Some(FirstErrorMessage(failure.value, "Gagal mengubah data."));
      }
    }

    method OpenDelete(row: Saving)
      modifies this`deletingRow
      ensures deletingRow == Some(row)
      ensures rows == old(rows) && meta == old(meta)
    {
      deletingRow := Some(row);
    }

    method CloseDelete()
      modifies this`deletingRow
      ensures deletingRow == None
      ensures rows == old(rows) && meta == old(meta)
    {
      deletingRow := None;
    }

    /** Deletes the record: on success its id leaves the rows, the total drops
        by one (never below 0), the dialog closes and "Berhasil dihapus.";
        on failure the server's message or "Gagal menghapus.". */
    method HandleDelete(failure: Option<HttpError>) returns (request: Option<string>, message: Option<string>)
      modifies this`rows, this`meta, this`deletingRow, this`deleting
      ensures old(deletingRow).None? ==> request.None? && message.None? && rows == old(rows) && meta == old(meta)
      ensures old(deletingRow).Some? ==> request == Some(DeletePath(old(deletingRow).value))
      ensures old(deletingRow).Some? && failure.None? ==>
        && rows == Removed(old(rows), old(deletingRow).value.id)
        && meta == old(meta).(total := TotalAfterDelete(old(meta).total))
        && deletingRow == None && message == Some("Berhasil dihapus.")
      ensures old(deletingRow).Some? && failure.Some? ==>
        && rows == old(rows) && meta == old(meta) && deletingRow == old(deletingRow)
        && message == Some(ServerMessage(failure.value, "Gagal menghapus."))
      ensures !deleting
      ensures page == old(page) && divCache == old(divCache) && editingRow == old(editingRow)
    {
      request := None;
      message := None;
      if deletingRow.None? {
        deleting := false;
        return;
      }
      var row := deletingRow.value;
      deleting := true;
      request := Some(DeletePath(row));
      if failure.None? {
        rows := Removed(rows, row.id);
        meta := meta.(total := TotalAfterDelete(meta.total));
        deletingRow := None;
        message := Some("Berhasil dihapus.");
      } else {
        message := Some(ServerMessage(failure.value, "Gagal menghapus."));
      }
      deleting := false;
    }
  }
}
