/** The admin tables' client-side filter: a status and a "YYYY-MM" month, each
    optional, applied to rows by their status and by the month key of one of
    their timestamps; plus the date columns and export-file suffix built from
    the same values. */
module ListFilter {
  import opened Js

  /** How `new Date(ts)` reads a timestamp text: not a date, or a date with its
      local year and month (`getFullYear()`, `getMonth() + 1`) and the first ten
      characters of its `toISOString()`. Parsing is the platform's, so each
      timestamp carries its reading. */
  datatype DateReading = Invalid | Valid(year: int, month: int, isoDay: string)

  datatype Timestamp = Timestamp(text: string, reading: DateReading)

  /** `!ts` is false: the timestamp is present and not the empty string. */
  predicate Present(ts: Option<Timestamp>) {
    ts.Some? && ts.value.text != ""
  }

  /** The "YYYY-MM" text of a year and month: `${y}-${String(m).padStart(2, "0")}`. */
  function MonthText(year: int, month: nat): string {
    IntToString(year) + "-" + Pad2(month)
  }

  /** `getMonthKey(ts)`. */
  function MonthKey(ts: Option<Timestamp>): (r: string)
    ensures !Present(ts) ==> r == ""
    ensures Present(ts) && ts.value.reading.Invalid? ==> r == Take(ts.value.text, 7)
  {
    if !Present(ts) then ""
    else match ts.value.reading
      case Valid(y, m, _) => MonthText(y, if m < 0 then 0 else m)
      case Invalid => Take(ts.value.text, 7)
  }

  /** `isoTanggal(ts)`: the ISO day of a date, the text itself otherwise. */
  function IsoDate(ts: Option<Timestamp>): (r: string)
    ensures !Present(ts) ==> r == ""
    ensures Present(ts) && ts.value.reading.Invalid? ==> r == ts.value.text
  {
    if !Present(ts) then ""
    else match ts.value.reading
      case Valid(_, _, iso) => iso
      case Invalid => ts.value.text
  }

  /** The value shape of an `<input type="month">`: four digits, "-", two digits
      naming a month from 01 to 12. */
  predicate WellFormedMonth(s: string) {
    && |s| == 7 && AllDigits(s[..4]) && s[4] == '-' && AllDigits(s[5..])
    && 1 <= DigitsValue(s[5..]) <= 12
  }

  lemma FourDigitYear(y: int)
    requires 1000 <= y <= 9999
    ensures |IntToString(y)| == 4
  {
    assert 1 <= y / 1000 <= 9;
    assert |NatToString(y / 1000)| == 1;
    assert y / 100 / 10 == y / 1000;
    assert y / 10 / 10 == y / 100;
    assert |NatToString(y / 100)| == 2;
    assert |NatToString(y / 10)| == 3;
  }

  /** A date with a four-digit year gives a month key of the filter's shape,
      whose parts read back as its year and month. */
  lemma {:induction false} MonthKeyShape(y: int, m: int)
    requires 1000 <= y <= 9999 && 1 <= m <= 12
    ensures WellFormedMonth(MonthText(y, m))
    ensures DigitsValue(MonthText(y, m)[..4]) == y
    ensures DigitsValue(MonthText(y, m)[5..]) == m
  {
    FourDigitYear(y);
    var k := MonthText(y, m);
    assert k[..4] == IntToString(y) == NatToString(y);
    assert k[4] == '-';
    assert k[5..] == Pad2(m);
  }

  /** Two dates with four-digit years have the same month key exactly when
      they fall in the same local year and month. */
  lemma MonthKeyIdentifiesMonth(y1: int, m1: int, y2: int, m2: int)
    requires 1000 <= y1 <= 9999 && 1 <= m1 <= 12
    requires 1000 <= y2 <= 9999 && 1 <= m2 <= 12
    ensures MonthText(y1, m1) == MonthText(y2, m2) <==> y1 == y2 && m1 == m2
  {
    MonthKeyShape(y1, m1);
    MonthKeyShape(y2, m2);
  }

  /** The two filters; "" means "not set". */
  datatype Filters = Filters(status: string, month: string)

  /** `anyFilterActive`. */
  predicate Active(f: Filters) {
    f.status != "" || f.month != ""
  }

  /** The per-row test: a set status must equal the row's status, a set month
      must equal the month key of the row's timestamp. */
  predicate Passes(status: Option<string>, ts: Option<Timestamp>, f: Filters) {
    && (f.status == "" || status == Some(f.status))
    && (f.month == "" || MonthKey(ts) == f.month)
  }

  /** `rows.filter(...)` with the per-row test. */
  function Keep<T>(rows: seq<T>, statusOf: T -> Option<string>, dateOf: T -> Option<Timestamp>, f: Filters): (r: seq<T>)
    ensures |r| <= |rows|
    ensures forall i :: 0 <= i < |r| ==> Passes(statusOf(r[i]), dateOf(r[i]), f)
  {
    if rows == [] then []
    else
      (if Passes(statusOf(rows[0]), dateOf(rows[0]), f) then [rows[0]] else [])
      + Keep(rows[1..], statusOf, dateOf, f)
  }

  /** `displayedRows` / `displayedLoans`, and the export-all guard: every row
      when no filter is set, the passing rows otherwise. */
  function Displayed<T>(rows: seq<T>, statusOf: T -> Option<string>, dateOf: T -> Option<Timestamp>, f: Filters): seq<T> {
    if !Active(f) then rows else Keep(rows, statusOf, dateOf, f)
  }

  /** A row is shown exactly when it is one of the rows and passes both filters. */
  lemma {:induction false} KeepMembership<T>(rows: seq<T>, statusOf: T -> Option<string>, dateOf: T -> Option<Timestamp>, f: Filters, x: T)
    ensures x in Keep(rows, statusOf, dateOf, f) <==> x in rows && Passes(statusOf(x), dateOf(x), f)
  {
    if rows != [] {
      KeepMembership(rows[1..], statusOf, dateOf, f, x);
      assert rows == [rows[0]] + rows[1..];
    }
  }

  lemma DisplayedMembership<T>(rows: seq<T>, statusOf: T -> Option<string>, dateOf: T -> Option<Timestamp>, f: Filters, x: T)
    ensures x in Displayed(rows, statusOf, dateOf, f) <==> x in rows && Passes(statusOf(x), dateOf(x), f)
  {
    if Active(f) {
      KeepMembership(rows, statusOf, dateOf, f, x);
    }
  }

  /** Filtering concatenated pages is concatenating the filtered pages: the
      export-all guard keeps the same rows, in the same order, as each page's
      displayed rows put together. */
  lemma {:induction false} KeepDistributes<T>(a: seq<T>, b: seq<T>, statusOf: T -> Option<string>, dateOf: T -> Option<Timestamp>, f: Filters)
    ensures Keep(a + b, statusOf, dateOf, f) == Keep(a, statusOf, dateOf, f) + Keep(b, statusOf, dateOf, f)
  {
    if a == [] {
      assert a + b == b;
    } else {
      var head := if Passes(statusOf(a[0]), dateOf(a[0]), f) then [a[0]] else [];
      assert (a + b)[0] == a[0];
      assert (a + b)[1..] == a[1..] + b;
      KeepDistributes(a[1..], b, statusOf, dateOf, f);
      assert Keep(a + b, statusOf, dateOf, f) == head + Keep(a[1..] + b, statusOf, dateOf, f);
      assert Keep(a, statusOf, dateOf, f) == head + Keep(a[1..], statusOf, dateOf, f);
    }
  }

  lemma DisplayedDistributes<T>(a: seq<T>, b: seq<T>, statusOf: T -> Option<string>, dateOf: T -> Option<Timestamp>, f: Filters)
    ensures Displayed(a + b, statusOf, dateOf, f)
         == Displayed(a, statusOf, dateOf, f) + Displayed(b, statusOf, dateOf, f)
  {
    KeepDistributes(a, b, statusOf, dateOf, f);
  }

  /** Filtering twice changes nothing. */
  lemma {:induction false} KeepIdempotent<T>(rows: seq<T>, statusOf: T -> Option<string>, dateOf: T -> Option<Timestamp>, f: Filters)
    ensures Keep(Keep(rows, statusOf, dateOf, f), statusOf, dateOf, f) == Keep(rows, statusOf, dateOf, f)
  {
    if rows != [] {
      var k := Keep(rows, statusOf, dateOf, f);
      var tail := Keep(rows[1..], statusOf, dateOf, f);
      KeepIdempotent(rows[1..], statusOf, dateOf, f);
      if Passes(statusOf(rows[0]), dateOf(rows[0]), f) {
        assert k == [rows[0]] + tail;
        assert k[0] == rows[0] && k[1..] == tail;
      } else {
        assert k == tail;
      }
    }
  }

  /** Rows that pass every filter are all kept, in their order. */
  lemma {:induction false} KeepAllPassing<T>(rows: seq<T>, statusOf: T -> Option<string>, dateOf: T -> Option<Timestamp>, f: Filters)
    requires forall i :: 0 <= i < |rows| ==> Passes(statusOf(rows[i]), dateOf(rows[i]), f)
    ensures Keep(rows, statusOf, dateOf, f) == rows
  {
    if rows != [] {
      assert Passes(statusOf(rows[0]), dateOf(rows[0]), f);
      KeepAllPassing(rows[1..], statusOf, dateOf, f);
      assert [rows[0]] + rows[1..] == rows;
    }
  }

  /** The export file-name suffix: `_month` then `_status`, each only when set. */
  function Suffix(f: Filters): (r: string)
    ensures r == "" <==> !Active(f)
    ensures f.month != "" ==> StartsWith(r, "_" + f.month)
    ensures f.status != "" ==> 1 + |f.status| <= |r| && r[|r| - 1 - |f.status|..] == "_" + f.status
    ensures |r| == (if f.month != "" then 1 + |f.month| else 0) + (if f.status != "" then 1 + |f.status| else 0)
  {
    var m := if f.month != "" then "_" + f.month else "";
    var s := if f.status != "" then "_" + f.status else "";
    assert (m + s)[..|m|] == m;
    assert (m + s)[|m|..] == s;
    m + s
  }
}
