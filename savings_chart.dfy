/** The employee home page's savings trend: the rows of the fetched page
    grouped by month label, each month's finite amounts summed, and the months
    listed in ascending string order; plus the same yearly-dividend effect as
    the employee savings table. */
module SavingsChart {
  import opened Js
  import opened Pagination
  import opened Dividends
  import opened MySavings

  // ---- String order of `Array.prototype.sort` with no comparator ----

  /** `a` sorts strictly before `b`: a proper prefix, or smaller at the first
      character where they differ. */
  predicate Below(a: string, b: string)
    decreases |a|
  {
    if a == [] then b != []
    else b != [] && (a[0] < b[0] || (a[0] == b[0] && Below(a[1..], b[1..])))
  }

  lemma {:induction false} BelowIrreflexive(a: string)
    ensures !Below(a, a)
    decreases |a|
  {
    if a != [] {
      BelowIrreflexive(a[1..]);
    }
  }

  lemma {:induction false} BelowTransitive(a: string, b: string, c: string)
    requires Below(a, b) && Below(b, c)
    ensures Below(a, c)
    decreases |a|
  {
    if a != [] && a[0] == b[0] && b[0] == c[0] {
      BelowTransitive(a[1..], b[1..], c[1..]);
    }
  }

  lemma {:induction false} BelowTotal(a: string, b: string)
    requires a != b
    ensures Below(a, b) || Below(b, a)
    decreases |a|
  {
    if a != [] && b != [] && a[0] == b[0] {
      assert a == [a[0]] + a[1..] && b == [b[0]] + b[1..];
      BelowTotal(a[1..], b[1..]);
    }
  }

  lemma BelowAsymmetric(a: string, b: string)
    requires Below(a, b)
    ensures !Below(b, a)
  {
    if Below(b, a) {
      BelowTransitive(a, b, a);
      BelowIrreflexive(a);
    }
  }

  /** Strictly ascending: every earlier element sorts before every later one. */
  predicate Ascending(s: seq<string>) {
    forall i, j :: 0 <= i < j < |s| ==> Below(s[i], s[j])
  }

  lemma AscendingHasNoDuplicates(s: seq<string>)
    requires Ascending(s)
    ensures NoDuplicates(s)
  {
    forall i, j | 0 <= i < j < |s| ensures s[i] != s[j] {
      BelowIrreflexive(s[i]);
    }
  }

  /** Puts `x` into its place in an ascending list that does not hold it. */
  function Insert(x: string, s: seq<string>): (r: seq<string>)
    requires Ascending(s) && x !in s
    ensures Ascending(r)
    ensures forall y :: y in r <==> y == x || y in s
    ensures |r| == |s| + 1
  {
    if s == [] then [x]
    else if Below(x, s[0]) then
      assert forall j :: 0 <= j < |s| ==> Below(x, s[j]) by {
        forall j | 0 < j < |s| ensures Below(x, s[j]) {
          BelowTransitive(x, s[0], s[j]);
        }
      }
      [x] + s
    else
      BelowTotal(x, s[0]);
      var rest := Insert(x, s[1..]);
      assert forall y :: y in rest ==> Below(s[0], y) by {
        forall y | y in rest ensures Below(s[0], y) {
          if y != x {
            var j :| 0 <= j < |s[1..]| && s[1..][j] == y;
            assert s[j + 1] == y;
          }
        }
      }
      [s[0]] + rest
  }

  /** `.sort()` on distinct strings: the ascending list of the same strings. */
  function Sort(xs: seq<string>): (r: seq<string>)
    requires NoDuplicates(xs)
    ensures Ascending(r)
    ensures forall y :: y in r <==> y in xs
    ensures |r| == |xs|
  {
    if xs == [] then []
    else
      var n := |xs| - 1;
      assert NoDuplicates(xs[..n]) && xs[n] !in xs[..n];
      Insert(xs[n], Sort(xs[..n]))
  }

  /** There is one ascending listing of a set of strings: any two ascending
      lists of the same strings are equal, so the chart's order does not
      depend on the order in which months were first seen. */
  lemma {:induction false} AscendingIsUnique(a: seq<string>, b: seq<string>)
    requires Ascending(a) && Ascending(b)
    requires forall y :: y in a <==> y in b
    ensures a == b
    decreases |a|
  {
    assert a == [] <==> b == [] by {
      if a != [] {
        assert a[0] in b;
      }
      if b != [] {
        assert b[0] in a;
      }
    }
    if a != [] {
      if a[0] != b[0] {
        assert a[0] in b;
        assert b[0] in a;
        var k :| 0 <= k < |b| && b[k] == a[0];
        var m :| 0 <= m < |a| && a[m] == b[0];
        assert Below(b[0], a[0]);
        assert Below(a[0], b[0]);
        BelowAsymmetric(a[0], b[0]);
      }
      AscendingHasNoDuplicates(a);
      AscendingHasNoDuplicates(b);
      forall y ensures y in a[1..] <==> y in b[1..] {
        if y in a[1..] {
          var j :| 0 <= j < |a[1..]| && a[1..][j] == y;
          assert a[j + 1] == y && y != a[0];
          assert y in b;
          var k :| 0 <= k < |b| && b[k] == y;
          assert k != 0 && b[1..][k - 1] == y;
        }
        if y in b[1..] {
          var j :| 0 <= j < |b[1..]| && b[1..][j] == y;
          assert b[j + 1] == y && y != b[0];
          assert y in a;
          var k :| 0 <= k < |a| && a[k] == y;
          assert k != 0 && a[1..][k - 1] == y;
        }
      }
      AscendingIsUnique(a[1..], b[1..]);
      assert a == [a[0]] + a[1..] && b == [b[0]] + b[1..];
    }
  }

  // ---- The aggregation ----

  /** The month a row is charted under. */
  function Label(r: MySaving): string {
    MonthLabel(r.month)
  }

  /** `Number.isFinite(amt) ? amt : 0`. */
  function Counted(r: MySaving): real {
    if r.amount.Finite? then r.amount.value else 0.0
  }

  function Labels(rows: seq<MySaving>): (ls: seq<string>)
    ensures |ls| == |rows|
    ensures forall i :: 0 <= i < |rows| ==> ls[i] == Label(rows[i])
  {
    if rows == [] then [] else Labels(rows[..|rows| - 1]) + [Label(rows[|rows| - 1])]
  }

  /** The sum of the counted amounts of the rows charted under `k`. */
  function SumFor(rows: seq<MySaving>, k: string): (s: real)
    ensures k !in Labels(rows) ==> s == 0.0
  {
    if rows == [] then 0.0
    else
      var n := |rows| - 1;
      assert Labels(rows) == Labels(rows[..n]) + [Label(rows[n])];
      SumFor(rows[..n], k) + (if Label(rows[n]) == k then Counted(rows[n]) else 0.0)
  }

  /** The sum of the counted amounts of all rows. */
  function SumAll(rows: seq<MySaving>): real {
    if rows == [] then 0.0 else SumAll(rows[..|rows| - 1]) + Counted(rows[|rows| - 1])
  }

  /** The `map` object after the `forEach`: each row adds its counted amount
      to its label's entry, an absent entry counting as 0. */
  function Totals(rows: seq<MySaving>): map<string, real> {
    if rows == [] then map[]
    else
      var front := Totals(rows[..|rows| - 1]);
      var k := Label(rows[|rows| - 1]);
      front[k := (if k in front then front[k] else 0.0) + Counted(rows[|rows| - 1])]
  }

  /** The totals object has one entry per label, holding the sum of that
      label's counted amounts. */
  lemma {:induction false} TotalsMeaning(rows: seq<MySaving>)
    ensures forall k :: k in Totals(rows) <==> k in Labels(rows)
    ensures forall k :: k in Totals(rows) ==> Totals(rows)[k] == SumFor(rows, k)
  {
    if rows != [] {
      var n := |rows| - 1;
      TotalsMeaning(rows[..n]);
      assert Labels(rows) == Labels(rows[..n]) + [Label(rows[n])];
    }
  }

  /** One point of the chart. */
  datatype Point = Point(month: string, total: real)

  /** `chartData`: the labels in ascending order, each with its total. */
  function ChartOf(rows: seq<MySaving>): (data: seq<Point>) {
    var t := Totals(rows);
    var ms := Sort(Distinct(Labels(rows)));
    TotalsMeaning(rows);
    seq(|ms|, i requires 0 <= i < |ms| => Point(ms[i], t[ms[i]]))
  }

  /** The chart's months, in order. */
  function Months(data: seq<Point>): (ms: seq<string>)
    ensures |ms| == |data|
    ensures forall i :: 0 <= i < |data| ==> ms[i] == data[i].month
  {
    if data == [] then [] else [data[0].month] + Months(data[1..])
  }

  lemma ChartMonthsAreSortedLabels(rows: seq<MySaving>)
    ensures Months(ChartOf(rows)) == Sort(Distinct(Labels(rows)))
  {
    var ms := Sort(Distinct(Labels(rows)));
    assert forall i :: 0 <= i < |ms| ==> Months(ChartOf(rows))[i] == ms[i];
  }

  /** The chart has exactly one point per distinct month label, in ascending
      order. */
  lemma ChartMonths(rows: seq<MySaving>)
    ensures var ms := Months(ChartOf(rows));
      && |ms| == |Distinct(Labels(rows))|
      && Ascending(ms) && NoDuplicates(ms)
      && forall k :: k in ms <==> k in Labels(rows)
  {
    ChartMonthsAreSortedLabels(rows);
    AscendingHasNoDuplicates(Months(ChartOf(rows)));
  }

  /** Each point's total is the sum of the finite amounts of its month's rows. */
  lemma ChartTotals(rows: seq<MySaving>)
    ensures forall i :: 0 <= i < |ChartOf(rows)| ==> ChartOf(rows)[i].total == SumFor(rows, ChartOf(rows)[i].month)
  {
    TotalsMeaning(rows);
  }

  /** The sum over `keys` of each key's total. */
  function SumOver(keys: seq<string>, rows: seq<MySaving>): real {
    if keys == [] then 0.0 else SumFor(rows, keys[0]) + SumOver(keys[1..], rows)
  }

  function SumPoints(data: seq<Point>): real {
    if data == [] then 0.0 else data[0].total + SumPoints(data[1..])
  }

  lemma {:induction false} SumOverNoRows(keys: seq<string>)
    ensures SumOver(keys, []) == 0.0
  {
    if keys != [] {
      SumOverNoRows(keys[1..]);
    }
  }

  /** One more row adds its amount once to the key it is charted under. */
  lemma {:induction false} SumOverSnoc(keys: seq<string>, rows: seq<MySaving>, r: MySaving)
    requires NoDuplicates(keys)
    ensures SumOver(keys, rows + [r]) == SumOver(keys, rows) + (if Label(r) in keys then Counted(r) else 0.0)
  {
    if keys != [] {
      assert (rows + [r])[..|rows|] == rows;
      assert NoDuplicates(keys[1..]);
      SumOverSnoc(keys[1..], rows, r);
      assert keys == [keys[0]] + keys[1..];
      assert Label(r) == keys[0] ==> Label(r) !in keys[1..];
    }
  }

  /** Summing the per-key totals over keys that cover every label, each once,
      gives the sum of all counted amounts. */
  lemma {:induction false} SumOverCovers(keys: seq<string>, rows: seq<MySaving>)
    requires NoDuplicates(keys)
    requires forall i :: 0 <= i < |rows| ==> Label(rows[i]) in keys
    ensures SumOver(keys, rows) == SumAll(rows)
  {
    if rows == [] {
      SumOverNoRows(keys);
    } else {
      var n := |rows| - 1;
      assert rows == rows[..n] + [rows[n]];
      SumOverCovers(keys, rows[..n]);
      SumOverSnoc(keys, rows[..n], rows[n]);
    }
  }

  lemma {:induction false} SumPointsIsSumOver(data: seq<Point>, keys: seq<string>, rows: seq<MySaving>)
    requires |data| == |keys|
    requires forall i :: 0 <= i < |data| ==> data[i].total == SumFor(rows, keys[i])
    ensures SumPoints(data) == SumOver(keys, rows)
  {
    if data != [] {
      SumPointsIsSumOver(data[1..], keys[1..], rows);
    }
  }

  /** Nothing is lost or counted twice: the chart's totals add up to the sum
      of the rows' finite amounts. */
  lemma ChartKeepsTheSum(rows: seq<MySaving>)
    ensures SumPoints(ChartOf(rows)) == SumAll(rows)
  {
    var ms := Sort(Distinct(Labels(rows)));
    var data := ChartOf(rows);
    AscendingHasNoDuplicates(ms);
    ChartTotals(rows);
    SumPointsIsSumOver(data, ms, rows);
    assert forall i :: 0 <= i < |rows| ==> Label(rows[i]) in ms by {
      forall i | 0 <= i < |rows| ensures Label(rows[i]) in ms {
        assert Labels(rows)[i] == Label(rows[i]);
      }
    }
    SumOverCovers(ms, rows);
  }

  /** The totals object and its key order after adding the rows one by one. */
  function Filled(rows: seq<MySaving>): (map<string, real>, seq<string>) {
    if rows == [] then (map[], [])
    else
      var f := Filled(rows[..|rows| - 1]);
      var k := Label(rows[|rows| - 1]);
      (f.0[k := (if k in f.0 then f.0[k] else 0.0) + Counted(rows[|rows| - 1])], if k in f.1 then f.1 else f.1 + [k])
  }

  /** Adding the rows one by one gives the totals object. */
  lemma {:induction false} FilledTotals(rows: seq<MySaving>)
    ensures Filled(rows).0 == Totals(rows)
  {
    if rows != [] {
      FilledTotals(rows[..|rows| - 1]);
    }
  }

  /** Adding the rows one by one gives the labels in first-seen order. */
  lemma {:induction false} FilledKeys(rows: seq<MySaving>)
    ensures Filled(rows).1 == Distinct(Labels(rows))
  {
    if rows != [] {
      var n := |rows| - 1;
      FilledKeys(rows[..n]);
      DistinctSnoc(Labels(rows[..n]), Label(rows[n]));
    }
  }

  /** The `forEach` of `chartData`: fills the totals object, whose keys keep
      first-seen order. */
  method FillTotals(rows: seq<MySaving>) returns (totals: map<string, real>, keys: seq<string>)
    ensures totals == Totals(rows)
    ensures keys == Distinct(Labels(rows))
  {
    totals := map[];
    keys := [];
    for i := 0 to |rows|
      invariant (totals, keys) == Filled(rows[..i])
    {
      assert rows[..i + 1][..i] == rows[..i];
      var k := Label(rows[i]);
      if k !in keys {
        keys := keys + [k];
      }
      totals := totals[k := (if k in totals then totals[k] else 0.0) + Counted(rows[i])];
    }
    assert rows[..|rows|] == rows;
    FilledTotals(rows);
    FilledKeys(rows);
  }

  /** The chart panel's own state: the fetched rows and the dividend cache. */
  class SavingsTrend {
    var rows: seq<MySaving>
    var divCache: Cache

    constructor ()
      ensures rows == [] && divCache == map[]
    {
      rows := [];
      divCache := map[];
    }

    /** `chartData`: the `forEach` fills the totals object (whose keys keep
        first-seen order), then the keys are sorted and paired with their totals. */
    method ChartData() returns (data: seq<Point>)
      ensures data == ChartOf(rows)
    {
      var totals, keys := FillTotals(rows);
      var months := Sort(keys);
      TotalsMeaning(rows);
      data := seq(|months|, i requires 0 <= i < |months| => Point(months[i], totals[months[i]]));
    }

    /** The years effect: each four-digit year of the rows with no cached
        dividend, once, in first-seen order. */
    method CollectYears() returns (years: seq<string>)
      ensures years == Jobs(NeededYears(rows), divCache)
    {
      years := YearsToFetch(rows, divCache);
      DistinctUncachedCommute(NeededYears(rows), divCache);
    }

    /** Settles the dividend requests: each year gets its answer, 0 for a failure. */
    method StoreDividends(years: seq<string>, answers: seq<Answer>)
      requires |answers| == |years|
      modifies this`divCache
      ensures divCache == Merged(old(divCache), years, answers)
      ensures rows == old(rows)
    {
      divCache := Merge(divCache, years, answers);
    }
  }
}
