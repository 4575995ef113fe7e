/** Trend reconciliation: monthly totals of the two periods side by side, with the
    percentage change per month and the months that moved by more than 10 percent
    (sales_register_analysis/app.py lines 113-128 and 147; app.py lines 86-100 and 117). */
module Trend {
  import opened Wrappers
  import opened Collections
  import opened Records
  import RowFilter

  predicate InMonth(t: Transaction, m: int)
  {
    t.date.Some? && t.date.value.month == m
  }

  /** The row belongs to the (Month, Year) group (m, y). */
  predicate InGroup(t: Transaction, m: int, y: int)
  {
    InMonth(t, m) && t.date.value.year == y
  }

  predicate HasGroup(rows: seq<Transaction>, m: int, y: int)
  {
    exists i :: 0 <= i < |rows| && InGroup(rows[i], m, y)
  }

  /** Sum of 'Total Amount (Inc. Tax)' over one (Month, Year) group. */
  function GroupTotal(rows: seq<Transaction>, m: int, y: int): real
  {
    if rows == [] then 0.0
    else (if InGroup(rows[0], m, y) then rows[0].amountIncTax else 0.0) + GroupTotal(rows[1..], m, y)
  }

  /** Sum of 'Total Amount (Inc. Tax)' over every row dated in month `m`, whatever its year. */
  function MonthTotal(rows: seq<Transaction>, m: int): real
  {
    if rows == [] then 0.0
    else (if InMonth(rows[0], m) then rows[0].amountIncTax else 0.0) + MonthTotal(rows[1..], m)
  }

  /** Inserts `y` into an ascending list of years, keeping it free of repeats. */
  function InsertYear(ys: seq<int>, y: int): (r: seq<int>)
    requires StrictlyIncreasing(ys)
    ensures StrictlyIncreasing(r)
    ensures forall z :: z in r <==> z in ys || z == y
  {
    if ys == [] then [y]
    else if y < ys[0] then [y] + ys
    else if y == ys[0] then ys
    else
      var tail := InsertYear(ys[1..], y);
      assert forall k :: 0 <= k < |tail| ==> tail[k] in ys[1..] || tail[k] == y;
      [ys[0]] + tail
  }

  lemma HasGroupSnoc(rows: seq<Transaction>, m: int, y: int)
    requires rows != []
    ensures HasGroup(rows, m, y) <==> HasGroup(rows[..|rows| - 1], m, y) || InGroup(rows[|rows| - 1], m, y)
  {
    var init := rows[..|rows| - 1];
    if HasGroup(rows, m, y) && !InGroup(rows[|rows| - 1], m, y) {
      var i :| 0 <= i < |rows| && InGroup(rows[i], m, y);
      assert init[i] == rows[i];
    }
    if HasGroup(init, m, y) {
      var i :| 0 <= i < |init| && InGroup(init[i], m, y);
      assert rows[i] == init[i];
    }
  }

  /** The years that have a group for month `m`, ascending and without repeats: the keys
      `groupby(['Month', 'Year'])` produces for that month, in its sorted order. */
  function GroupYears(rows: seq<Transaction>, m: int): (ys: seq<int>)
    ensures StrictlyIncreasing(ys)
    ensures forall y :: y in ys <==> HasGroup(rows, m, y)
    decreases |rows|
  {
    if rows == [] then []
    else
      var last := rows[|rows| - 1];
      var ys := GroupYears(rows[..|rows| - 1], m);
      assert forall y :: HasGroup(rows, m, y) <==> HasGroup(rows[..|rows| - 1], m, y) || InGroup(last, m, y) by {
        forall y ensures HasGroup(rows, m, y) <==> HasGroup(rows[..|rows| - 1], m, y) || InGroup(last, m, y) {
          HasGroupSnoc(rows, m, y);
        }
      }
      if InMonth(last, m) then InsertYear(ys, last.date.value.year) else ys
  }

  /** The grouped series has at least one row. */
  predicate HasGroups(rows: seq<Transaction>)
  {
    exists m :: 1 <= m <= 12 && GroupYears(rows, m) != []
  }

  /** One row of a period after the left merge onto the month labels: `year` is 0 and
      `total` is 0 for a month with no group (the NaNs `fillna(0)` replaces). Months are
      the numbers 1 to 12 standing for the labels "01" to "12". */
  datatype MonthRow = MonthRow(month: int, year: int, total: real)

  /** The rows the left merge of label `m` with a period's grouped series produces: one per
      group of that month, or one zero-filled row. */
  function JoinMonth(rows: seq<Transaction>, m: int): (r: seq<MonthRow>)
    ensures |r| >= 1
    ensures forall k :: 0 <= k < |r| ==> r[k].month == m
    ensures GroupYears(rows, m) == [] ==> r == [MonthRow(m, 0, 0.0)]
    ensures GroupYears(rows, m) != [] ==>
      |r| == |GroupYears(rows, m)| &&
      forall k :: 0 <= k < |r| ==>
        r[k].year == GroupYears(rows, m)[k] && HasGroup(rows, m, r[k].year) && r[k].total == GroupTotal(rows, m, r[k].year)
  {
    var ys := GroupYears(rows, m);
    if ys == [] then [MonthRow(m, 0, 0.0)]
    else seq(|ys|, k requires 0 <= k < |ys| => MonthRow(m, ys[k], GroupTotal(rows, m, ys[k])))
  }

  /** The totals of a period's rows after the merge. */
  function RowsTotal(r: seq<MonthRow>): real
  {
    if r == [] then 0.0 else r[0].total + RowsTotal(r[1..])
  }

  /** The sum of the group totals of month `m` over the years `ys`. */
  function YearsTotal(rows: seq<Transaction>, m: int, ys: seq<int>): real
  {
    if ys == [] then 0.0 else GroupTotal(rows, m, ys[0]) + YearsTotal(rows, m, ys[1..])
  }

  lemma {:induction false} MonthTotalSnoc(rows: seq<Transaction>, m: int)
    requires rows != []
    ensures MonthTotal(rows, m) ==
      MonthTotal(rows[..|rows| - 1], m) + (if InMonth(rows[|rows| - 1], m) then rows[|rows| - 1].amountIncTax else 0.0)
  {
    if |rows| > 1 {
      assert rows[1..][..|rows| - 2] == rows[..|rows| - 1][1..];
      MonthTotalSnoc(rows[1..], m);
    }
  }

  lemma {:induction false} GroupTotalSnoc(rows: seq<Transaction>, m: int, y: int)
    requires rows != []
    ensures GroupTotal(rows, m, y) ==
      GroupTotal(rows[..|rows| - 1], m, y) + (if InGroup(rows[|rows| - 1], m, y) then rows[|rows| - 1].amountIncTax else 0.0)
  {
    if |rows| > 1 {
      assert rows[1..][..|rows| - 2] == rows[..|rows| - 1][1..];
      GroupTotalSnoc(rows[1..], m, y);
    }
  }

  /** A group with no row totals 0. */
  lemma {:induction false} NoGroupZero(rows: seq<Transaction>, m: int, y: int)
    requires !HasGroup(rows, m, y)
    ensures GroupTotal(rows, m, y) == 0.0
  {
    if rows != [] {
      forall i | 0 <= i < |rows[1..]|
        ensures !InGroup(rows[1..][i], m, y)
      {
        assert rows[1..][i] == rows[i + 1];
      }
      NoGroupZero(rows[1..], m, y);
    }
  }

  /** Adding the last row of a period to the sums over distinct years adds its amount once
      if its year is among them. */
  lemma {:induction false} YearsTotalSnoc(rows: seq<Transaction>, m: int, ys: seq<int>)
    requires rows != [] && StrictlyIncreasing(ys)
    ensures var last := rows[|rows| - 1];
      YearsTotal(rows, m, ys) ==
        YearsTotal(rows[..|rows| - 1], m, ys) + (if InMonth(last, m) && last.date.value.year in ys then last.amountIncTax else 0.0)
  {
    if ys != [] {
      var last := rows[|rows| - 1];
      GroupTotalSnoc(rows, m, ys[0]);
      assert StrictlyIncreasing(ys[1..]);
      assert ys[0] !in ys[1..];
      YearsTotalSnoc(rows, m, ys[1..]);
      assert ys == [ys[0]] + ys[1..];
    }
  }

  lemma {:induction false} InsertYearPresent(ys: seq<int>, y: int)
    requires StrictlyIncreasing(ys) && y in ys
    ensures InsertYear(ys, y) == ys
  {
    if y != ys[0] {
      assert y in ys[1..];
      InsertYearPresent(ys[1..], y);
      assert [ys[0]] + ys[1..] == ys;
    }
  }

  lemma {:induction false} YearsTotalInsert(rows: seq<Transaction>, m: int, ys: seq<int>, y: int)
    requires StrictlyIncreasing(ys) && y !in ys
    ensures YearsTotal(rows, m, InsertYear(ys, y)) == YearsTotal(rows, m, ys) + GroupTotal(rows, m, y)
  {
    if ys != [] && y > ys[0] {
      YearsTotalInsert(rows, m, ys[1..], y);
      var tail := InsertYear(ys[1..], y);
      assert ([ys[0]] + tail)[1..] == tail;
    } else if ys != [] {
      assert ([y] + ys)[1..] == ys;
    }
  }

  /** Every row dated in month `m` falls in exactly one of the month's groups: the month's
      total is the sum of its group totals. */
  lemma {:induction false} MonthTotalByYears(rows: seq<Transaction>, m: int)
    ensures MonthTotal(rows, m) == YearsTotal(rows, m, GroupYears(rows, m))
    decreases |rows|
  {
    if rows != [] {
      var init := rows[..|rows| - 1];
      var last := rows[|rows| - 1];
      var ys := GroupYears(init, m);
      MonthTotalByYears(init, m);
      MonthTotalSnoc(rows, m);
      YearsTotalSnoc(rows, m, ys);
      if InMonth(last, m) {
        var y := last.date.value.year;
        if y in ys {
          InsertYearPresent(ys, y);
        } else {
          YearsTotalInsert(rows, m, ys, y);
          assert !HasGroup(init, m, y);
          NoGroupZero(init, m, y);
          GroupTotalSnoc(rows, m, y);
        }
      }
    }
  }

  lemma {:induction false} RowsTotalByYears(rows: seq<Transaction>, m: int, r: seq<MonthRow>, ys: seq<int>)
    requires |r| == |ys|
    requires forall k :: 0 <= k < |r| ==> r[k].total == GroupTotal(rows, m, ys[k])
    ensures RowsTotal(r) == YearsTotal(rows, m, ys)
  {
    if r != [] {
      RowsTotalByYears(rows, m, r[1..], ys[1..]);
    }
  }

  /** The merge keeps the month's sales: the rows of month `m` after the left merge add up
      to the tax-included total of every sale dated in that month. */
  lemma JoinMonthTotal(rows: seq<Transaction>, m: int)
    ensures RowsTotal(JoinMonth(rows, m)) == MonthTotal(rows, m)
  {
    var ys := GroupYears(rows, m);
    MonthTotalByYears(rows, m);
    if ys == [] {
      assert RowsTotal([MonthRow(m, 0, 0.0)]) == 0.0;
    } else {
      RowsTotalByYears(rows, m, JoinMonth(rows, m), ys);
    }
  }

  /** A percentage change as pandas produces it: a number, or an infinity from dividing a
      non-zero difference by a zero prior total. */
  datatype Change = Finite(value: real) | PlusInfinity | MinusInfinity

  function Abs(x: real): real
  {
    if x < 0.0 then -x else x
  }

  /** `abs(change) > 10`; an infinity always exceeds it. */
  predicate Exceeds10(c: Change)
  {
    c.Finite? ==> Abs(c.value) > 10.0
  }

  /** sales_register_analysis/app.py: `(cur - prior) / prior * 100`, with the infinities of
      a zero prior replaced by 0 and the NaN of 0/0 filled with 0. */
  function PercentChange(current: real, prior: real): (r: Change)
    ensures r.Finite?
    ensures prior == 0.0 ==> r.value == 0.0
    ensures prior != 0.0 ==> r.value * prior == (current - prior) * 100.0
  {
    if prior == 0.0 then Finite(0.0) else Finite((current - prior) / prior * 100.0)
  }

  /** app.py: the same division, but only the NaN of 0/0 is filled with 0; a non-zero
      change over a zero prior stays infinite. */
  function PercentChangeLegacy(current: real, prior: real): (r: Change)
    ensures prior != 0.0 || current == 0.0 ==> r.Finite?
    ensures prior == 0.0 && current > 0.0 ==> r == PlusInfinity
    ensures prior == 0.0 && current < 0.0 ==> r == MinusInfinity
    ensures prior == 0.0 && current == 0.0 ==> r == Finite(0.0)
    ensures prior != 0.0 ==> r == PercentChange(current, prior)
  {
    if prior != 0.0 then Finite((current - prior) / prior * 100.0)
    else if current > 0.0 then PlusInfinity
    else if current < 0.0 then MinusInfinity
    else Finite(0.0)
  }

  /** For a positive `b` with `a * b == 100 * d`: `a > 10` exactly when `10 * d > b`. */
  lemma ScaledComparison(a: real, b: real, d: real)
    requires b > 0.0 && a * b == d * 100.0
    ensures 10.0 < a <==> b < 10.0 * d
  {
    assert a * b - 10.0 * b == (a - 10.0) * b;
    if 10.0 < a { assert (a - 10.0) * b > 0.0; }
    if a <= 10.0 { assert (10.0 - a) * b >= 0.0; }
  }

  lemma AbsMul(a: real, b: real)
    ensures Abs(a * b) == Abs(a) * Abs(b)
  {
  }

  /** A month is flagged in sales_register_analysis/app.py exactly when the prior total is
      non-zero and the difference exceeds a tenth of the prior total in size. */
  lemma {:induction false} FlaggedIff(current: real, prior: real)
    ensures Exceeds10(PercentChange(current, prior)) <==>
            prior != 0.0 && 10.0 * Abs(current - prior) > Abs(prior)
  {
    if prior != 0.0 {
      var v := PercentChange(current, prior).value;
      AbsMul(v, prior);
      AbsMul(current - prior, 100.0);
      var a, b, d := Abs(v), Abs(prior), Abs(current - prior);
      ScaledComparison(a, b, d);
    } else {
      assert PercentChange(current, prior) == Finite(0.0);
    }
  }

  /** In app.py a zero prior with a non-zero current total is always flagged; otherwise the
      test is the same as in the packaged edition. */
  lemma FlaggedIffLegacy(current: real, prior: real)
    ensures Exceeds10(PercentChangeLegacy(current, prior)) <==>
            (prior == 0.0 && current != 0.0) || (prior != 0.0 && 10.0 * Abs(current - prior) > Abs(prior))
  {
    FlaggedIff(current, prior);
    if prior != 0.0 {
      assert PercentChangeLegacy(current, prior) == PercentChange(current, prior);
    }
  }

  /** One month of the outer merge on 'Month': every current row of the month paired with
      every prior row of the month. */
  datatype Bucket = Bucket(month: int, currentYear: int, current: real, priorYear: int, prior: real, change: Change)

  function MonthBuckets(cs: seq<MonthRow>, ps: seq<MonthRow>, change: (real, real) -> Change): seq<Bucket>
  {
    if cs == [] then []
    else
      seq(|ps|, j requires 0 <= j < |ps| =>
            Bucket(cs[0].month, cs[0].year, cs[0].total, ps[j].year, ps[j].total, change(cs[0].total, ps[j].total)))
      + MonthBuckets(cs[1..], ps, change)
  }

  /** The merged table for the months `m` to 12, in month order (the outer merge sorts its
      keys, and the labels "01" to "12" sort as the months do). */
  function Table(cur: seq<Transaction>, prior: seq<Transaction>, change: (real, real) -> Change, m: int): seq<Bucket>
    requires 1 <= m <= 13
    decreases 13 - m
  {
    if m == 13 then []
    else MonthBuckets(JoinMonth(cur, m), JoinMonth(prior, m), change) + Table(cur, prior, change, m + 1)
  }

  /** The comparison: "no data" (`None`) when either period has no (Month, Year) group,
      otherwise rows each pairing the two periods' merged rows of one month. */
  function ReconcileWith(cur: seq<Transaction>, prior: seq<Transaction>, change: (real, real) -> Change)
    : (r: Option<seq<Bucket>>)
    ensures r.None? <==> !HasGroups(cur) || !HasGroups(prior)
    ensures r.Some? ==> forall b :: b in r.value ==> BucketOf(b, cur, prior, change)
  {
    if !HasGroups(cur) || !HasGroups(prior) then None
    else
      TableBuckets(cur, prior, change, 1);
      Some(Table(cur, prior, change, 1))
  }

  /** The monthly comparison of sales_register_analysis/app.py; `None` is the "no data"
      warning. */
  function Reconcile(cur: seq<Transaction>, prior: seq<Transaction>): (r: Option<seq<Bucket>>)
    ensures r.None? <==> !HasGroups(cur) || !HasGroups(prior)
    ensures r.Some? ==> forall b :: b in r.value ==> BucketOf(b, cur, prior, PercentChange)
  {
    ReconcileWith(cur, prior, PercentChange)
  }

  /** The monthly comparison of app.py. */
  function ReconcileLegacy(cur: seq<Transaction>, prior: seq<Transaction>): (r: Option<seq<Bucket>>)
    ensures r.None? <==> !HasGroups(cur) || !HasGroups(prior)
    ensures r.Some? ==> forall b :: b in r.value ==> BucketOf(b, cur, prior, PercentChangeLegacy)
  {
    ReconcileWith(cur, prior, PercentChangeLegacy)
  }

  /** `merged[abs(merged['Percentage Change']) > 10]`: the rows whose change exceeds 10 in
      size, in table order, each as often as in the table. */
  function SignificantChanges(table: seq<Bucket>): (r: seq<Bucket>)
    ensures forall b :: b in r <==> b in table && Exceeds10(b.change)
    ensures multiset(r) <= multiset(table)
  {
    WhereSubMultiset(table, (b: Bucket) => Exceeds10(b.change));
    Where(table, (b: Bucket) => Exceeds10(b.change))
  }

  /** A row of the comparison pairs a row of the current period's merge and a row of the
      prior period's merge for the same month, with the change between their totals. */
  predicate BucketOf(b: Bucket, cur: seq<Transaction>, prior: seq<Transaction>, change: (real, real) -> Change)
  {
    1 <= b.month <= 12 &&
    MonthRow(b.month, b.currentYear, b.current) in JoinMonth(cur, b.month) &&
    MonthRow(b.month, b.priorYear, b.prior) in JoinMonth(prior, b.month) &&
    b.change == change(b.current, b.prior)
  }

  lemma {:induction false} MonthBucketsFrom(cs: seq<MonthRow>, ps: seq<MonthRow>, change: (real, real) -> Change, m: int)
    requires forall i :: 0 <= i < |cs| ==> cs[i].month == m
    requires forall j :: 0 <= j < |ps| ==> ps[j].month == m
    ensures forall b :: b in MonthBuckets(cs, ps, change) ==>
      b.month == m && MonthRow(m, b.currentYear, b.current) in cs && MonthRow(m, b.priorYear, b.prior) in ps &&
      b.change == change(b.current, b.prior)
  {
    if cs != [] {
      MonthBucketsFrom(cs[1..], ps, change, m);
      var head := seq(|ps|, j requires 0 <= j < |ps| =>
        Bucket(cs[0].month, cs[0].year, cs[0].total, ps[j].year, ps[j].total, change(cs[0].total, ps[j].total)));
      assert MonthBuckets(cs, ps, change) == head + MonthBuckets(cs[1..], ps, change);
      forall b | b in head
        ensures b.month == m && MonthRow(m, b.currentYear, b.current) in cs && MonthRow(m, b.priorYear, b.prior) in ps
      {
        var j :| 0 <= j < |ps| && head[j] == b;
        assert ps[j] == MonthRow(m, b.priorYear, b.prior);
      }
      forall b | b in MonthBuckets(cs[1..], ps, change)
        ensures MonthRow(m, b.currentYear, b.current) in cs
      {
        assert MonthRow(m, b.currentYear, b.current) in cs[1..];
      }
    }
  }

  /** Every row of the merged table from month `m` on is a pairing of that month's merged
      rows, for a month from `m` to 12. */
  lemma {:induction false} TableBuckets(cur: seq<Transaction>, prior: seq<Transaction>, change: (real, real) -> Change, m: int)
    requires 1 <= m <= 13
    ensures forall b :: b in Table(cur, prior, change, m) ==> m <= b.month && BucketOf(b, cur, prior, change)
    decreases 13 - m
  {
    if m < 13 {
      var cs, ps := JoinMonth(cur, m), JoinMonth(prior, m);
      var head, rest := MonthBuckets(cs, ps, change), Table(cur, prior, change, m + 1);
      assert Table(cur, prior, change, m) == head + rest;
      assert forall b :: b in head ==> b.month == m && BucketOf(b, cur, prior, change) by {
        MonthBucketsFrom(cs, ps, change, m);
      }
      TableBuckets(cur, prior, change, m + 1);
    }
  }

  /** The significant-changes table of sales_register_analysis/app.py holds exactly the
      months whose prior total is non-zero and whose difference exceeds a tenth of it. */
  lemma SignificantChangesIff(cur: seq<Transaction>, prior: seq<Transaction>)
    requires Reconcile(cur, prior).Some?
    ensures forall b :: b in SignificantChanges(Reconcile(cur, prior).value) <==>
      b in Reconcile(cur, prior).value && b.prior != 0.0 && 10.0 * Abs(b.current - b.prior) > Abs(b.prior)
  {
    var table := Reconcile(cur, prior).value;
    TableBuckets(cur, prior, PercentChange, 1);
    forall b | b in table
      ensures Exceeds10(b.change) <==> b.prior != 0.0 && 10.0 * Abs(b.current - b.prior) > Abs(b.prior)
    {
      FlaggedIff(b.current, b.prior);
    }
  }

  /** The significant-changes table of app.py: also every month with a zero prior total and
      a non-zero current total. */
  lemma SignificantChangesIffLegacy(cur: seq<Transaction>, prior: seq<Transaction>)
    requires ReconcileLegacy(cur, prior).Some?
    ensures forall b :: b in SignificantChanges(ReconcileLegacy(cur, prior).value) <==>
      b in ReconcileLegacy(cur, prior).value &&
      ((b.prior == 0.0 && b.current != 0.0) || (b.prior != 0.0 && 10.0 * Abs(b.current - b.prior) > Abs(b.prior)))
  {
    var table := ReconcileLegacy(cur, prior).value;
    TableBuckets(cur, prior, PercentChangeLegacy, 1);
    forall b | b in table
      ensures Exceeds10(b.change) <==>
        (b.prior == 0.0 && b.current != 0.0) || (b.prior != 0.0 && 10.0 * Abs(b.current - b.prior) > Abs(b.prior))
    {
      FlaggedIffLegacy(b.current, b.prior);
    }
  }

  /** Every dated row of the period lies in calendar year `y`. */
  predicate SingleYear(rows: seq<Transaction>, y: int)
  {
    forall i :: 0 <= i < |rows| && rows[i].date.Some? ==> rows[i].date.value.year == y
  }

  lemma {:induction false} GroupTotalSingleYear(rows: seq<Transaction>, m: int, y: int)
    requires SingleYear(rows, y)
    ensures GroupTotal(rows, m, y) == MonthTotal(rows, m)
  {
    if rows != [] {
      assert rows[0].date.Some? ==> rows[0].date.value.year == y;
      assert SingleYear(rows[1..], y) by {
        forall i | 0 <= i < |rows[1..]| ensures rows[1..][i] == rows[i + 1] { }
      }
      GroupTotalSingleYear(rows[1..], m, y);
    }
  }

  lemma {:induction false} MonthTotalNone(rows: seq<Transaction>, m: int)
    requires forall i :: 0 <= i < |rows| ==> !InMonth(rows[i], m)
    ensures MonthTotal(rows, m) == 0.0
  {
    if rows != [] {
      assert forall i :: 0 <= i < |rows[1..]| ==> rows[1..][i] == rows[i + 1];
      MonthTotalNone(rows[1..], m);
    }
  }

  /** With one calendar year per period, the left merge gives each month exactly one row,
      holding that month's tax-included total (0 for a month without sales). */
  lemma JoinMonthSingleYear(rows: seq<Transaction>, m: int, y: int)
    requires SingleYear(rows, y)
    ensures |JoinMonth(rows, m)| == 1
    ensures JoinMonth(rows, m)[0] == MonthRow(m, JoinMonth(rows, m)[0].year, MonthTotal(rows, m))
  {
    var ys := GroupYears(rows, m);
    forall k | 0 <= k < |ys| ensures ys[k] == y {
      assert HasGroup(rows, m, ys[k]);
      var i :| 0 <= i < |rows| && InGroup(rows[i], m, ys[k]);
    }
    IncreasingHasDistinctHead(ys);
    forall i | 0 <= i < |rows| && InMonth(rows[i], m) ensures y in ys {
      assert InGroup(rows[i], m, y);
    }
    if ys == [] {
      MonthTotalNone(rows, m);
    } else {
      GroupTotalSingleYear(rows, m, y);
    }
  }

  lemma IncreasingHasDistinctHead(ys: seq<int>)
    requires StrictlyIncreasing(ys)
    ensures |ys| >= 2 ==> ys[0] != ys[1]
  {
  }

  lemma MonthBucketsSingle(c: MonthRow, p: MonthRow, change: (real, real) -> Change)
    ensures MonthBuckets([c], [p], change) == [Bucket(c.month, c.year, c.total, p.year, p.total, change(c.total, p.total))]
  {
    assert [c][1..] == [];
  }

  /** The bucket of month `m` when both periods have one row for it. */
  predicate IsMonthBucket(b: Bucket, cur: seq<Transaction>, prior: seq<Transaction>, change: (real, real) -> Change, m: int)
  {
    b.month == m && b.current == MonthTotal(cur, m) && b.prior == MonthTotal(prior, m) &&
    b.change == change(MonthTotal(cur, m), MonthTotal(prior, m))
  }

  /** A bucket for month `m` followed by buckets for the months from `m + 1` on. */
  lemma ConsBuckets(b: Bucket, rest: seq<Bucket>, cur: seq<Transaction>, prior: seq<Transaction>,
                    change: (real, real) -> Change, m: int)
    requires IsMonthBucket(b, cur, prior, change, m)
    requires forall k :: 0 <= k < |rest| ==> IsMonthBucket(rest[k], cur, prior, change, m + 1 + k)
    ensures forall k :: 0 <= k < |rest| + 1 ==> IsMonthBucket(([b] + rest)[k], cur, prior, change, m + k)
  {
    forall k | 0 <= k < |rest| + 1
      ensures IsMonthBucket(([b] + rest)[k], cur, prior, change, m + k)
    {
      if k > 0 {
        assert ([b] + rest)[k] == rest[k - 1] && m + k == m + 1 + (k - 1);
      }
    }
  }

  lemma {:induction false} TableSingleYear(cur: seq<Transaction>, prior: seq<Transaction>, change: (real, real) -> Change,
                                           m: int, yc: int, yp: int)
    requires 1 <= m <= 13 && SingleYear(cur, yc) && SingleYear(prior, yp)
    ensures |Table(cur, prior, change, m)| == 13 - m
    ensures forall k :: 0 <= k < 13 - m ==> IsMonthBucket(Table(cur, prior, change, m)[k], cur, prior, change, m + k)
    decreases 13 - m
  {
    if m < 13 {
      TableHeadSingleYear(cur, prior, change, m, yc, yp);
      TableSingleYear(cur, prior, change, m + 1, yc, yp);
      var t := Table(cur, prior, change, m);
      assert t == [t[0]] + t[1..];
      ConsBuckets(t[0], t[1..], cur, prior, change, m);
    }
  }

  /** With one year per period, the table from month `m` is month `m`'s single bucket
      followed by the table from the next month. */
  lemma TableHeadSingleYear(cur: seq<Transaction>, prior: seq<Transaction>, change: (real, real) -> Change,
                            m: int, yc: int, yp: int)
    requires 1 <= m <= 12 && SingleYear(cur, yc) && SingleYear(prior, yp)
    ensures |Table(cur, prior, change, m)| == 1 + |Table(cur, prior, change, m + 1)|
    ensures IsMonthBucket(Table(cur, prior, change, m)[0], cur, prior, change, m)
    ensures Table(cur, prior, change, m)[1..] == Table(cur, prior, change, m + 1)
  {
    var cs, ps := JoinMonth(cur, m), JoinMonth(prior, m);
    JoinMonthSingleYear(cur, m, yc);
    JoinMonthSingleYear(prior, m, yp);
    assert cs == [cs[0]] && ps == [ps[0]];
    MonthBucketsSingle(cs[0], ps[0], change);
    var head := MonthBuckets(cs, ps, change);
    var rest := Table(cur, prior, change, m + 1);
    assert Table(cur, prior, change, m) == head + rest;
    assert |head| == 1 && IsMonthBucket(head[0], cur, prior, change, m);
    assert (head + rest)[1..] == rest;
  }

  /** The grouped series of a period is non-empty exactly when some row has a date. */
  lemma HasGroupsIffDated(rows: seq<Transaction>)
    requires forall i :: 0 <= i < |rows| ==> Ingested(rows[i])
    ensures HasGroups(rows) <==> exists i :: 0 <= i < |rows| && rows[i].date.Some?
  {
    if HasGroups(rows) {
      var m :| 1 <= m <= 12 && GroupYears(rows, m) != [];
      assert HasGroup(rows, m, GroupYears(rows, m)[0]);
    }
    if exists i :: 0 <= i < |rows| && rows[i].date.Some? {
      var i :| 0 <= i < |rows| && rows[i].date.Some?;
      var d := rows[i].date.value;
      assert HasGroup(rows, d.month, d.year);
      assert d.year in GroupYears(rows, d.month);
    }
  }

  /** For filtered tables, the "no data" warning appears exactly when a filtered period has
      no rows, and otherwise, with one calendar year per period, the comparison has one row
      per month "01" to "12", in order, holding each period's tax-included month total and
      the percentage change between them. */
  lemma {:induction false} ReconcileFilteredPeriods(current: seq<Transaction>, prior: seq<Transaction>, c: Criteria, yc: int, yp: int)
    requires forall i :: 0 <= i < |current| ==> Ingested(current[i])
    requires forall i :: 0 <= i < |prior| ==> Ingested(prior[i])
    ensures var cur, pri := RowFilter.FilterRows(current, c), RowFilter.FilterRows(prior, c);
      Reconcile(cur, pri).None? <==> cur == [] || pri == []
    ensures var cur, pri := RowFilter.FilterRows(current, c), RowFilter.FilterRows(prior, c);
      cur != [] && pri != [] && SingleYear(cur, yc) && SingleYear(pri, yp) ==>
        && |Reconcile(cur, pri).value| == 12
        && forall k :: 0 <= k < 12 ==>
             IsMonthBucket(Reconcile(cur, pri).value[k], cur, pri, PercentChange, k + 1)
  {
    var cur, pri := RowFilter.FilterRows(current, c), RowFilter.FilterRows(prior, c);
    forall i | 0 <= i < |cur| ensures Ingested(cur[i]) && cur[i].date.Some? {
      assert cur[i] in cur;
    }
    forall i | 0 <= i < |pri| ensures Ingested(pri[i]) && pri[i].date.Some? {
      assert pri[i] in pri;
    }
    HasGroupsIffDated(cur);
    HasGroupsIffDated(pri);
    if cur != [] { assert cur[0].date.Some?; }
    if pri != [] { assert pri[0].date.Some?; }
    if cur != [] && pri != [] && SingleYear(cur, yc) && SingleYear(pri, yp) {
      TableSingleYear(cur, pri, PercentChange, 1, yc, yp);
    }
  }

  lemma {:induction false} MonthBucketsLength(cs: seq<MonthRow>, ps: seq<MonthRow>, change: (real, real) -> Change)
    requires |ps| >= 1
    ensures |MonthBuckets(cs, ps, change)| >= |cs|
  {
    if cs != [] {
      MonthBucketsLength(cs[1..], ps, change);
    }
  }

  lemma {:induction false} TableLength(cur: seq<Transaction>, prior: seq<Transaction>, change: (real, real) -> Change,
                                       m: int, m0: int)
    requires 1 <= m <= 13
    ensures |Table(cur, prior, change, m)| >= 13 - m
    ensures m <= m0 <= 12 && |JoinMonth(cur, m0)| >= 2 ==> |Table(cur, prior, change, m)| >= 14 - m
    decreases 13 - m
  {
    if m < 13 {
      var cs, ps := JoinMonth(cur, m), JoinMonth(prior, m);
      MonthBucketsLength(cs, ps, change);
      var head, rest := MonthBuckets(cs, ps, change), Table(cur, prior, change, m + 1);
      assert Table(cur, prior, change, m) == head + rest;
      TableLength(cur, prior, change, m + 1, m0);
      assert |head| >= |cs| >= 1;
      if m == m0 && |cs| >= 2 {
        assert |head| >= 2;
      }
    }
  }

  /** Whatever the data, the comparison never has fewer than 12 rows; a month that occurs
      in two calendar years of the current period adds rows beyond 12. */
  lemma ReconcileAtLeastTwelve(cur: seq<Transaction>, prior: seq<Transaction>)
    requires Reconcile(cur, prior).Some?
    ensures |Reconcile(cur, prior).value| >= 12
    ensures (exists m :: 1 <= m <= 12 && |GroupYears(cur, m)| >= 2) ==> |Reconcile(cur, prior).value| > 12
  {
    TableLength(cur, prior, PercentChange, 1, 1);
    if exists m :: 1 <= m <= 12 && |GroupYears(cur, m)| >= 2 {
      var m :| 1 <= m <= 12 && |GroupYears(cur, m)| >= 2;
      assert |JoinMonth(cur, m)| >= 2;
      TableLength(cur, prior, PercentChange, 1, m);
    }
  }

  /** Grouping by (Month, Year) as the source does: January sales in 2023 and in 2024 make
      a 13-row comparison. */
  lemma TwoCalendarYearsGiveThirteenRows()
    ensures var jan23 := Transaction("INV-1", Some(Date(2023, 1, 10)), "A", 100.0, 118.0);
      var jan24 := Transaction("INV-2", Some(Date(2024, 1, 10)), "A", 100.0, 118.0);
      var jan22 := Transaction("INV-0", Some(Date(2022, 1, 10)), "A", 100.0, 118.0);
      Reconcile([jan23, jan24], [jan22]).Some? && |Reconcile([jan23, jan24], [jan22]).value| > 12
  {
    var jan23 := Transaction("INV-1", Some(Date(2023, 1, 10)), "A", 100.0, 118.0);
    var jan24 := Transaction("INV-2", Some(Date(2024, 1, 10)), "A", 100.0, 118.0);
    var jan22 := Transaction("INV-0", Some(Date(2022, 1, 10)), "A", 100.0, 118.0);
    var cur, pri := [jan23, jan24], [jan22];
    assert cur[..1] == [jan23] && [jan23][..0] == [] && pri[..0] == [];
    assert GroupYears([jan23], 1) == [2023];
    assert [2023][1..] == [] && InsertYear([2023], 2024) == [2023, 2024];
    assert GroupYears(cur, 1) == [2023, 2024];
    assert GroupYears(pri, 1) == [2022];
    assert HasGroups(cur) && HasGroups(pri);
    ReconcileAtLeastTwelve(cur, pri);
  }
}
