/**
 * `calculate_roi`: sort a category subset by date, then add the row-over-row
 * percentage change of the EUR amount (`ROI %`); in currency mode also add
 * `Amount (USD)` and its own percentage change (`ROI % (USD)`). The function
 * works on a copy: its argument is never changed.
 */
module Roi {
  import opened Wrappers
  import opened Records
  import opened Sorting

  /** One cell of a percentage-change column. Dividing by a zero previous
      amount gives pandas' inf/NaN, modelled by one sentinel. */
  datatype Ratio = Finite(value: real) | DivByZero

  /** `pct_change() * 100` for one pair of consecutive amounts, computed the
      way the library does it: `(cur / prev - 1) * 100`. */
  function Change(prev: real, cur: real): (c: Ratio)
    ensures c == DivByZero <==> prev == 0.0
    ensures prev != 0.0 ==> c == Finite((cur - prev) / prev * 100.0)
  {
    if prev == 0.0 then DivByZero
    else
      RatioMinusOne(cur, prev);
      Finite((cur / prev - 1.0) * 100.0)
  }

  /** The library's `cur / prev - 1` is the textbook `(cur - prev) / prev`. */
  lemma RatioMinusOne(cur: real, prev: real)
    requires prev != 0.0
    ensures cur / prev - 1.0 == (cur - prev) / prev
  {
    var inv := 1.0 / prev;
    assert inv * prev == 1.0;
    assert cur / prev == cur * inv;
    assert (cur - prev) / prev == (cur - prev) * inv;
  }

  /** `col.pct_change() * 100` over a whole column: the first cell is empty,
      every later cell compares a value with the one just before it. */
  function PctChange(xs: seq<real>): (r: seq<Option<Ratio>>)
    ensures |r| == |xs|
    ensures |xs| > 0 ==> r[0] == None
    ensures forall i :: 1 <= i < |xs| ==> r[i] == Some(Change(xs[i - 1], xs[i]))
  {
    if |xs| <= 1 then seq(|xs|, _ => None)
    else
      var n := |xs| - 1;
      PctChange(xs[..n]) + [Some(Change(xs[n - 1], xs[n]))]
  }

  /** The columns added in currency mode. */
  datatype UsdColumns = UsdColumns(amount: real, roi: Option<Ratio>)

  /** A row of the returned frame: the input row, `ROI %`, and the USD columns
      when they were asked for. */
  datatype AugRow = AugRow(row: Row, roi: Option<Ratio>, usd: Option<UsdColumns>)

  /** The `Amount (EUR)` column. */
  function EurColumn(rows: seq<Row>): seq<real> {
    seq(|rows|, i requires 0 <= i < |rows| => rows[i].eur)
  }

  /** `Amount (USD)` of one row: `Amount (EUR) * Exchange Rate (EUR to USD)`. */
  function UsdAmount(x: Row): real {
    x.eur * x.rate
  }

  /** The `Amount (USD)` column. */
  function UsdColumn(rows: seq<Row>): seq<real> {
    seq(|rows|, i requires 0 <= i < |rows| => UsdAmount(rows[i]))
  }

  /** The original columns of an augmented frame. */
  function BaseRows(r: seq<AugRow>): seq<Row> {
    seq(|r|, i requires 0 <= i < |r| => r[i].row)
  }

  /** `ROI %` is the percentage change of `Amount (EUR)` in row order, with
      an empty first cell. */
  predicate EurRoiColumn(r: seq<AugRow>) {
    && (|r| > 0 ==> r[0].roi == None)
    && forall i :: 1 <= i < |r| ==> r[i].roi == Some(Change(r[i - 1].row.eur, r[i].row.eur))
  }

  /** The USD columns are present exactly in currency mode; `Amount (USD)` is
      the EUR amount times the rate, and `ROI % (USD)` is its percentage
      change in row order, with an empty first cell. */
  predicate UsdColumnsIf(r: seq<AugRow>, currency: bool) {
    && (forall i :: 0 <= i < |r| ==> (r[i].usd.Some? <==> currency))
    && (currency ==> forall i :: 0 <= i < |r| ==> r[i].usd.value.amount == UsdAmount(r[i].row))
    && (currency && |r| > 0 ==> r[0].usd.value.roi == None)
    && (currency ==> forall i :: 1 <= i < |r| ==>
          r[i].usd.value.roi == Some(Change(r[i - 1].usd.value.amount, r[i].usd.value.amount)))
  }

  /** Adds the computed columns to rows that are already in date order. */
  function Augment(sorted: seq<Row>, currency: bool): (r: seq<AugRow>)
    ensures BaseRows(r) == sorted
    ensures EurRoiColumn(r)
    ensures UsdColumnsIf(r, currency)
  {
    var eur, usd := EurColumn(sorted), UsdColumn(sorted);
    var roi, usdRoi := PctChange(eur), PctChange(usd);
    var r := seq(|sorted|, i requires 0 <= i < |sorted| =>
      AugRow(sorted[i], roi[i], if currency then Some(UsdColumns(usd[i], usdRoi[i])) else None));
    assert BaseRows(r) == sorted;
    AugmentEur(sorted, r);
    AugmentUsd(sorted, currency, r, usd, usdRoi);
    r
  }

  lemma AugmentEur(sorted: seq<Row>, r: seq<AugRow>)
    requires |r| == |sorted|
    requires forall i :: 0 <= i < |r| ==> r[i].row == sorted[i] && r[i].roi == PctChange(EurColumn(sorted))[i]
    ensures EurRoiColumn(r)
  {
    var eur := EurColumn(sorted);
    forall i | 1 <= i < |r|
      ensures r[i].roi == Some(Change(r[i - 1].row.eur, r[i].row.eur))
    {
      assert eur[i - 1] == sorted[i - 1].eur && eur[i] == sorted[i].eur;
    }
  }

  lemma AugmentUsd(sorted: seq<Row>, currency: bool, r: seq<AugRow>, usd: seq<real>, usdRoi: seq<Option<Ratio>>)
    requires |r| == |sorted| && usd == UsdColumn(sorted) && usdRoi == PctChange(usd)
    requires forall i :: 0 <= i < |r| ==> r[i].row == sorted[i]
    requires forall i :: 0 <= i < |r| ==>
      r[i].usd == if currency then Some(UsdColumns(usd[i], usdRoi[i])) else None
    ensures UsdColumnsIf(r, currency)
  {
    if currency {
      UsdRoiColumn(r, usd);
    }
  }

  /** Cells that carry a column's values and its percentage change satisfy
      the percentage-change rule row by row. */
  lemma UsdRoiColumn(r: seq<AugRow>, usd: seq<real>)
    requires |r| == |usd|
    requires forall i :: 0 <= i < |r| ==>
      r[i].usd.Some? && r[i].usd.value == UsdColumns(usd[i], PctChange(usd)[i])
    ensures |r| > 0 ==> r[0].usd.value.roi == None
    ensures forall i :: 1 <= i < |r| ==>
      r[i].usd.value.roi == Some(Change(r[i - 1].usd.value.amount, r[i].usd.value.amount))
  {
    var usdRoi := PctChange(usd);
    forall i | 1 <= i < |r|
      ensures r[i].usd.value.roi == Some(Change(r[i - 1].usd.value.amount, r[i].usd.value.amount))
    {
      assert r[i].usd.value.roi == usdRoi[i];
      assert r[i - 1].usd.value.amount == usd[i - 1] && r[i].usd.value.amount == usd[i];
    }
  }

  function CalculateRoi(rows: seq<Row>, currency: bool): (r: seq<AugRow>)
    ensures |r| == |rows|
    ensures multiset(BaseRows(r)) == multiset(rows)
    ensures SortedByDate(BaseRows(r))
    ensures EurRoiColumn(r)
    ensures UsdColumnsIf(r, currency)
  {
    var sorted := SortByDate(rows);
    var r := Augment(sorted, currency);
    assert |r| == |BaseRows(r)| == |sorted|;
    r
  }

  /**
   * The `Date` column of the result is the same as that of any other date-sorted
   * arrangement of the subset: how the sort orders rows with equal dates does
   * not change it.
   */
  lemma CalculateRoiDatesIgnoreTies(rows: seq<Row>, currency: bool, other: seq<Row>)
    requires SortedByDate(other) && multiset(other) == multiset(rows)
    ensures Dates(BaseRows(CalculateRoi(rows, currency))) == Dates(other)
  {
    SortedPermutationsShareDates(BaseRows(CalculateRoi(rows, currency)), other);
  }

  /**
   * The `ROI %` cells of rows that share a date do depend on how the sort
   * orders them: two date-sorted arrangements of the same three rows give
   * different values in the second row.
   */
  lemma TieOrderChangesRoi()
    ensures var a := [Row(1, "fixed", 100.0, 1.0), Row(2, "fixed", 100.0, 1.0), Row(2, "fixed", 200.0, 1.0)];
      var b := [a[0], a[2], a[1]];
      && SortedByDate(a) && SortedByDate(b) && multiset(a) == multiset(b)
      && Augment(a, false)[1].roi != Augment(b, false)[1].roi
  {
    var a := [Row(1, "fixed", 100.0, 1.0), Row(2, "fixed", 100.0, 1.0), Row(2, "fixed", 200.0, 1.0)];
    var b := [a[0], a[2], a[1]];
    assert Augment(a, false)[1].roi == Some(Change(100.0, 100.0));
    assert Augment(b, false)[1].roi == Some(Change(100.0, 200.0));
  }

  /** Two-row examples: 100 then 150 is +50 %, 100 then 50 is -50 %, 0 then 50
      has no finite change; 100 EUR at rate 1.1 is 110 USD. */
  lemma WorkedExamples()
    ensures PctChange([100.0, 150.0]) == [None, Some(Finite(50.0))]
    ensures PctChange([100.0, 50.0]) == [None, Some(Finite(-50.0))]
    ensures PctChange([0.0, 50.0]) == [None, Some(DivByZero)]
    ensures UsdColumn([Row(0, "currency", 100.0, 1.1)]) == [110.0]
  {
  }
}
