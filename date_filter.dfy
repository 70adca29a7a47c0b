/**
 * The date-range filter: keep the rows whose date lies in the inclusive
 * interval [start, end]. The interval defaults to the smallest and largest
 * date of the uploaded table.
 */
module DateFilter {
  import opened Records
  import opened Selection

  /** The mask `Date >= start & Date <= end`. */
  predicate InRange(x: Row, start: int, end: int) {
    start <= x.date && x.date <= end
  }

  /** The filtered table: exactly the rows in range, in their original order. */
  function FilterByDate(rows: seq<Row>, start: int, end: int): (r: seq<Row>)
    ensures forall x :: x in r <==> x in rows && start <= x.date <= end
    ensures forall x :: multiset(r)[x] == if start <= x.date <= end then multiset(rows)[x] else 0
    ensures start > end ==> r == []
  {
    var keep := (x: Row) => InRange(x, start, end);
    WhereKeeps(rows, keep);
    var r := Where(rows, keep);
    assert start > end ==> forall x :: x !in r;
    r
  }

  /** The earliest date of a non-empty table, `df['Date'].min()`. */
  function MinDate(rows: seq<Row>): (d: int)
    requires rows != []
    ensures exists i :: 0 <= i < |rows| && rows[i].date == d
    ensures forall i :: 0 <= i < |rows| ==> d <= rows[i].date
  {
    if |rows| == 1 then rows[0].date
    else
      var m := MinDate(rows[1..]);
      assert forall i :: 1 <= i < |rows| ==> rows[1..][i - 1] == rows[i];
      if rows[0].date <= m then rows[0].date else m
  }

  /** The latest date of a non-empty table, `df['Date'].max()`. */
  function MaxDate(rows: seq<Row>): (d: int)
    requires rows != []
    ensures exists i :: 0 <= i < |rows| && rows[i].date == d
    ensures forall i :: 0 <= i < |rows| ==> rows[i].date <= d
  {
    if |rows| == 1 then rows[0].date
    else
      var m := MaxDate(rows[1..]);
      assert forall i :: 1 <= i < |rows| ==> rows[1..][i - 1] == rows[i];
      if m <= rows[0].date then rows[0].date else m
  }

  /** Filtering with the default bounds leaves the table unchanged. */
  lemma DefaultRangeKeepsAll(rows: seq<Row>)
    requires rows != []
    ensures FilterByDate(rows, MinDate(rows), MaxDate(rows)) == rows
  {
    var lo, hi := MinDate(rows), MaxDate(rows);
    WhereAll(rows, (x: Row) => InRange(x, lo, hi));
  }

  /** Choosing the latest date as start and the earliest as end keeps nothing,
      as soon as the table spans more than one date. */
  lemma SwappedDefaultRangeKeepsNothing(rows: seq<Row>)
    requires rows != [] && MinDate(rows) < MaxDate(rows)
    ensures FilterByDate(rows, MaxDate(rows), MinDate(rows)) == []
  {
  }
}
