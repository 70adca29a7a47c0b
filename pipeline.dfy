/**
 * The pipeline from the parsed table to the three computed subsets that the
 * charts read and the spreadsheet export writes as the sheets `Fixed`,
 * `Variable` and `Currency`, in that order.
 */
module Pipeline {
  import opened Records
  import opened Selection
  import opened DateFilter
  import opened Categories
  import opened Sorting
  import opened Roi

  datatype Report = Report(fixed: seq<AugRow>, variable: seq<AugRow>, currency: seq<AugRow>)

  /** The rows of the table that belong in the subset named `name`. */
  predicate Belongs(x: Row, start: int, end: int, name: string) {
    start <= x.date <= end && Lower(x.itype) == name
  }

  /**
   * Filter by date, split by category, and run the ROI calculation on each
   * subset, the currency subset in currency mode. Each subset holds exactly the
   * table's rows that are in range and carry its label, each as many times as
   * in the table; each is in date order with its `ROI %` column; only the
   * currency subset has the USD columns.
   */
  function BuildReport(rows: seq<Row>, start: int, end: int): (rep: Report)
    ensures forall x ::
              multiset(BaseRows(rep.fixed))[x] == if Belongs(x, start, end, Fixed) then multiset(rows)[x] else 0
    ensures forall x ::
              multiset(BaseRows(rep.variable))[x] == if Belongs(x, start, end, Variable) then multiset(rows)[x] else 0
    ensures forall x ::
              multiset(BaseRows(rep.currency))[x] == if Belongs(x, start, end, Currency) then multiset(rows)[x] else 0
    ensures SortedByDate(BaseRows(rep.fixed)) && SortedByDate(BaseRows(rep.variable))
      && SortedByDate(BaseRows(rep.currency))
    ensures EurRoiColumn(rep.fixed) && UsdColumnsIf(rep.fixed, false)
    ensures EurRoiColumn(rep.variable) && UsdColumnsIf(rep.variable, false)
    ensures EurRoiColumn(rep.currency) && UsdColumnsIf(rep.currency, true)
  {
    var s := SplitByCategory(FilterByDate(rows, start, end));
    Report(CalculateRoi(s.fixed, false), CalculateRoi(s.variable, false), CalculateRoi(s.currency, true))
  }

  /** The three subsets together are no larger than the filtered table, which
      is no larger than the table. */
  lemma {:induction false} ReportSize(rows: seq<Row>, start: int, end: int)
    ensures var rep := BuildReport(rows, start, end);
      |rep.fixed| + |rep.variable| + |rep.currency| <= |FilterByDate(rows, start, end)| <= |rows|
  {
    var filtered := FilterByDate(rows, start, end);
    SplitAccountsForRecognizedRows(filtered);
  }

  /** An inverted date range gives three empty, but present, subsets. */
  lemma InvertedRangeGivesEmptyReport(rows: seq<Row>, start: int, end: int)
    requires start > end
    ensures BuildReport(rows, start, end) == Report([], [], [])
  {
  }
}
