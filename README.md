# ROI Investment Tracker: the computation core in Dafny

The ROI Investment Tracker reads a table of investment records (`Date`,
`Investment Type`, `Amount (EUR)`, `Exchange Rate (EUR to USD)`). It keeps the
rows inside a chosen date range and splits them into three categories: `fixed`,
`variable` and `currency`. The match on the category label ignores case. For
each category, `calculate_roi` sorts the rows by date and adds `ROI %`, the
row-over-row percentage change of the EUR amount. For the currency category it
also adds `Amount (USD)` and that column's own percentage change, `ROI % (USD)`.
The three results feed three charts and a three-sheet spreadsheet.

This project models that pipeline as pure functions over sequences of rows.
The source has no loops and `calculate_roi` works on a copy of its argument, so
nothing here is a class or a method.

- `wrappers.dfy`, `records.dfy`: `Option`, and the parsed `Row` (the date is an
  already-parsed ordinal).
- `selection.dfy`: boolean-mask selection `df[mask]` (`Where`). Both the date
  filter and the category split use it.
- `date_filter.dfy`: the inclusive date-range filter and its default bounds.
- `categories.dfy`: ASCII `str.lower()` and the three category subsets.
- `sorting.dfy`: `sort_values("Date")` as an insertion sort. No contract
  depends on the order it gives to rows with equal dates, but the ROI cells of
  rows that share a date do (`Roi.TieOrderChangesRoi`).
- `roi.dfy`: `pct_change() * 100`, the USD column and `calculate_roi`.
- `pipeline.dfy`: filter, then split, then the ROI calculation for each of the
  three subsets.

Design choices:

- Amounts are exact `real`s. `pct_change` is modelled the way the library
  computes it, `cur / prev - 1`, and `Roi.Change` proves that this equals the
  textbook `(cur - prev) / prev`.
- A zero previous amount gives pandas `inf` (or `NaN` for `0/0`). It does not
  raise an error. The model uses a single sentinel, `DivByZero`, for both.
- `sort_values` defaults to quicksort, which is not stable. Every property of
  the sort is therefore stated as "sorted by date and a permutation of the
  input". `Roi.CalculateRoiDatesIgnoreTies` shows that the resulting `Date`
  column does not depend on how rows with equal dates are ordered. Rows with
  equal dates may come out in any order, because the default quicksort does
  not promise stability. The `ROI %` cells of such rows do depend on that
  order.
- Start = latest date and end = earliest date empties the result only when the
  table spans more than one date (`DateFilter.SwappedDefaultRangeKeepsNothing`
  requires it). If every row has the same date, the range is that one day and
  keeps every row.
- `Amount (USD)` of a row is the named function `Roi.UsdAmount`, which is
  `Amount (EUR) * Exchange Rate (EUR to USD)`.

## Model

| member | source | states |
|---|---|---|
| `Selection.WhereKeeps` | app.py:35 | the mask keeps a row iff the predicate holds for it; each kept row occurs exactly as often as in the input |
| `Selection.WhereSelectsKeptIndices` | app.py:35 | selection keeps relative order: the k-th selected row is the input row at the k-th kept position |
| `Selection.KeptIndices` | app.py:35 | the kept positions are strictly increasing, are in range, satisfy the mask, and include every position that satisfies it |
| `Selection.WhereAppend` | app.py:35 | selecting from a concatenation is the concatenation of the selections, so the order of the kept rows is preserved |
| `Selection.WhereAll` | app.py:35 | a mask that is true on every row returns the table unchanged |
| `DateFilter.FilterByDate` | app.py:35 | keeps a row iff `start <= date <= end`, with its multiplicity; an inverted range (`start > end`) gives the empty table |
| `DateFilter.MinDate` | app.py:30 | the default start is a date that occurs in the table and is no later than any row's date |
| `DateFilter.MaxDate` | app.py:31 | the default end is a date that occurs in the table and is no earlier than any row's date |
| `DateFilter.DefaultRangeKeepsAll` | app.py:30-35 | filtering with the default bounds returns the table unchanged |
| `DateFilter.SwappedDefaultRangeKeepsNothing` | app.py:30-35 | with start = latest and end = earliest date, on a table with two distinct dates, nothing is kept |
| `Categories.Lower` | app.py:38-40 | lowercasing keeps the length, leaves no upper-case ASCII letter, and changes each character only by turning an upper-case letter into its lower-case form |
| `Categories.LowerEqualsIff` | app.py:38-40 | a type lowercases to a lower-case label iff, at each position, it has the label's letter or that letter's upper-case form (both directions) |
| `Categories.LowerIdempotent` | app.py:38-40 | lowercasing an already lowercased type changes nothing |
| `Categories.SelectCategory` | app.py:38 | a subset holds a row iff the row is in the filtered table and its lowercased type equals the label, with its multiplicity |
| `Categories.SplitByCategory` | app.py:38-40 | membership in each subset is exactly "lowercased type equals its label"; the three subsets are pairwise disjoint; a row with any other label is in none |
| `Categories.SplitAccountsForRecognizedRows` | app.py:38-40 | the three subsets together are exactly the recognised rows, counted with multiplicity, so each recognised row lands in exactly one subset; their total size is at most the table's |
| `Categories.CaseVariantsAndUnknownLabels` | app.py:38-40 | "Fixed", "fixed" and "FIXED" all match the fixed label; "crypto" and "Crypto" match none of the three |
| `Sorting.Insert` | app.py:15 | inserting into a date-sorted sequence keeps it sorted and adds exactly one occurrence of the row |
| `Sorting.SortByDate` | app.py:15 | the result is sorted non-decreasingly by date, is a permutation of the input, and has the same length |
| `Sorting.SortedPermutationsShareDates` | app.py:15 | any two date-sorted permutations of the same rows have the same `Date` column |
| `Roi.Change` | app.py:16 | the change is the sentinel iff the previous amount is zero; otherwise it is `(cur - prev) / prev * 100` |
| `Roi.RatioMinusOne` | app.py:16 | the library formula `cur / prev - 1` equals `(cur - prev) / prev` for a nonzero previous amount |
| `Roi.PctChange` | app.py:16 | one cell per value; the first cell is empty; cell i compares value i with value i-1 |
| `Roi.Augment` | app.py:16-19 | keeps the rows and their order, fills `ROI %` by the percentage-change rule, and fills the USD columns exactly in currency mode |
| `Roi.CalculateRoi` | app.py:14-20 | returns as many rows as it is given; the rows are a permutation of the input in non-decreasing date order; `ROI %` is empty in the first row and is the change from the previous row's EUR amount after that; in currency mode every row gets `Amount (USD) = Amount (EUR) * rate` and `ROI % (USD)` by the same rule, and without currency mode no row gets USD columns |
| `Roi.CalculateRoiDatesIgnoreTies` | app.py:15 | the `Date` column of the result equals that of any date-sorted arrangement of the input |
| `Roi.TieOrderChangesRoi` | app.py:15-16 | two date-sorted arrangements of the same rows can give different `ROI %` cells to rows that share a date |
| `Roi.WorkedExamples` | app.py:16-18 | amounts [100, 150] give [empty, 50]; [100, 50] give [empty, -50]; [0, 50] give [empty, sentinel]; 100 EUR at rate 1.1 gives 110 USD |
| `Pipeline.BuildReport` | app.py:35-40 | each subset holds exactly the table's rows that are in range and carry its label, each as many times as in the table; each subset is in date order and carries its `ROI %` column; the USD columns appear in the currency subset and in neither of the others |
| `Pipeline.ReportSize` | app.py:35-40 | the three subsets together are no larger than the filtered table, and that table is no larger than the input |
| `Pipeline.InvertedRangeGivesEmptyReport` | app.py:35-40 | an inverted date range yields three empty but present subsets |

## Left out

- The Streamlit page, uploader, messages, date picker and download button (app.py:7-12, 27, 32, 74-79). These are interactive input and output. The chosen range becomes the `start` and `end` parameters. Picking a single date instead of a range makes the source's unpacking fail, and that is not modelled.
- DateFilter.MinDate and DateFilter.MaxDate require a non-empty table. For a CSV with a header and no data rows, the source's `min()`/`max()` give NaT and hand it to the date picker; that case is not modelled.
- DateFilter.FilterByDate has no missing dates: an empty `Date` cell becomes NaT at parse time, and the source's comparisons then drop that row silently. Dates here are always integers, so such rows are not modelled.
- The matplotlib charts (app.py:42-64). They only display the three computed subsets.
- The spreadsheet export through `pd.ExcelWriter` into an in-memory buffer (app.py:66-72). This is a foreign serialiser. The model's `Pipeline.Report` holds the three subsets in sheet order: `Fixed`, `Variable`, `Currency`.
- CSV reading and `pd.to_datetime` (app.py:23-24), and the in-place sort of the uploaded table (app.py:25). Rows arrive already parsed, with dates as integer ordinals. A `Date` with a time of day compared against a picked end date at midnight is not modelled. Because the in-place sort runs before `calculate_roi` sorts again, it can only affect tie order, and the model promises nothing about tie order.
- Floating point. Amounts are exact reals. Rounding, the `inf`/`NaN` distinction, and `pct_change` forward-filling of missing amounts are not modelled. Every amount is assumed to be present.
- `str.lower()` is modelled for ASCII only. Unicode case mapping is not modelled. A missing `Investment Type` (NaN), which pandas drops from every subset, is not modelled either: every type is a string.
- Sorting.SortByDate: it fixes one tie order, stable insertion. The source's quicksort may order ties differently. Every contract that uses the sort states only "sorted and a permutation", plus the tie-independent `Date` column.
