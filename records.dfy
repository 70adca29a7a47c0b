/**
 * One row of the uploaded investment table, after parsing. The date is an
 * already-parsed ordinal (days, or any timestamp unit: only its order matters).
 */
module Records {
  datatype Row = Row(
    date: int,        // column `Date`
    itype: string,    // column `Investment Type`
    eur: real,        // column `Amount (EUR)`
    rate: real        // column `Exchange Rate (EUR to USD)`
  )
}
