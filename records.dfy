/** The rows of a sales register as the ingestion step delivers them, and the filter
    settings chosen in the sidebar. */
module Records {
  import opened Wrappers

  /** A calendar day; the ingestion step derives the Year and Month columns from it. */
  datatype Date = Date(year: int, month: int, day: int)

  /** Chronological order of days (timestamps at midnight compare the same way). */
  predicate DateLe(a: Date, b: Date)
  {
    a.year < b.year || (a.year == b.year && (a.month < b.month || (a.month == b.month && a.day <= b.day)))
  }

  /** One invoice line. `date` is `None` for a date the parser could not read (NaT);
      `amount` is the tax-excluded 'Total Amount' and `amountIncTax` is
      'Total Amount (Inc. Tax)'. Invoice numbers are expected, not required, to be unique. */
  datatype Transaction = Transaction(
    invoice: string,
    date: Option<Date>,
    customer: string,
    amount: real,
    amountIncTax: real)

  /** What ingestion guarantees: a parsed date has a month between 1 and 12. */
  predicate Ingested(t: Transaction)
  {
    t.date.Some? ==> 1 <= t.date.value.month <= 12
  }

  /** The maximum-amount input: a number, or infinity when no current-year data set the
      default. */
  datatype UpperBound = AtMost(limit: real) | Unbounded

  /** The sidebar filter: inclusive date range, a customer name or "All", and an inclusive
      range on the tax-excluded amount. */
  datatype Criteria = Criteria(
    start: Date,
    end: Date,
    customer: string,
    minAmount: real,
    maxAmount: UpperBound)

  /** Why a sampling attempt produced no sample: the warnings and errors the sampling
      section shows instead. */
  datatype Failure =
    | SampleTooLarge       // systematic: the step N div n is 0
    | StartOutOfBounds     // systematic: start - 1 + step reaches past the last row
    | NonPositiveTotal     // MUS: the tax-included total is not positive
    | BoundaryNotNumeric   // stratified: a boundary piece is not a number
    | BinsNotIncreasing    // stratified: pd.cut rejects bins that do not increase strictly
    | NoRowInAnyStratum    // stratified: every proportion is NaN and the integer cast fails
}
