/** The sidebar filter applied to the current-year and prior-year tables
    (sales_register_analysis/app.py lines 77-99, app.py lines 52-73). */
module RowFilter {
  import opened Wrappers
  import opened Collections
  import opened Records

  /** The customer choice that switches the customer test off. */
  const AllCustomers: string := "All"

  /** `start <= Invoice Date <= end`; an unparsed date (NaT) compares false. */
  predicate InDateRange(t: Transaction, c: Criteria)
  {
    t.date.Some? && DateLe(c.start, t.date.value) && DateLe(t.date.value, c.end)
  }

  predicate CustomerMatches(t: Transaction, c: Criteria)
  {
    c.customer == AllCustomers || t.customer == c.customer
  }

  /** `min <= Total Amount <= max` on the tax-EXCLUDED amount. */
  predicate InAmountRange(t: Transaction, c: Criteria)
  {
    c.minAmount <= t.amount && (c.maxAmount.AtMost? ==> t.amount <= c.maxAmount.limit)
  }

  /** The row test of the filter as one predicate. */
  predicate Keep(t: Transaction, c: Criteria)
  {
    InDateRange(t, c) && CustomerMatches(t, c) && InAmountRange(t, c)
  }

  /** The filter as the application applies it: three masks in a row, the customer mask
      only when a customer other than "All" is chosen. The result is exactly the rows
      that pass all three tests. */
  function FilterRows(rows: seq<Transaction>, c: Criteria): (r: seq<Transaction>)
    ensures forall t :: t in r <==> t in rows && Keep(t, c)
  {
    var byDate := Where(rows, (t: Transaction) => InDateRange(t, c));
    var byCustomer := if c.customer != AllCustomers then Where(byDate, (t: Transaction) => t.customer == c.customer) else byDate;
    Where(byCustomer, (t: Transaction) => InAmountRange(t, c))
  }

  /** The staged filter is a single pass of `Keep` over the rows, so it keeps the rows'
      order. */
  lemma FilterIsOnePass(rows: seq<Transaction>, c: Criteria)
    ensures FilterRows(rows, c) == Where(rows, (t: Transaction) => Keep(t, c))
  {
    var byDate := Where(rows, (t: Transaction) => InDateRange(t, c));
    if c.customer != AllCustomers {
      var byCustomer := Where(byDate, (t: Transaction) => t.customer == c.customer);
      WhereWhere(rows, (t: Transaction) => InDateRange(t, c), (t: Transaction) => t.customer == c.customer,
                 (t: Transaction) => InDateRange(t, c) && CustomerMatches(t, c));
      WhereWhere(rows, (t: Transaction) => InDateRange(t, c) && CustomerMatches(t, c), (t: Transaction) => InAmountRange(t, c),
                 (t: Transaction) => Keep(t, c));
    } else {
      WhereWhere(rows, (t: Transaction) => InDateRange(t, c), (t: Transaction) => InAmountRange(t, c), (t: Transaction) => Keep(t, c));
    }
  }

  /** Filtering a table made of two parts filters each part in place: relative order is
      preserved. */
  lemma FilterAppend(a: seq<Transaction>, b: seq<Transaction>, c: Criteria)
    ensures FilterRows(a + b, c) == FilterRows(a, c) + FilterRows(b, c)
  {
    FilterIsOnePass(a + b, c);
    FilterIsOnePass(a, c);
    FilterIsOnePass(b, c);
    WhereAppend(a, b, (t: Transaction) => Keep(t, c));
  }

  /** Filtering again with the same criteria changes nothing. */
  lemma FilterIdempotent(rows: seq<Transaction>, c: Criteria)
    ensures FilterRows(FilterRows(rows, c), c) == FilterRows(rows, c)
  {
    FilterIsOnePass(rows, c);
    FilterIsOnePass(FilterRows(rows, c), c);
    WhereIdempotent(rows, (t: Transaction) => Keep(t, c));
  }

  /** The filter never invents or repeats rows. */
  lemma FilterSubMultiset(rows: seq<Transaction>, c: Criteria)
    ensures multiset(FilterRows(rows, c)) <= multiset(rows)
  {
    FilterIsOnePass(rows, c);
    WhereSubMultiset(rows, (t: Transaction) => Keep(t, c));
  }

  /** Both tables are filtered, each whenever it is loaded
      (sales_register_analysis/app.py lines 77-99). */
  function FilterPeriods(current: Option<seq<Transaction>>, prior: Option<seq<Transaction>>, c: Criteria)
    : (r: (Option<seq<Transaction>>, Option<seq<Transaction>>))
    ensures r.0.Some? <==> current.Some?
    ensures r.1.Some? <==> prior.Some?
    ensures current.Some? ==> r.0.value == FilterRows(current.value, c)
    ensures prior.Some? ==> r.1.value == FilterRows(prior.value, c)
  {
    (if current.Some? then Some(FilterRows(current.value, c)) else None,
     if prior.Some? then Some(FilterRows(prior.value, c)) else None)
  }

  /** In app.py the filter inputs exist only once the current-year table is loaded, so the
      prior-year table is filtered only then (app.py lines 42-73). */
  function FilterPeriodsLegacy(current: Option<seq<Transaction>>, prior: Option<seq<Transaction>>, c: Criteria)
    : (r: (Option<seq<Transaction>>, Option<seq<Transaction>>))
    ensures r.0.Some? <==> current.Some?
    ensures r.1.Some? <==> current.Some? && prior.Some?
  {
    if current.Some? then FilterPeriods(current, prior, c) else (None, None)
  }

  /** The two editions filter alike whenever the current-year table is loaded. */
  lemma LegacyFilterAgrees(current: Option<seq<Transaction>>, prior: Option<seq<Transaction>>, c: Criteria)
    ensures current.Some? ==> FilterPeriodsLegacy(current, prior, c) == FilterPeriods(current, prior, c)
    ensures current.None? ==> FilterPeriodsLegacy(current, prior, c).1.None?
  {
  }
}
