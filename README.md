# Sales register analysis: the filtering, trend and sampling core

This project models the analysis core of a Streamlit tool for auditors. The tool loads a
current-year and a prior-year sales register, filters both with the same sidebar criteria,
and compares them month by month. It then flags months that moved by more than 10 percent
and draws an audit sample from the filtered current-year rows. The sample can be Random,
Systematic, Monetary Unit (MUS), Judgmental or Stratified. Invoices picked by hand can be
added to it, and a methodology narrative documents it. The repository holds two editions of
the program:

- `sales_register_analysis/app.py`, the packaged edition;
- `app.py`, the older edition.

They differ in when the prior period is filtered (the older edition filters it only
when a current period is loaded), in the trend reconciliation, and in the Systematic and
Stratified rules. The
model keeps both side by side; members named `...Legacy` follow `app.py`.

Modules, one per file:

- `wrappers.dfy`: `Option` and `Result`.
- `collections.dfy`: the dataframe operations the program is built from.
  - `Where` is a boolean mask.
  - `Select` takes rows by position.
  - `DedupBy` is `drop_duplicates` keeping the first row.
  - Column sums.
- `text.dfy`: `split`, `join`, and decimal printing of whole numbers.
- `records.dfy`: a transaction row, the filter criteria, and the reasons a sampling
  attempt fails.
- `row_filter.dfy`: the sidebar filter.
- `trend.dfy`: the monthly reconciliation and the "Significant Changes" table.
- `strata.dfy`: stratum boundaries, stratum membership, and the stratified allocation
  (proportional shares, the representation rule and the trimming rule).
- `sampling.dfy`: the five selection techniques.
- `methodology.dfy`:
  - the methodology sentences;
  - the per-edition dispatch `Generate` / `GenerateLegacy` over the chosen technique.
- `accumulator.dfy`: adding judgmental picks to the initial sample.

Randomness is a parameter. `DataFrame.sample` is a `Sampler` oracle that returns distinct
positions. `random.uniform` is a sequence of drawn monetary units, one inside each
sampling interval. Other parameters:

- `float()` on a boundary piece is a `parse` function;
- the `₹{x:,.2f}` rendering is a `money` function;
- the sample size, the systematic start and the picked invoice numbers are plain
  arguments.

Amounts are exact reals. Dates are `Option<Date>`: a date that did not parse is `None`
(NaT), and it fails every date comparison.

Behaviour of the code that the model keeps:

- **Trend rows.** The code groups by `(Month, Year)` and merges on `Month`. A month
  present in two calendar years therefore gives more than one row, and the comparison can
  have more than 12 rows. `Trend.TwoCalendarYearsGiveThirteenRows` shows 13 rows. When
  each period spans one calendar year there are exactly 12 (`Trend.ReconcileFilteredPeriods`).
- **Systematic bounds.** The packaged edition checks only that the second pick is in
  range, and it slices to the end of the table. The sample can therefore hold more than
  `n` rows. For 10 rows, `n = 3` and start 1, it holds rows 0, 3, 6 and 9
  (`Sampling.SystematicTenByThree`).
- **Strata bins.** `pd.cut` with `include_lowest=True` builds right-closed bins
  `(lower, upper]`, and the first bin also holds 0. A negative amount falls in no stratum.
  Bins that do not strictly increase make `pd.cut` raise an error, so the stratified
  attempt fails (`Strata.StrataEdges`).
- **Stratified shares.** Shares are rounded half to even. For boundary "100", amounts 50,
  150 and 250 and `n = 2`, `round(1/3 * 2)` and `round(2/3 * 2)` both give 1, so the
  sizes are 1 and 1 (`Sampling.OneHundredAllocation`).

## Model

| member | source | states |
|---|---|---|
| RowFilter.FilterRows | sales_register_analysis/app.py:78-87 | a row is in the filtered table exactly when its date lies in the inclusive range, its customer matches (or "All" is chosen), and its tax-excluded amount lies in the inclusive range |
| RowFilter.FilterIsOnePass | sales_register_analysis/app.py:78-87 | the three masks in a row equal one pass of the combined test over the rows, in their order |
| RowFilter.FilterAppend | sales_register_analysis/app.py:78-87 | filtering a concatenation filters each part in place: relative row order is kept |
| RowFilter.FilterIdempotent | sales_register_analysis/app.py:78-87 | filtering the filtered table again changes nothing |
| RowFilter.FilterSubMultiset | sales_register_analysis/app.py:78-87 | the filter never invents or duplicates a row |
| RowFilter.FilterPeriods | sales_register_analysis/app.py:77-99 | each loaded period is filtered with the same criteria, and an absent period stays absent |
| RowFilter.FilterPeriodsLegacy | app.py:42-73 | the prior period is filtered only when the current period is loaded |
| RowFilter.LegacyFilterAgrees | app.py:52-73 | with a current period loaded, both editions filter alike; without one, the older edition filters nothing |
| Trend.GroupYears | sales_register_analysis/app.py:113-114 | the years grouped for a month are ascending, free of repeats, and exactly the years of some dated row of that month |
| Trend.JoinMonth | sales_register_analysis/app.py:119-123 | the left merge onto a month label gives one row per (month, year) group of that month, in ascending year order, each holding that group's total; a month without a group gives the single row with year 0 and total 0 |
| Trend.JoinMonthTotal | sales_register_analysis/app.py:113-123 | the rows the merge gives a month add up to the tax-included total of every sale dated in that month, whatever its year |
| Trend.MonthTotalByYears | sales_register_analysis/app.py:113-114 | a month's total is the sum of its (month, year) group totals: every dated row of the month falls in exactly one group |
| Trend.HasGroupsIffDated | sales_register_analysis/app.py:113-117 | a grouped series is non-empty exactly when some row has a parsed date |
| Trend.PercentChange | sales_register_analysis/app.py:126-128 | the change is always finite: 0 when the prior total is 0, and otherwise the change times the prior total equals 100 times the difference |
| Trend.PercentChangeLegacy | app.py:99-100 | over a non-zero prior total the change is the packaged edition's finite value; over a zero prior total, a positive current total gives plus infinity, a negative one minus infinity, and 0 gives 0 |
| Trend.FlaggedIff | sales_register_analysis/app.py:126-147 | a month is flagged exactly when its prior total is non-zero and 10 times the absolute difference exceeds the absolute prior total |
| Trend.FlaggedIffLegacy | app.py:99-117 | a month is flagged exactly when the prior total is zero and the current one is not, or under the packaged rule |
| Trend.SignificantChanges | sales_register_analysis/app.py:147 | a comparison row is kept exactly when its change exceeds 10 in size, and no row is kept more often than it occurs |
| Trend.SignificantChangesIff | sales_register_analysis/app.py:147 | the Significant Changes table holds exactly the comparison rows with a non-zero prior and a more-than-10-percent move |
| Trend.SignificantChangesIffLegacy | app.py:117 | the older table also holds every row with a zero prior and a non-zero current total |
| Trend.TableBuckets | sales_register_analysis/app.py:119-128 | every row of the merged table pairs a current-period merged row and a prior-period merged row of the same month, 1 to 12, with the change between their totals |
| Trend.Reconcile | sales_register_analysis/app.py:113-128 | "no data" exactly when either period has no (Month, Year) group; otherwise every row pairs the two periods' merged rows of one month, with the packaged percentage change of their totals |
| Trend.ReconcileLegacy | app.py:86-100 | the same, with the older percentage change |
| Trend.TableSingleYear | sales_register_analysis/app.py:119-126 | with one calendar year per period, the comparison from month m has 13 - m rows, row k holding month m + k's two totals and their change |
| Trend.ReconcileFilteredPeriods | sales_register_analysis/app.py:113-128 | for filtered tables, "no data" appears exactly when a filtered period is empty; otherwise, with one calendar year per period, there are 12 rows in month order, each with both month totals and their percentage change |
| Trend.ReconcileAtLeastTwelve | sales_register_analysis/app.py:119-125 | the comparison never has fewer than 12 rows, and it has more than 12 when a current-period month occurs in two calendar years |
| Trend.TwoCalendarYearsGiveThirteenRows | sales_register_analysis/app.py:113-125 | January sales in 2023 and in 2024 against January 2022 give a comparison of more than 12 rows |
| Text.JoinSplit | sales_register_analysis/app.py:224 | joining the comma-split pieces with commas gives the boundary text back |
| Text.NatToStringRoundTrip | sales_register_analysis/app.py:167 | the printed sample size is a non-empty string of digits that reads back as the number |
| Strata.ParsePieces | sales_register_analysis/app.py:224 | parsing succeeds exactly when every piece parses, and then yields each piece's number in order |
| Strata.StrataEdges | sales_register_analysis/app.py:224-227 | the attempt fails as non-numeric exactly when some piece does not parse, and as non-increasing exactly when every piece parses but 0 followed by the numbers does not strictly increase; on success the edges are 0 followed by the parsed boundaries, at least two, strictly increasing |
| Strata.StratumOf | sales_register_analysis/app.py:227 | an amount has no stratum exactly when it is below 0; otherwise it lies in the stratum found, and in no other |
| Strata.RoundHalfEven | sales_register_analysis/app.py:233 | the rounded value is within one half of the input, and an exact half goes to the even neighbour |
| Strata.Share | sales_register_analysis/app.py:231-233 | a stratum's share is count / total * n rounded half to even: within one half of it, an exact half going to the even neighbour; it lies between 0 and n, and is 0 for an empty stratum |
| Strata.Proportional | sales_register_analysis/app.py:228-233 | one share per stratum, each the rounded proportional share of its count (Strata.Share), between 0 and n, and 0 for every empty stratum |
| Strata.Bump | sales_register_analysis/app.py:236-238 | every non-empty stratum gets at least one row, and the only share changed is a zero share of a non-empty stratum, raised to 1 |
| Strata.ArgMax | sales_register_analysis/app.py:242 | the chosen stratum holds a largest share; the proofs about trimming use only this, so they hold for any choice among tied largest shares |
| Strata.Trim | sales_register_analysis/app.py:240-243 | the trimmed shares total at most n; shares that already fit are unchanged, and otherwise the total is brought down to exactly n |
| Strata.Allocation | sales_register_analysis/app.py:228-243 | one size per stratum, totalling at most n |
| Strata.TrimSpec | sales_register_analysis/app.py:240-243 | trimming keeps every share between 0 and its old value, leaves shares that fit alone, and otherwise brings the total down to exactly n |
| Strata.TrimKeepsOne | sales_register_analysis/app.py:236-243 | when n is at least the number of non-empty strata, trimming leaves each of them at least one row |
| Strata.AllocationSpec | sales_register_analysis/app.py:228-243 | the allocation is non-negative, gives nothing to an empty stratum, totals at most n, and gives every non-empty stratum a row whenever n is at least their number |
| Strata.AllocateStrata | sales_register_analysis/app.py:228-243 | the three allocation steps compute the allocation, with the properties of Strata.AllocationSpec |
| Strata.BumpEmptyShares | sales_register_analysis/app.py:236-238 | the representation loop raises exactly the zero shares of non-empty strata to 1 |
| Strata.TrimShares | sales_register_analysis/app.py:241-243 | the trimming loop computes the trimming rule |
| Sampling.RandomSample | sales_register_analysis/app.py:166 | exactly n rows, none taken more often than it occurs in the table |
| Sampling.Stride | sales_register_analysis/app.py:178 | the slice positions start at the start item, go up by the step, stay below the table size, and stop at the first one that would not |
| Sampling.StrideAt | sales_register_analysis/app.py:178 | the k-th slice position is start + k * step |
| Sampling.StrideMembers | sales_register_analysis/app.py:178 | a position is in the slice exactly when it is below the table size and equals start + k * step for some k |
| Sampling.StepZeroIff | sales_register_analysis/app.py:174-175 | the step N div n is 0 exactly when n exceeds N |
| Sampling.SystematicSample | sales_register_analysis/app.py:171-185 | fails with "too large" exactly when the step is 0, and with "out of bounds" exactly when the second pick passes the last row; otherwise it returns at least two rows, the rows at the slice positions |
| Sampling.SystematicSampleLegacy | app.py:140-150 | fails exactly when the step is 0; otherwise it returns the rows at the slice positions, at least one row for a start within the table |
| Sampling.SlicePicks | sales_register_analysis/app.py:178 | row k of the systematic sample is the table row at start + k * step, and the sample runs to the end of the table |
| Sampling.SystematicEditionsAgree | app.py:143-146 | whenever the packaged edition succeeds, the older one returns the same rows |
| Sampling.SystematicTenByThree | sales_register_analysis/app.py:174-178 | 10 rows with n = 3 and start 1 give the rows at positions 0, 3, 6 and 9 |
| Sampling.DrawsOrdered | sales_register_analysis/app.py:196-198 | one draw per interval never passes the total, and the draws never decrease |
| Sampling.MusSelectsDrawnUnits | sales_register_analysis/app.py:196-201 | a row is selected exactly when some draw's first reaching running total is that row's |
| Sampling.MusPositions | sales_register_analysis/app.py:196-202 | at most n positions are kept |
| Sampling.FirstReaching | sales_register_analysis/app.py:199 | the position found is the first from which the running total reaches the drawn amount |
| Sampling.MusPositionsSpec | sales_register_analysis/app.py:196-202 | the selected positions are strictly increasing, in range, and at most n |
| Sampling.SelectHits | sales_register_analysis/app.py:196-201 | the hit loop keeps the first occurrence of each hit position, in draw order |
| Sampling.PositiveInterval | sales_register_analysis/app.py:191-194 | a positive total gives a positive interval, so the zero-interval guard never fires over exact numbers |
| Sampling.MonetaryUnitSample | sales_register_analysis/app.py:189-208 | fails exactly when the total is not positive; otherwise the interval is total / n, and the sample holds the table rows at the strictly increasing, in-range, deduplicated hit positions, at most n of them (the same code is at app.py:154-170) |
| Sampling.MusFourFifties | sales_register_analysis/app.py:189-202 | four rows of 50 with n = 2 give one or two rows, the first from the first two rows and the last from rows 1 to 3 |
| Sampling.JudgmentalSample | sales_register_analysis/app.py:214 | a row is selected exactly when it is in the table and its invoice number was picked; each such row is kept as often as it occurs in the table and no other row is kept |
| Sampling.JudgmentalAppend | sales_register_analysis/app.py:214 | selecting from a concatenation selects from each part in place: the table order is kept |
| Sampling.StratumDraw | sales_register_analysis/app.py:254 | a stratum gives min(its size, its share) of its own rows, none more often than it occurs there |
| Sampling.DrawnUpTo | sales_register_analysis/app.py:251-254 | the concatenated draws have exactly the sum of min(stratum size, share) rows, at most the sum of the shares, and each row comes from one of the strata drawn |
| Sampling.StratumPart | sales_register_analysis/app.py:251-254 | the rows of stratum k in the concatenated draws are exactly stratum k's own draw, in its order |
| Sampling.StrataShares | sales_register_analysis/app.py:251-254 | stratum by stratum, the draws hold min(stratum size, share) rows of that stratum, each drawn from it |
| Sampling.DrawStrata | sales_register_analysis/app.py:251-254 | the per-stratum loop computes the concatenated draws |
| Sampling.StratifiedSample | sales_register_analysis/app.py:219-262 | boundary failures pass through; no row in any stratum is a failure; otherwise the sizes are the allocation, the warning flag is set exactly when n is below the number of strata, the rows are the strata's draws concatenated, min(stratum size, size) of them from each stratum, at most n in all, each a table row with a stratum |
| Sampling.StratifiedSampleLegacy | app.py:184-195 | boundary failures pass through; otherwise the rows are the strata's draws of n div (number of strata) rows each, concatenated: min(stratum size, n div K) from each stratum, at most n in all, each a table row with a stratum |
| Sampling.OneHundredEdges | sales_register_analysis/app.py:224-225 | boundary text "100" gives the edges 0 and 100 |
| Sampling.OneHundredCounts | sales_register_analysis/app.py:227-230 | amounts 50, 150 and 250 split at 100 give one row in the lower stratum and two in the upper |
| Sampling.OneHundredAllocation | sales_register_analysis/app.py:231-243 | counts 1 and 2 with n = 2 are allocated one row each |
| Methodology.RandomText | sales_register_analysis/app.py:167 | the Random sentence names the sample size |
| Methodology.SystematicText | sales_register_analysis/app.py:179 | the Systematic sentence names the sample size, the start and the step |
| Methodology.MusText | sales_register_analysis/app.py:203 | the MUS sentence names the sample size and the rendered interval |
| Methodology.JudgmentalText | sales_register_analysis/app.py:215 | the Judgmental sentence names every picked invoice number |
| Methodology.StratifiedText | sales_register_analysis/app.py:257 | the Stratified sentence names the boundary text and the sample size |
| Methodology.RandomInitial | sales_register_analysis/app.py:164-169 | the Random initial sample is the sampler's draw of n rows: exactly n of them, no row more often than in the table, with a sentence naming n |
| Methodology.JudgmentalInitial | sales_register_analysis/app.py:210-217 | the Judgmental initial sample is the invoice selection itself: exactly the table rows whose invoice was picked, and its sentence names every picked invoice |
| Methodology.SystematicInitial | sales_register_analysis/app.py:171-185 | the systematic initial sample succeeds and fails as the selection does, with the same error, and its rows are the selected rows, all table rows |
| Methodology.SystematicInitialLegacy | app.py:140-150 | the same for the older systematic rule |
| Methodology.MusInitial | sales_register_analysis/app.py:187-208 | the MUS initial sample succeeds exactly when the total is positive, else fails with the non-positive-total error; its rows are the table rows at the in-range MUS hit positions, no row more often than in the table; its sentence names n and the interval total / n |
| Methodology.StratifiedInitial | sales_register_analysis/app.py:219-262 | fails exactly when the boundary text is refused or no row falls in any stratum, with the boundary error or the empty-strata error; a sample is the strata's draws of their allocated sizes, concatenated, at most n table rows, with a sentence naming the boundaries and n |
| Methodology.StratifiedInitialLegacy | app.py:181-196 | fails exactly when the boundary text is refused, with that error; a sample is the equal-share stratified rows, at most n table rows, with a sentence naming the boundaries and n |
| Methodology.Generate | sales_register_analysis/app.py:164-262 | Random and Judgmental never fail; each technique's sample holds exactly the rows its selection gives (the sampler's n rows, the systematic rows, the rows at the MUS hit positions, the picked invoices' rows, the allocated stratum draws); Systematic fails exactly on a zero step or an out-of-range second pick, MUS exactly on a non-positive total, Stratified exactly on a refused boundary text or empty strata; every sample holds only table rows and a sentence naming n, or every picked invoice for Judgmental |
| Methodology.GenerateLegacy | app.py:133-196 | the same with the older rules: Systematic fails exactly on a zero step and then gives the older systematic rows, at least one; Stratified fails exactly on a refused boundary text and otherwise gives the equal-share stratified rows, at most n |
| Accumulator.Accumulate | sales_register_analysis/app.py:272-280 | without an initial sample, exactly the invoice selection of the picked table rows; with one, rows with distinct invoice numbers whose invoices are the initial ones plus the picked ones, each from the table or the initial sample; the initial narrative is kept as a prefix; every picked invoice number appears in the narrative (app.py:202-211 is the same) |
| Accumulator.AccumulateKeepsInitial | sales_register_analysis/app.py:276 | the initial sample, deduplicated by invoice, begins the final sample; an initial sample with distinct invoices is kept unchanged |
| Accumulator.AccumulateAddsOnlyNew | sales_register_analysis/app.py:273-276 | every row after the kept initial rows is a picked table row whose invoice number the initial sample lacked |
| Accumulator.AccumulateTwice | sales_register_analysis/app.py:276 | adding the same picks a second time changes no row |
| Collections.DedupBy | sales_register_analysis/app.py:276 | deduplication keeps the same invoice numbers, each once, and never adds rows |
| Collections.DedupByFirstOccurrences | sales_register_analysis/app.py:276 | every row kept by deduplication is the first row with its invoice number |

## Left out

- File upload, CSV parsing, required-column checks and date parsing are left out: they are
  I/O. Rows arrive already ingested, with an unparsed date as `None`.
- Widgets, reruns and session behaviour are left out. This includes the start input being
  created inside the Systematic button and the list of options offered for additional picks
  (sales_register_analysis/app.py:270). The size, start and picks are arguments.
- Charts, dataframe display, the yellow highlight and the `₹{x:,.2f}` rendering are left
  out as presentation. The MUS sentence takes the rendering as a `money` parameter.
- Floating-point behaviour is left out: amounts are exact reals.
  - Sampling.PositiveInterval: the `interval == 0` guard is unreachable over reals, so it
    is a proved fact rather than a branch.
  - Sampling.MonetaryUnitSample: draws are only required to lie in the closed interval
    `[i * I, (i + 1) * I]`; the uniform distribution itself is not modelled.
  - Boundary texts that parse to infinity or NaN are not modelled.
- Pandas index labels versus positions are left out: tables are sequences, and
  `.loc[sample_indices]` is taken at positions. This is the same for a freshly loaded table
  with its default index.
- Sampling.DrawStrata: strata are drawn and concatenated in label order. The packaged
  edition iterates over `value_counts()` order, which sorts by count. The set of rows
  drawn is the same; their order in the sample is not modelled.
- Strata.ArgMax: a tie for the largest share goes to the first stratum in label order. The
  source's `idxmax` picks the first in `value_counts()` order. The proofs of
  Strata.TrimSpec, Strata.TrimKeepsOne and Strata.AllocationSpec use only ArgMax's
  contract (some largest share), so those properties hold whichever tied stratum is
  chosen; the exact sizes of tied strata may differ from the source's.
- Sampling.StratifiedSampleLegacy: `groupby(...).apply(...)` also orders the draws by
  stratum label, which the model does too.
- The helper columns 'Cumulative Total' and 'Stratum' that the source adds to the table
  (and that remain in sampled rows) are not modelled. Rows carry only their source
  columns.
- Sampling.RandomSample, Sampling.StratumDraw: which rows `DataFrame.sample` picks is
  left to the `Sampler` oracle. The contracts state only what holds for every draw.
- Trend: the Month column is the number 1 to 12, standing for the labels "01" to "12".
  The labels sort as the numbers do. This assumes every date of the period parsed: in the
  packaged edition (sales_register_analysis/app.py:19,24) a single unparsed date makes the
  month column floating point, so the labels become "1.0", "2.0", ... and match no month
  label "01" to "12"; that period's months then zero-fill. This label derivation is not
  modelled.
