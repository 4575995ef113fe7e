/** The sampling engine: Random, Systematic, Monetary Unit, Judgmental and Stratified
    selection over the filtered current-year rows, with the methodology text of each.
    Randomness is a parameter: a `Sampler` oracle for `DataFrame.sample` and a sequence of
    drawn monetary units for `random.uniform`. */
module Sampling {
  import opened Wrappers
  import opened Collections
  import opened Text
  import opened Records
  import opened Strata

  /** A source of draws without replacement: for a call number, a population size and a
      count, the positions drawn. */
  type Sampler = (nat, nat, nat) -> seq<nat>

  /** A sampler that returns `k` distinct in-range positions whenever `k <= size`. */
  ghost predicate ValidSampler(sampler: Sampler)
  {
    forall call: nat, size: nat, k: nat :: k <= size ==>
      |sampler(call, size, k)| == k && InBounds(sampler(call, size, k), size) && Distinct(sampler(call, size, k))
  }

  // ---------------------------------------------------------------- Random

  /** `df.sample(n=sample_size)`: `n` distinct rows of the population. */
  function RandomSample(pop: seq<Transaction>, n: nat, sampler: Sampler): (r: seq<Transaction>)
    requires ValidSampler(sampler) && n <= |pop|
    ensures |r| == n && multiset(r) <= multiset(pop)
  {
    var picks := sampler(0, |pop|, n);
    SelectSubMultiset(pop, picks);
    Select(pop, picks)
  }

  // ---------------------------------------------------------------- Systematic

  /** The positions `first, first + step, ...` that lie below `size`: `iloc[first::step]`. */
  function Stride(first: nat, step: nat, size: nat): (r: seq<nat>)
    requires step >= 1
    ensures |r| >= 1 <==> first < size
    ensures |r| >= 1 ==> r[0] == first && r[|r| - 1] + step >= size
    ensures forall k :: 0 < k < |r| ==> r[k] == r[k - 1] + step
    ensures InBounds(r, size)
    decreases size - first
  {
    if first >= size then []
    else
      var rest := Stride(first + step, step, size);
      [first] + rest
  }

  /** The `k`-th position of the slice is `first + k * step`. */
  lemma {:induction false} StrideAt(first: nat, step: nat, size: nat, k: nat)
    requires step >= 1 && k < |Stride(first, step, size)|
    ensures Stride(first, step, size)[k] == first + k * step
  {
    if k > 0 {
      StrideAt(first, step, size, k - 1);
      assert (k - 1) * step + step == k * step;
    }
  }

  lemma MulMonotone(a: nat, b: nat, step: nat)
    requires a <= b
    ensures a * step <= b * step
  {
    assert (b - a) * step >= 0;
  }

  /** The slice stops at the first step that reaches `size`. */
  lemma StrideCount(first: nat, step: nat, size: nat)
    requires step >= 1
    ensures first + |Stride(first, step, size)| * step >= size
  {
    var r := Stride(first, step, size);
    if |r| >= 1 {
      StrideAt(first, step, size, |r| - 1);
      MulSucc(|r| - 1, step);
    }
  }

  /** A positive step never revisits a position. */
  lemma StrideDistinct(first: nat, step: nat, size: nat)
    requires step >= 1
    ensures Distinct(Stride(first, step, size))
  {
    var r := Stride(first, step, size);
    forall i, j | 0 <= i < j < |r|
      ensures r[i] != r[j]
    {
      StrideAt(first, step, size, i);
      StrideAt(first, step, size, j);
      MulMonotone(i + 1, j, step);
      MulSucc(i, step);
    }
  }

  lemma MulSucc(a: nat, step: nat)
    ensures (a + 1) * step == a * step + step
  {
  }

  lemma StrideMembersSound(first: nat, step: nat, size: nat, p: nat)
    requires step >= 1 && p in Stride(first, step, size)
    ensures first <= p < size && exists k: nat :: p == first + k * step
  {
    var r := Stride(first, step, size);
    var k :| 0 <= k < |r| && r[k] == p;
    StrideAt(first, step, size, k);
    MulMonotone(0, k, step);
  }

  lemma StrideMembersComplete(first: nat, step: nat, size: nat, p: nat, k: nat)
    requires step >= 1 && p == first + k * step && p < size
    ensures p in Stride(first, step, size)
  {
    var r := Stride(first, step, size);
    StrideCount(first, step, size);
    if |r| <= k {
      MulMonotone(|r|, k, step);
    }
    StrideAt(first, step, size, k);
  }

  /** A position is taken exactly when it lies from `first` up to below `size` and a whole
      number of steps away from `first`: the slice is the whole arithmetic progression. */
  lemma StrideMembers(first: nat, step: nat, size: nat, p: nat)
    requires step >= 1
    ensures p in Stride(first, step, size) <==> first <= p < size && exists k: nat :: p == first + k * step
  {
    if p in Stride(first, step, size) {
      StrideMembersSound(first, step, size, p);
    }
    if first <= p < size && exists k: nat :: p == first + k * step {
      var k: nat :| p == first + k * step;
      StrideMembersComplete(first, step, size, p, k);
    }
  }

  /** The step `N div n` is 0 exactly when more rows are asked for than there are. */
  lemma StepZeroIff(size: nat, n: nat)
    requires n >= 1
    ensures size / n == 0 <==> size < n
  {
    var q, m := size / n, size % n;
    assert size == q * n + m && 0 <= m < n;
    if q >= 1 {
      MulMonotone(1, q, n);
    }
  }

  /** `iloc[start - 1::step]` with `step = N div n`, checked as in sales_register_analysis/app.py:
      a step of 0 is refused, and so is a start whose second pick would fall past the end;
      otherwise the rows at every step from item `start` on, at least two of them. */
  function SystematicSample(pop: seq<Transaction>, n: nat, start: nat): (r: Result<seq<Transaction>, Failure>)
    requires n >= 1 && start >= 1
    ensures r == Failure(SampleTooLarge) <==> |pop| / n == 0
    ensures r == Failure(StartOutOfBounds) <==> |pop| / n >= 1 && start - 1 + |pop| / n >= |pop|
    ensures r.Success? ==> |pop| / n >= 1 && |r.value| >= 2 && r.value == Select(pop, Stride(start - 1, |pop| / n, |pop|))
  {
    var step := |pop| / n;
    if step == 0 then Failure(SampleTooLarge)
    else if start - 1 + step < |pop| then
      var positions := Stride(start - 1, step, |pop|);
      assert positions[1] == start - 1 + step;
      Success(Select(pop, positions))
    else Failure(StartOutOfBounds)
  }

  /** The systematic selection of app.py: only a step of 0 is refused, and a start in range
      gives at least one row. */
  function SystematicSampleLegacy(pop: seq<Transaction>, n: nat, start: nat): (r: Result<seq<Transaction>, Failure>)
    requires n >= 1 && start >= 1
    ensures r.Failure? <==> |pop| / n == 0
    ensures r.Failure? ==> r.error == SampleTooLarge
    ensures r.Success? ==>
      |pop| / n >= 1 && (start <= |pop| ==> |r.value| >= 1) && r.value == Select(pop, Stride(start - 1, |pop| / n, |pop|))
  {
    var step := |pop| / n;
    if step == 0 then Failure(SampleTooLarge)
    else Success(Select(pop, Stride(start - 1, step, |pop|)))
  }

  /** What a systematic sample holds (it is this slice with `first = start - 1` and
      `step = N div n`): the row at `first + k * step` for each `k` from 0, up to the end of
      the table and no further. */
  lemma SlicePicks(pop: seq<Transaction>, first: nat, step: nat)
    requires step >= 1
    ensures var rows := Select(pop, Stride(first, step, |pop|));
      forall k :: 0 <= k < |rows| ==> first + k * step < |pop| && rows[k] == pop[first + k * step]
    ensures first + |Select(pop, Stride(first, step, |pop|))| * step >= |pop|
  {
    var positions := Stride(first, step, |pop|);
    var rows := Select(pop, positions);
    forall k | 0 <= k < |rows|
      ensures first + k * step < |pop| && rows[k] == pop[first + k * step]
    {
      StrideAt(first, step, |pop|, k);
      assert rows[k] == pop[positions[k]];
    }
    StrideCount(first, step, |pop|);
  }

  /** Where the checked edition succeeds, the two editions pick the same rows. */
  lemma SystematicEditionsAgree(pop: seq<Transaction>, n: nat, start: nat)
    requires n >= 1 && start >= 1
    requires SystematicSample(pop, n, start).Success?
    ensures SystematicSampleLegacy(pop, n, start) == SystematicSample(pop, n, start)
  {
  }

  /** Ten rows, three wanted, starting at item 1: the step is 3 and the slice takes the rows
      at positions 0, 3, 6 and 9, one more than asked for. */
  lemma {:induction false} SystematicTenByThree(pop: seq<Transaction>)
    requires |pop| == 10
    ensures SystematicSample(pop, 3, 1) == Success([pop[0], pop[3], pop[6], pop[9]])
  {
    assert |pop| / 3 == 3;
    assert Stride(12, 3, 10) == [];
    assert Stride(9, 3, 10) == [9];
    assert Stride(6, 3, 10) == [6, 9];
    assert Stride(3, 3, 10) == [3, 6, 9];
    assert Stride(0, 3, 10) == [0, 3, 6, 9];
    var picked := Select(pop, [0, 3, 6, 9]);
    assert picked == [pop[0], pop[3], pop[6], pop[9]];
  }

  // ---------------------------------------------------------------- Monetary unit

  function Amounts(pop: seq<Transaction>): (a: seq<real>)
    ensures |a| == |pop|
  {
    seq(|pop|, i requires 0 <= i < |pop| => pop[i].amountIncTax)
  }

  /** `cumsum()` of the tax-included amounts. */
  function Cumulative(amounts: seq<real>): (cum: seq<real>)
    ensures |cum| == |amounts|
  {
    seq(|amounts|, k requires 0 <= k < |amounts| => SumReal(amounts[..k + 1]))
  }

  /** The population's monetary total, the last running total. */
  function Total(pop: seq<Transaction>): real
  {
    SumReal(Amounts(pop))
  }

  /** The first position whose running total reaches `p` (`index[0]` of the rows with
      `Cumulative Total >= p`). */
  function FirstReaching(cum: seq<real>, p: real, from: nat): (k: nat)
    requires from < |cum| && cum[|cum| - 1] >= p
    ensures from <= k < |cum| && cum[k] >= p
    ensures forall j :: from <= j < k ==> cum[j] < p
    decreases |cum| - from
  {
    if cum[from] >= p then from else FirstReaching(cum, p, from + 1)
  }

  /** One monetary unit drawn uniformly from each interval `[i * I, (i + 1) * I]`. */
  predicate ValidDraws(draws: seq<real>, n: nat, interval: real)
  {
    |draws| == n && forall i :: 0 <= i < n ==> i as real * interval <= draws[i] <= (i + 1) as real * interval
  }

  lemma ScaleMonotone(a: real, b: real, c: real)
    requires a <= b && c >= 0.0
    ensures a * c <= b * c
  {
    assert (b - a) * c >= 0.0;
  }

  /** Positions, or draws, that never decrease from one to the next. */
  predicate Nondecreasing(h: seq<real>)
  {
    forall a :: 0 < a < |h| ==> h[a - 1] <= h[a]
  }

  predicate NondecreasingNat(h: seq<nat>)
  {
    forall a :: 0 < a < |h| ==> h[a - 1] <= h[a]
  }

  /** Valid draws never decrease and never pass the total. */
  lemma DrawsOrdered(draws: seq<real>, n: nat, total: real)
    requires n >= 1 && total > 0.0 && ValidDraws(draws, n, total / n as real)
    ensures forall i :: 0 <= i < n ==> draws[i] <= total
    ensures Nondecreasing(draws)
  {
    var interval := total / n as real;
    assert n as real * interval == total;
    forall i | 0 <= i < n ensures draws[i] <= total {
      DrawBelowTotal(draws, n, interval, i);
    }
    forall a | 0 < a < n ensures draws[a - 1] <= draws[a] {
      DrawsAdjacent(draws, n, interval, a);
    }
  }

  lemma DrawBelowTotal(draws: seq<real>, n: nat, interval: real, i: nat)
    requires interval > 0.0 && ValidDraws(draws, n, interval) && i < n
    ensures draws[i] <= n as real * interval
  {
    ScaleMonotone((i + 1) as real, n as real, interval);
  }

  lemma DrawsAdjacent(draws: seq<real>, n: nat, interval: real, a: nat)
    requires ValidDraws(draws, n, interval) && 0 < a < n
    ensures draws[a - 1] <= draws[a]
  {
    assert draws[a - 1] <= ((a - 1) + 1) as real * interval;
  }

  function Hits(cum: seq<real>, draws: seq<real>): (h: seq<nat>)
    requires |cum| >= 1 && forall i :: 0 <= i < |draws| ==> draws[i] <= cum[|cum| - 1]
    ensures |h| == |draws|
  {
    seq(|draws|, i requires 0 <= i < |draws| => FirstReaching(cum, draws[i], 0))
  }

  function Id(p: nat): nat
  {
    p
  }

  lemma CumulativeLast(pop: seq<Transaction>)
    requires |pop| >= 1
    ensures Cumulative(Amounts(pop))[|pop| - 1] == Total(pop)
  {
    assert Amounts(pop)[..|pop|] == Amounts(pop);
  }

  /** The positions MUS keeps: the row hit by each draw, first hits only, in draw order. */
  function MusPositions(pop: seq<Transaction>, n: nat, draws: seq<real>): (ps: seq<nat>)
    requires n >= 1 && |pop| >= 1 && Total(pop) > 0.0 && ValidDraws(draws, n, Total(pop) / n as real)
    ensures |ps| <= n
  {
    CumulativeLast(pop);
    DrawsOrdered(draws, n, Total(pop));
    DedupBy(Hits(Cumulative(Amounts(pop)), draws), Id)
  }

  lemma IncreasingSnoc(d: seq<nat>, x: nat)
    requires StrictlyIncreasing(d) && (|d| >= 1 ==> d[|d| - 1] < x)
    ensures StrictlyIncreasing(d + [x])
  {
    forall a, b | 0 <= a < b < |d| + 1 ensures (d + [x])[a] < (d + [x])[b] {
      if b == |d| {
        assert d[a] <= d[|d| - 1];
      }
    }
  }

  /** Deduplicating a non-decreasing sequence of positions leaves them strictly increasing,
      ending with the last position. */
  lemma {:induction false} DedupNondecreasing(h: seq<nat>)
    requires NondecreasingNat(h)
    ensures StrictlyIncreasing(DedupBy(h, Id))
    ensures |h| >= 1 ==> |DedupBy(h, Id)| >= 1 && DedupBy(h, Id)[|DedupBy(h, Id)| - 1] == h[|h| - 1]
    decreases |h|
  {
    if |h| >= 1 {
      var init, x := h[..|h| - 1], h[|h| - 1];
      NondecreasingInit(h);
      DedupNondecreasing(init);
      if |init| >= 1 {
        assert init[|init| - 1] == h[|h| - 2] <= x;
      }
      assert h == init + [x];
      DedupSnoc(h, init, x);
    }
  }

  lemma NondecreasingInit(h: seq<nat>)
    requires |h| >= 1 && NondecreasingNat(h)
    ensures NondecreasingNat(h[..|h| - 1])
  {
    var init := h[..|h| - 1];
    forall a | 0 < a < |init| ensures init[a - 1] <= init[a] {
      assert init[a - 1] == h[a - 1] && init[a] == h[a];
    }
  }

  /** One step of the induction above: appending a position no smaller than the last. */
  lemma DedupSnoc(h: seq<nat>, init: seq<nat>, x: nat)
    requires h == init + [x]
    requires StrictlyIncreasing(DedupBy(init, Id))
    requires |DedupBy(init, Id)| >= 1 ==> DedupBy(init, Id)[|DedupBy(init, Id)| - 1] <= x
    ensures StrictlyIncreasing(DedupBy(h, Id))
    ensures |DedupBy(h, Id)| >= 1 && DedupBy(h, Id)[|DedupBy(h, Id)| - 1] == x
  {
    DedupByAppendId(init, x);
    IncreasingStep(DedupBy(init, Id), x, DedupBy(h, Id));
  }

  lemma DedupByAppendId(init: seq<nat>, x: nat)
    ensures var d := DedupBy(init, Id);
      DedupBy(init + [x], Id) == if x in d then d else d + [x]
  {
    DedupByAppend(init, x, Id);
    InKeySetId(DedupBy(init, Id), x);
  }

  /** Appending `x`, unless already present, to a strictly increasing sequence whose last
      entry is at most `x` keeps it strictly increasing and ending in `x`. */
  lemma IncreasingStep(d: seq<nat>, x: nat, e: seq<nat>)
    requires StrictlyIncreasing(d) && (|d| >= 1 ==> d[|d| - 1] <= x)
    requires e == if x in d then d else d + [x]
    ensures StrictlyIncreasing(e) && |e| >= 1 && e[|e| - 1] == x
  {
    if x in d {
      var k :| 0 <= k < |d| && d[k] == x;
      forall i | 0 <= i < |d| - 1 ensures d[i] < d[|d| - 1] { }
      assert d[|d| - 1] == x;
    } else {
      IncreasingSnoc(d, x);
    }
  }

  lemma InKeySetId(s: seq<nat>, x: nat)
    ensures x in s <==> Id(x) in KeySet(s, Id)
  {
    if x in s {
      var k :| 0 <= k < |s| && s[k] == x;
      assert Id(s[k]) in KeySet(s, Id);
    }
  }

  /** A later draw never selects an earlier row. */
  lemma HitsOrdered(cum: seq<real>, draws: seq<real>)
    requires |cum| >= 1 && forall i :: 0 <= i < |draws| ==> draws[i] <= cum[|cum| - 1]
    requires Nondecreasing(draws)
    ensures NondecreasingNat(Hits(cum, draws))
  {
    var h := Hits(cum, draws);
    forall a | 0 < a < |draws| ensures h[a - 1] <= h[a] {
      var ha, hb := FirstReaching(cum, draws[a - 1], 0), FirstReaching(cum, draws[a], 0);
      assert h[a - 1] == ha && h[a] == hb;
      assert cum[hb] >= draws[a] >= draws[a - 1];
    }
  }

  /** Row `h`'s span of the running total holds the monetary unit `d`: `d` is reached at
      `h` and at no earlier row. */
  predicate Holds(cum: seq<real>, d: real, h: nat)
  {
    h < |cum| && d <= cum[h] && forall j :: 0 <= j < h ==> cum[j] < d
  }

  /** Every drawn monetary unit selects the row whose span of the running total holds it,
      and only such rows are selected. */
  lemma MusSelectsDrawnUnits(pop: seq<Transaction>, n: nat, draws: seq<real>, h: nat)
    requires n >= 1 && |pop| >= 1 && Total(pop) > 0.0 && ValidDraws(draws, n, Total(pop) / n as real)
    ensures h in MusPositions(pop, n, draws) <==>
      exists i :: 0 <= i < n && Holds(Cumulative(Amounts(pop)), draws[i], h)
  {
    var cum := Cumulative(Amounts(pop));
    CumulativeLast(pop);
    DrawsOrdered(draws, n, Total(pop));
    var hits := Hits(cum, draws);
    var ps := MusPositions(pop, n, draws);
    assert KeySet(ps, Id) == KeySet(hits, Id);
    if h in ps {
      var k :| 0 <= k < |ps| && ps[k] == h;
      assert Id(ps[k]) in KeySet(hits, Id);
      var i :| 0 <= i < |hits| && Id(hits[i]) == h;
      assert hits[i] == FirstReaching(cum, draws[i], 0);
      assert Holds(cum, draws[i], h);
    }
    if exists i :: 0 <= i < n && Holds(cum, draws[i], h) {
      var i :| 0 <= i < n && Holds(cum, draws[i], h);
      var f := FirstReaching(cum, draws[i], 0);
      assert hits[i] == f == h;
      assert Id(hits[i]) in KeySet(ps, Id);
      var k :| 0 <= k < |ps| && Id(ps[k]) == h;
    }
  }

  /** The positions MUS keeps are in table order, at most one per draw, and all rows of
      the population. */
  lemma MusPositionsSpec(pop: seq<Transaction>, n: nat, draws: seq<real>)
    requires n >= 1 && |pop| >= 1 && Total(pop) > 0.0 && ValidDraws(draws, n, Total(pop) / n as real)
    ensures StrictlyIncreasing(MusPositions(pop, n, draws))
    ensures |MusPositions(pop, n, draws)| <= n
    ensures InBounds(MusPositions(pop, n, draws), |pop|)
  {
    var cum := Cumulative(Amounts(pop));
    CumulativeLast(pop);
    DrawsOrdered(draws, n, Total(pop));
    var hits := Hits(cum, draws);
    HitsOrdered(cum, draws);
    DedupNondecreasing(hits);
    var ps := MusPositions(pop, n, draws);
    forall k | 0 <= k < |ps| ensures ps[k] < |pop| {
      assert Id(ps[k]) in KeySet(hits, Id);
    }
  }

  lemma PositiveInterval(total: real, n: nat)
    requires total > 0.0 && n >= 1
    ensures total / n as real > 0.0
  {
  }

  datatype MusOutcome = MusOutcome(positions: seq<nat>, rows: seq<Transaction>, interval: real)

  /** The selection loop of MUS: for each draw, the first row whose running total reaches
      it, appended unless already selected. */
  method SelectHits(cum: seq<real>, draws: seq<real>) returns (positions: seq<nat>)
    requires |cum| >= 1 && forall i :: 0 <= i < |draws| ==> draws[i] <= cum[|cum| - 1]
    ensures positions == DedupBy(Hits(cum, draws), Id)
  {
    ghost var hits := Hits(cum, draws);
    positions := [];
    var i := 0;
    while i < |draws|
      invariant 0 <= i <= |draws|
      invariant positions == DedupBy(hits[..i], Id)
    {
      var hit := FirstReaching(cum, draws[i], 0);
      assert hits[..i + 1] == hits[..i] + [hit];
      DedupByAppend(hits[..i], hit, Id);
      InKeySetId(positions, hit);
      if hit !in positions {
        positions := positions + [hit];
      }
      i := i + 1;
    }
    assert hits[..|draws|] == hits;
  }

  /** `rows` are the rows at the MUS positions of a table whose total is positive. */
  predicate MusDrawn(pop: seq<Transaction>, n: nat, draws: seq<real>, rows: seq<Transaction>)
  {
    n >= 1 && |pop| >= 1 && Total(pop) > 0.0 && ValidDraws(draws, n, Total(pop) / n as real) &&
    InBounds(MusPositions(pop, n, draws), |pop|) && rows == Select(pop, MusPositions(pop, n, draws))
  }

  /** Monetary unit sampling as both editions run it: refused unless the total is positive;
      otherwise one draw per interval of `total / n`, each keeping the first row whose
      running total reaches the draw, a row hit twice kept once. */
  method MonetaryUnitSample(pop: seq<Transaction>, n: nat, draws: seq<real>) returns (r: Result<MusOutcome, Failure>)
    requires n >= 1 && |pop| >= 1
    requires Total(pop) > 0.0 ==> ValidDraws(draws, n, Total(pop) / n as real)
    ensures r.Failure? <==> Total(pop) <= 0.0
    ensures r.Failure? ==> r.error == NonPositiveTotal
    ensures r.Success? ==>
      Total(pop) > 0.0 &&
      r.value.interval == Total(pop) / n as real && r.value.interval > 0.0 &&
      r.value.positions == MusPositions(pop, n, draws) &&
      StrictlyIncreasing(r.value.positions) && |r.value.positions| <= n &&
      InBounds(r.value.positions, |pop|) &&
      r.value.rows == Select(pop, r.value.positions) && multiset(r.value.rows) <= multiset(pop)
  {
    var cum := Cumulative(Amounts(pop));
    var total := cum[|cum| - 1];
    CumulativeLast(pop);
    if total <= 0.0 {
      return Failure(NonPositiveTotal);
    }
    var interval := total / n as real;
    PositiveInterval(total, n);
    DrawsOrdered(draws, n, total);
    var positions := SelectHits(cum, draws);
    MusPositionsSpec(pop, n, draws);
    var rows := Select(pop, positions);
    SelectSubMultiset(pop, positions);
    r := Success(MusOutcome(positions, rows, interval));
  }

  function AmountRow(a: real): Transaction
  {
    Transaction("", None, "", a, a)
  }

  /** Each running total adds the row's amount to the one before. */
  lemma CumulativeStep(amounts: seq<real>, k: nat)
    requires k < |amounts|
    ensures Cumulative(amounts)[k] == if k == 0 then amounts[0] else Cumulative(amounts)[k - 1] + amounts[k]
  {
    if k == 0 {
      assert amounts[..1] == [amounts[0]];
      assert SumReal([amounts[0]]) == amounts[0] + SumReal([]);
    } else {
      assert amounts[..k + 1] == amounts[..k] + [amounts[k]];
      SumRealAppend(amounts[..k], [amounts[k]]);
    }
  }

  function FourFifties(): seq<Transaction>
  {
    [AmountRow(50.0), AmountRow(50.0), AmountRow(50.0), AmountRow(50.0)]
  }

  lemma FourFiftiesRunningTotals()
    ensures Cumulative(Amounts(FourFifties())) == [50.0, 100.0, 150.0, 200.0]
    ensures Total(FourFifties()) == 200.0
  {
    var pop := FourFifties();
    var amounts := Amounts(pop);
    assert amounts == [50.0, 50.0, 50.0, 50.0];
    CumulativeStep(amounts, 0);
    CumulativeStep(amounts, 1);
    CumulativeStep(amounts, 2);
    CumulativeStep(amounts, 3);
    CumulativeLast(pop);
  }

  /** Four rows of 50 and a sample of 2: the interval is 100, the first draw selects one
      of the first two rows, the second one of the last three, and at most two rows are
      kept. */
  lemma MusFourFifties(draws: seq<real>)
    requires ValidDraws(draws, 2, 100.0)
    ensures Total(FourFifties()) == 200.0
    ensures var ps := MusPositions(FourFifties(), 2, draws);
      1 <= |ps| <= 2 && ps[0] <= 1 && 1 <= ps[|ps| - 1] <= 3
  {
    FourFiftiesRunningTotals();
    var cum := Cumulative(Amounts(FourFifties()));
    var h0, h1 := FirstReaching(cum, draws[0], 0), FirstReaching(cum, draws[1], 0);
    var h := Hits(cum, draws);
    assert h == [h0] + [h1];
    assert cum[1] >= draws[0];
    assert cum[0] < draws[1];
    DedupByAppend([], h0, Id);
    assert [h0] == [] + [h0];
    DedupByAppend([h0], h1, Id);
    assert KeySet([h0], Id) == {h0};
  }

  // ---------------------------------------------------------------- Judgmental

  /** `df[df['Invoice Number'].isin(selection)]`: the rows whose invoice number was picked,
      in table order. */
  function JudgmentalSample(pop: seq<Transaction>, selection: seq<string>): (r: seq<Transaction>)
    ensures forall t :: t in r <==> t in pop && t.invoice in selection
    ensures multiset(r) <= multiset(pop)
    ensures forall t :: multiset(r)[t] == if t.invoice in selection then multiset(pop)[t] else 0
  {
    var picked := (t: Transaction) => t.invoice in selection;
    WhereSubMultiset(pop, picked);
    forall t ensures multiset(Where(pop, picked))[t] == if t.invoice in selection then multiset(pop)[t] else 0 {
      WhereCount(pop, picked, t);
    }
    Where(pop, picked)
  }

  /** The picked rows keep table order: picking from two tables one after the other is
      picking from their concatenation. */
  lemma JudgmentalAppend(a: seq<Transaction>, b: seq<Transaction>, selection: seq<string>)
    ensures JudgmentalSample(a + b, selection) == JudgmentalSample(a, selection) + JudgmentalSample(b, selection)
  {
    WhereAppend(a, b, (t: Transaction) => t.invoice in selection);
  }

  // ---------------------------------------------------------------- Stratified

  function Min(a: int, b: int): int
  {
    if a < b then a else b
  }

  /** `stratum.sample(min(len(stratum), size))`. */
  function StratumDraw(rows: seq<Transaction>, size: int, call: nat, sampler: Sampler): (r: seq<Transaction>)
    requires size >= 0 && ValidSampler(sampler)
    ensures |r| == Min(|rows|, size)
    ensures multiset(r) <= multiset(rows)
    ensures forall x :: x in r ==> x in rows
  {
    if rows == [] then []
    else
      var k := if |rows| < size then |rows| else size;
      var picks := sampler(call, |rows|, k);
      SelectSubMultiset(rows, picks);
      SubMultisetMembers(Select(rows, picks), rows);
      Select(rows, picks)
  }

  /** How many rows each stratum can give: its share, or all its rows if it has fewer. */
  function DrawSizes(strata: seq<seq<Transaction>>, sizes: seq<int>): seq<int>
    requires |strata| == |sizes|
  {
    seq(|strata|, k requires 0 <= k < |strata| => Min(|strata[k]|, sizes[k]))
  }

  /** Each stratum's own draw, stratum by stratum. */
  function Draws(strata: seq<seq<Transaction>>, sizes: seq<int>, sampler: Sampler): (r: seq<seq<Transaction>>)
    requires |strata| == |sizes|
    requires forall k :: 0 <= k < |sizes| ==> sizes[k] >= 0
    requires ValidSampler(sampler)
    ensures |r| == |strata|
    ensures forall k :: 0 <= k < |strata| ==> r[k] == StratumDraw(strata[k], sizes[k], k, sampler)
  {
    seq(|strata|, k requires 0 <= k < |strata| => StratumDraw(strata[k], sizes[k], k, sampler))
  }

  /** The concatenated draws of the first `upTo` strata: as many rows as the strata can
      give, at most the sum of the shares, each from one of those strata. */
  function DrawnUpTo(strata: seq<seq<Transaction>>, sizes: seq<int>, sampler: Sampler, upTo: nat): (r: seq<Transaction>)
    requires upTo <= |strata| == |sizes|
    requires forall k :: 0 <= k < |sizes| ==> sizes[k] >= 0
    requires ValidSampler(sampler)
    ensures |r| == SumInt(DrawSizes(strata, sizes)[..upTo])
    ensures |r| <= SumInt(sizes[..upTo])
    ensures forall x :: x in r ==> exists k :: 0 <= k < upTo && x in strata[k]
  {
    var parts := Draws(strata, sizes, sampler)[..upTo];
    ConcatLength(parts, DrawSizes(strata, sizes)[..upTo]);
    SumIntPointwise(DrawSizes(strata, sizes)[..upTo], sizes[..upTo]);
    ConcatMembers(parts, strata);
    Concat(parts)
  }

  /** Draws each non-empty stratum's share and concatenates the draws, stratum by stratum. */
  method DrawStrata(strata: seq<seq<Transaction>>, sizes: seq<int>, sampler: Sampler) returns (sample: seq<Transaction>)
    requires |strata| == |sizes|
    requires forall k :: 0 <= k < |sizes| ==> sizes[k] >= 0
    requires ValidSampler(sampler)
    ensures sample == DrawnUpTo(strata, sizes, sampler, |strata|)
    ensures |sample| <= SumInt(sizes)
    ensures forall x :: x in sample ==> exists k :: 0 <= k < |strata| && x in strata[k]
  {
    sample := [];
    for k := 0 to |strata|
      invariant sample == DrawnUpTo(strata, sizes, sampler, k)
    {
      ConcatStep(Draws(strata, sizes, sampler), k);
      if strata[k] != [] {
        sample := sample + StratumDraw(strata[k], sizes[k], k, sampler);
      }
    }
    assert sizes[..|strata|] == sizes;
  }

  datatype StratifiedOutcome = StratifiedOutcome(rows: seq<Transaction>, sizes: seq<int>, underrepresented: bool)

  function StrataOf(pop: seq<Transaction>, edges: seq<real>): (strata: seq<seq<Transaction>>)
    requires |edges| >= 1 && IncreasingReals(edges)
    ensures |strata| == |edges|
    ensures forall k :: 0 <= k < |edges| ==> strata[k] == StratumRows(pop, edges, k)
  {
    seq(|edges|, k requires 0 <= k < |edges| => StratumRows(pop, edges, k))
  }

  /** The rows of stratum `k` among all the draws are exactly stratum `k`'s own draw: each
      draw comes from its own stratum, and strata do not overlap. */
  lemma StratumPart(pop: seq<Transaction>, edges: seq<real>, sizes: seq<int>, sampler: Sampler, k: nat)
    requires |edges| >= 1 && IncreasingReals(edges) && k < |edges|
    requires |sizes| == |edges| && forall j :: 0 <= j < |sizes| ==> sizes[j] >= 0
    requires ValidSampler(sampler)
    ensures Where(DrawnUpTo(StrataOf(pop, edges), sizes, sampler, |edges|), StratumTest(edges, k)) ==
      StratumDraw(StratumRows(pop, edges, k), sizes[k], k, sampler)
  {
    var strata := StrataOf(pop, edges);
    var p := StratumTest(edges, k);
    forall j, x | 0 <= j < |strata| && x in strata[j]
      ensures p(x) <==> j == k
    {
      assert x in StratumRows(pop, edges, j);
    }
    var d := Draws(strata, sizes, sampler);
    assert d[..|edges|] == d;
    PartOfConcat(d, strata, k, p);
  }

  /** Stratum by stratum, the sample holds `min(len(stratum), share)` rows of that stratum,
      each drawn from it. */
  lemma StrataShares(pop: seq<Transaction>, edges: seq<real>, sizes: seq<int>, sampler: Sampler)
    requires |edges| >= 1 && IncreasingReals(edges)
    requires |sizes| == |edges| && forall j :: 0 <= j < |sizes| ==> sizes[j] >= 0
    requires ValidSampler(sampler)
    ensures forall k :: 0 <= k < |edges| ==>
      var part := Where(DrawnUpTo(StrataOf(pop, edges), sizes, sampler, |edges|), StratumTest(edges, k));
      |part| == Min(|StratumRows(pop, edges, k)|, sizes[k]) && multiset(part) <= multiset(StratumRows(pop, edges, k))
  {
    forall k | 0 <= k < |edges|
      ensures var part := Where(DrawnUpTo(StrataOf(pop, edges), sizes, sampler, |edges|), StratumTest(edges, k));
        |part| == Min(|StratumRows(pop, edges, k)|, sizes[k]) && multiset(part) <= multiset(StratumRows(pop, edges, k))
    {
      StratumPart(pop, edges, sizes, sampler, k);
    }
  }

  /** Stratified selection as sales_register_analysis/app.py runs it: a boundary text that
      does not give strictly increasing numbers aborts, so does a population with no row in
      any stratum (the integer cast of NaN proportions fails); otherwise each stratum gets
      its allocated share, at most `n` rows in all, each from the population and from some
      stratum, with the warning raised when `n` is below the number of strata. */
  method StratifiedSample(pop: seq<Transaction>, n: nat, boundaries: string, parse: string -> Option<real>, sampler: Sampler)
    returns (r: Result<StratifiedOutcome, Failure>)
    requires n >= 1 && ValidSampler(sampler)
    ensures StrataEdges(boundaries, parse).Failure? ==> r == Failure(StrataEdges(boundaries, parse).error)
    ensures StrataEdges(boundaries, parse).Success? ==>
      var edges := StrataEdges(boundaries, parse).value;
      var counts := StratumCounts(pop, edges);
      (r.Failure? <==> SumInt(counts) == 0) &&
      (r.Failure? ==> r.error == NoRowInAnyStratum) &&
      (r.Success? ==>
        SumInt(counts) > 0 &&
        r.value.sizes == Allocation(counts, n) &&
        (forall k :: 0 <= k < |edges| ==> r.value.sizes[k] >= 0) &&
        r.value.underrepresented == (n < |edges|) &&
        r.value.rows == DrawnUpTo(StrataOf(pop, edges), r.value.sizes, sampler, |edges|) &&
        (forall k :: 0 <= k < |edges| ==>
          |Where(r.value.rows, StratumTest(edges, k))| == Min(counts[k], r.value.sizes[k])) &&
        |r.value.rows| <= n &&
        forall x :: x in r.value.rows ==> x in pop && StratumOf(x.amountIncTax, edges).Some?)
  {
    var parsed := StrataEdges(boundaries, parse);
    if parsed.Failure? {
      return Failure(parsed.error);
    }
    var edges := parsed.value;
    var counts := StratumCounts(pop, edges);
    SumIntNonNegative(counts);
    if SumInt(counts) == 0 {
      return Failure(NoRowInAnyStratum);
    }
    var sizes := AllocateStrata(counts, n);
    assert |sizes| == |edges|;
    var strata := StrataOf(pop, edges);
    var rows := DrawStrata(strata, sizes, sampler);
    StrataShares(pop, edges, sizes, sampler);
    r := Success(StratifiedOutcome(rows, sizes, n < |edges|));
  }

  /** Stratified selection in sales_register_analysis/app.py fails exactly when the
      boundary text is refused or no row falls in any stratum. */
  predicate StratifiedFails(pop: seq<Transaction>, boundaries: string, parse: string -> Option<real>)
  {
    var e := StrataEdges(boundaries, parse);
    e.Failure? || SumInt(StratumCounts(pop, e.value)) == 0
  }

  /** `rows` are what stratified selection in sales_register_analysis/app.py returns when it
      succeeds: each stratum's draw of its allocated size, concatenated stratum by stratum. */
  ghost predicate StratifiedDrawn(pop: seq<Transaction>, boundaries: string, parse: string -> Option<real>, n: nat,
                                  sampler: Sampler, rows: seq<Transaction>)
  {
    ValidSampler(sampler) && StrataEdges(boundaries, parse).Success? &&
    var edges := StrataEdges(boundaries, parse).value;
    var counts := StratumCounts(pop, edges);
    SumInt(counts) > 0 &&
    (AllocationSpec(counts, n);
     rows == DrawnUpTo(StrataOf(pop, edges), Allocation(counts, n), sampler, |edges|))
  }

  /** `k` equal shares of `c`. */
  function EqualSizes(k: nat, c: int): (r: seq<int>)
    ensures |r| == k && forall i :: 0 <= i < k ==> r[i] == c
  {
    seq(k, (i: nat) => c)
  }

  lemma {:induction false} SumIntConstant(k: nat, c: int)
    ensures SumInt(EqualSizes(k, c)) == k * c
  {
    if k > 0 {
      assert EqualSizes(k, c)[1..] == EqualSizes(k - 1, c);
      SumIntConstant(k - 1, c);
    }
  }

  /** `K` equal shares of `n div K` add up to at most `n`. */
  lemma EqualShares(n: nat, k: nat)
    requires k >= 1
    ensures (n / k) * k <= n
  {
    assert n == (n / k) * k + n % k;
  }

  /** Stratified selection as app.py runs it: a boundary text that does not give strictly
      increasing numbers aborts; otherwise every stratum gives at most `n div K` rows, where
      `K` is the number of strata, so the sample never exceeds `n`. */
  function StratifiedSampleLegacy(pop: seq<Transaction>, n: nat, boundaries: string, parse: string -> Option<real>, sampler: Sampler)
    : (r: Result<seq<Transaction>, Failure>)
    requires ValidSampler(sampler)
    ensures r.Failure? <==> StrataEdges(boundaries, parse).Failure?
    ensures r.Failure? ==> r.error == StrataEdges(boundaries, parse).error
    ensures r.Success? ==> LegacyDrawn(pop, StrataEdges(boundaries, parse).value, n, sampler, r.value)
  {
    match StrataEdges(boundaries, parse)
    case Failure(e) => Failure(e)
    case Success(edges) =>
      LegacyShares(pop, edges, n, sampler);
      Success(DrawnUpTo(StrataOf(pop, edges), EqualSizes(|edges|, n / |edges|), sampler, |edges|))
  }

  /** What the draw of app.py is for the strata `edges`: the strata's draws of `n div K`
      rows each, concatenated, which makes at most `n` rows, from each stratum
      `min(len(stratum), n div K)` of them, each from the population and from some stratum. */
  ghost predicate LegacyDrawn(pop: seq<Transaction>, edges: seq<real>, n: nat, sampler: Sampler, drawn: seq<Transaction>)
    requires |edges| >= 1 && IncreasingReals(edges) && ValidSampler(sampler)
  {
    drawn == DrawnUpTo(StrataOf(pop, edges), EqualSizes(|edges|, n / |edges|), sampler, |edges|) &&
    |drawn| <= n &&
    (forall k :: 0 <= k < |edges| ==>
      |Where(drawn, StratumTest(edges, k))| == Min(|StratumRows(pop, edges, k)|, n / |edges|)) &&
    forall x :: x in drawn ==> x in pop && StratumOf(x.amountIncTax, edges).Some?
  }

  lemma LegacyShares(pop: seq<Transaction>, edges: seq<real>, n: nat, sampler: Sampler)
    requires |edges| >= 1 && IncreasingReals(edges) && ValidSampler(sampler)
    ensures LegacyDrawn(pop, edges, n, sampler, DrawnUpTo(StrataOf(pop, edges), EqualSizes(|edges|, n / |edges|), sampler, |edges|))
  {
    var share := n / |edges|;
    var sizes := EqualSizes(|edges|, share);
    var strata := StrataOf(pop, edges);
    var drawn := DrawnUpTo(strata, sizes, sampler, |edges|);
    SumIntConstant(|edges|, share);
    EqualShares(n, |edges|);
    assert sizes[..|edges|] == sizes;
    StrataShares(pop, edges, sizes, sampler);
    forall x | x in drawn
      ensures x in pop && StratumOf(x.amountIncTax, edges).Some?
    {
      var k :| 0 <= k < |edges| && x in strata[k];
      assert x in StratumRows(pop, edges, k);
    }
  }

  /** The boundary text "100" gives the strata [0, 100] and above 100. */
  lemma OneHundredEdges(parse: string -> Option<real>)
    requires parse("100") == Some(100.0)
    ensures StrataEdges("100", parse) == Success([0.0, 100.0])
  {
    SplitWithoutSeparator("100", ',');
    var pieces: seq<string> := ["100"];
    assert parse(pieces[0]) == Some(100.0);
    var bounds := ParsePieces(pieces, parse);
    assert bounds.Some? && bounds.value[0] == 100.0;
    assert bounds.value == [100.0];
    assert Split("100", ',') == pieces;
    assert [0.0] + bounds.value == [0.0, 100.0];
    assert IncreasingReals([0.0, 100.0]);
  }

  /** Three rows of 50, 150 and 250 split at 100: one row in the lower stratum and two in
      the upper. */
  lemma OneHundredCounts()
    ensures StratumCounts(ThreeRows(), [0.0, 100.0]) == [1, 2]
  {
    OneHundredStratum(0);
    OneHundredStratum(1);
    TwoStrataCounts(ThreeRows(), [0.0, 100.0]);
  }

  lemma TwoStrataCounts(pop: seq<Transaction>, edges: seq<real>)
    requires |edges| == 2 && IncreasingReals(edges)
    ensures StratumCounts(pop, edges) == [|StratumRows(pop, edges, 0)|, |StratumRows(pop, edges, 1)|]
  {
  }

  /** Three rows of 50, 150 and 250. */
  function ThreeRows(): seq<Transaction>
  {
    [AmountRow(50.0), AmountRow(150.0), AmountRow(250.0)]
  }

  lemma OneHundredStratum(k: nat)
    requires k <= 1
    ensures StratumRows(ThreeRows(), [0.0, 100.0], k) == if k == 0 then [ThreeRows()[0]] else ThreeRows()[1..]
  {
    var pop, edges := ThreeRows(), [0.0, 100.0];
    assert StratumOf(50.0, edges) == Some(0);
    assert StratumOf(150.0, edges) == Some(1);
    assert StratumOf(250.0, edges) == Some(1);
    var p := StratumTest(edges, k);
    assert pop[1..][1..][1..] == [];
    assert Where(pop[1..][1..], p) == (if k == 0 then [] else [pop[2]]);
    assert Where(pop[1..], p) == (if k == 0 then [] else [pop[1], pop[2]]);
  }

  /** With one row below the boundary, two above and a sample of 2, the shares round to one
      row each, which already fits. */
  lemma OneHundredAllocation()
    ensures Allocation([1, 2], 2) == [1, 1]
  {
    assert SumInt([1, 2]) == 3;
    assert RoundHalfEven(1.0 / 3.0 * 2.0) == 1;
    assert RoundHalfEven(2.0 / 3.0 * 2.0) == 1;
    assert Proportional([1, 2], 2) == [1, 1];
    assert Bump([1, 1], [1, 2]) == [1, 1];
    assert SumInt([1, 1]) == 2;
  }
}
