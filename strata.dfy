/** Strata for stratified sampling: parsing the boundary text, assigning rows to bins as
    `pd.cut(..., include_lowest=True)` does, and allocating the sample size over the strata
    (sales_register_analysis/app.py lines 224-254; app.py lines 186-190). */
module Strata {
  import opened Wrappers
  import opened Collections
  import opened Text
  import opened Records

  /** `[float(x.strip()) for x in pieces]`, where `parse` stands for `float(x.strip())`:
      `None` as soon as one piece is not a number. */
  function ParsePieces(pieces: seq<string>, parse: string -> Option<real>): (r: Option<seq<real>>)
    ensures r.Some? <==> forall i :: 0 <= i < |pieces| ==> parse(pieces[i]).Some?
    ensures r.Some? ==> |r.value| == |pieces| && forall i :: 0 <= i < |pieces| ==> parse(pieces[i]) == Some(r.value[i])
  {
    if pieces == [] then Some([])
    else
      match parse(pieces[0])
      case None => None
      case Some(x) =>
        match ParsePieces(pieces[1..], parse)
        case None => None
        case Some(xs) => Some([x] + xs)
  }

  predicate IncreasingReals(s: seq<real>)
  {
    forall i, j :: 0 <= i < j < |s| ==> s[i] < s[j]
  }

  /** The finite bin edges `[0] + boundaries` (the top edge, infinity, is implicit), or the
      error that aborts the stratified attempt: a piece that is not a number, or edges that
      do not increase strictly, which `pd.cut` refuses. */
  function StrataEdges(text: string, parse: string -> Option<real>): (r: Result<seq<real>, Failure>)
    ensures r.Failure? ==> r.error == BoundaryNotNumeric || r.error == BinsNotIncreasing
    ensures r.Success? ==> |r.value| >= 2 && r.value[0] == 0.0 && IncreasingReals(r.value)
    ensures var p := ParsePieces(Split(text, ','), parse);
      && (r == Failure(BoundaryNotNumeric) <==> p.None?)
      && (r == Failure(BinsNotIncreasing) <==> p.Some? && !IncreasingReals([0.0] + p.value))
      && (r.Success? ==> r.value == [0.0] + p.value)
  {
    match ParsePieces(Split(text, ','), parse)
    case None => Failure(BoundaryNotNumeric)
    case Some(bounds) =>
      var edges := [0.0] + bounds;
      if IncreasingReals(edges) then Success(edges) else Failure(BinsNotIncreasing)
  }

  /** Stratum `k` is the interval (edges[k], edges[k+1]]; the first one also holds
      edges[0] and the last one is unbounded above. */
  predicate InStratum(x: real, edges: seq<real>, k: nat)
    requires k < |edges|
  {
    (if k == 0 then edges[0] <= x else edges[k] < x) && (k + 1 < |edges| ==> x <= edges[k + 1])
  }

  function Locate(x: real, edges: seq<real>, k: nat): (r: nat)
    requires k < |edges|
    requires if k == 0 then edges[0] <= x else edges[k] < x
    ensures k <= r < |edges| && InStratum(x, edges, r)
    decreases |edges| - k
  {
    if k + 1 == |edges| || x <= edges[k + 1] then k else Locate(x, edges, k + 1)
  }

  /** The stratum of an amount, or `None` (NaN) for an amount below the lowest edge. With
      strictly increasing edges the strata do not overlap, so the stratum found is the
      only one holding the amount. */
  function StratumOf(x: real, edges: seq<real>): (r: Option<nat>)
    requires |edges| >= 1 && IncreasingReals(edges)
    ensures r.None? <==> x < edges[0]
    ensures r.Some? ==> r.value < |edges| && InStratum(x, edges, r.value)
    ensures forall k: nat :: k < |edges| && InStratum(x, edges, k) ==> r == Some(k)
  {
    if x < edges[0] then None else Some(Locate(x, edges, 0))
  }

  /** The mask of stratum `k`: the row's amount falls in that stratum. */
  function StratumTest(edges: seq<real>, k: nat): Transaction -> bool
    requires |edges| >= 1 && IncreasingReals(edges)
  {
    (t: Transaction) => StratumOf(t.amountIncTax, edges) == Some(k)
  }

  /** The rows of stratum `k`, in table order. */
  function StratumRows(pop: seq<Transaction>, edges: seq<real>, k: nat): seq<Transaction>
    requires |edges| >= 1 && IncreasingReals(edges)
  {
    Where(pop, StratumTest(edges, k))
  }

  /** `value_counts()` of the stratum column: one count per stratum, zeros included. */
  function StratumCounts(pop: seq<Transaction>, edges: seq<real>): (counts: seq<nat>)
    requires |edges| >= 1 && IncreasingReals(edges)
    ensures |counts| == |edges|
    ensures forall k :: 0 <= k < |edges| ==> counts[k] == |StratumRows(pop, edges, k)|
  {
    seq(|edges|, k requires 0 <= k < |edges| => |StratumRows(pop, edges, k)|)
  }

  /** `r` is a whole number nearest to `x`, a tie going to the even one. */
  predicate Nearest(x: real, r: int)
  {
    x - 0.5 <= r as real <= x + 0.5 && (r as real - x == 0.5 || x - r as real == 0.5 ==> r % 2 == 0)
  }

  /** `round()` on a number: to the nearest integer, halves to the even neighbour. */
  function RoundHalfEven(x: real): (r: int)
    ensures x - 0.5 <= r as real <= x + 0.5
    ensures r as real - x == 0.5 || x - r as real == 0.5 ==> r % 2 == 0
  {
    var f := x.Floor;
    var d := x - f as real;
    if d < 0.5 then f else if d > 0.5 then f + 1 else if f % 2 == 0 then f else f + 1
  }

  /** `round(c / t * n)`: a share of `n` in proportion `c / t`, the whole number nearest
      to it (a tie going to the even one), between 0 and `n`, and 0 when `c` is 0. */
  function Share(c: nat, t: nat, n: nat): (r: int)
    requires c <= t && t > 0
    ensures Nearest(c as real / t as real * n as real, r)
    ensures 0 <= r <= n && (c == 0 ==> r == 0)
  {
    var x := c as real / t as real * n as real;
    UnitQuotient(c, t);
    ProportionBounds(c as real / t as real, n as real);
    RoundWithin(x, n);
    assert c == 0 ==> x == 0.0;
    RoundHalfEven(x)
  }

  lemma UnitQuotient(c: nat, t: nat)
    requires c <= t && t > 0
    ensures 0.0 <= c as real / t as real <= 1.0
  {
    var q := c as real / t as real;
    assert q * t as real == c as real;
  }

  lemma RoundWithin(x: real, n: nat)
    requires 0.0 <= x <= n as real
    ensures 0 <= RoundHalfEven(x) <= n
  {
    var r := RoundHalfEven(x);
    assert r as real <= n as real + 0.5;
    assert r as real >= -0.5;
  }

  lemma ProportionBounds(q: real, m: real)
    requires 0.0 <= q <= 1.0 && m >= 0.0
    ensures 0.0 <= q * m <= m
  {
    assert (1.0 - q) * m >= 0.0;
  }

  /** `(counts / total * n).round().astype(int)`: each stratum's share of the sample size
      in proportion to its count, between 0 and `n`, and 0 for an empty stratum. */
  function Proportional(counts: seq<nat>, n: nat): (sizes: seq<int>)
    requires SumInt(counts) > 0
    ensures |sizes| == |counts|
    ensures forall k :: 0 <= k < |counts| ==> counts[k] <= SumInt(counts) && sizes[k] == Share(counts[k], SumInt(counts), n)
    ensures forall k :: 0 <= k < |counts| ==> 0 <= sizes[k] <= n && (counts[k] == 0 ==> sizes[k] == 0)
  {
    var total := SumInt(counts);
    assert forall k :: 0 <= k < |counts| ==> counts[k] <= total by {
      forall k | 0 <= k < |counts| ensures counts[k] <= total {
        SumIntBoundsEntry(counts, k);
      }
    }
    seq(|counts|, k requires 0 <= k < |counts| => Share(counts[k], total, n))
  }

  /** The representation rule: an empty share of a non-empty stratum becomes 1. */
  function Bump(sizes: seq<int>, counts: seq<nat>): (r: seq<int>)
    requires |sizes| == |counts|
    ensures |r| == |sizes|
    ensures forall k :: 0 <= k < |sizes| && counts[k] > 0 && sizes[k] >= 0 ==> r[k] >= 1
    ensures forall k :: 0 <= k < |sizes| && r[k] != sizes[k] ==> sizes[k] == 0 && counts[k] > 0 && r[k] == 1
  {
    seq(|sizes|, k requires 0 <= k < |sizes| => if sizes[k] == 0 && counts[k] > 0 then 1 else sizes[k])
  }

  /** `idxmax()`: the first position of a largest entry. */
  function ArgMax(s: seq<int>): (k: nat)
    requires |s| >= 1
    ensures k < |s| && forall j :: 0 <= j < |s| ==> s[j] <= s[k]
  {
    if |s| == 1 then 0
    else
      var k := ArgMax(s[..|s| - 1]);
      if s[|s| - 1] > s[k] then |s| - 1 else k
  }

  /** The trimming rule: while the shares add up to more than `n`, take one from a largest
      share. */
  function Trim(sizes: seq<int>, n: int): (r: seq<int>)
    requires |sizes| >= 1
    ensures |r| == |sizes|
    ensures SumInt(r) <= n
    ensures SumInt(sizes) <= n ==> r == sizes
    ensures SumInt(sizes) > n ==> SumInt(r) == n
    decreases SumInt(sizes) - n
  {
    if SumInt(sizes) <= n then sizes
    else
      var k := ArgMax(sizes);
      SumIntUpdate(sizes, k, sizes[k] - 1);
      Trim(sizes[k := sizes[k] - 1], n)
  }

  /** The sample size of each stratum in sales_register_analysis/app.py. */
  function Allocation(counts: seq<nat>, n: nat): (sizes: seq<int>)
    requires |counts| >= 1 && SumInt(counts) > 0
    ensures |sizes| == |counts|
    ensures SumInt(sizes) <= n
  {
    Trim(Bump(Proportional(counts, n), counts), n)
  }

  /** The number of non-empty strata. */
  function CountPositive(counts: seq<nat>): nat
  {
    if counts == [] then 0 else (if counts[0] > 0 then 1 else 0) + CountPositive(counts[1..])
  }

  lemma {:induction false} SumAllNonPositive(s: seq<int>)
    requires forall k :: 0 <= k < |s| ==> s[k] <= 0
    ensures SumInt(s) <= 0
  {
    if s != [] {
      SumAllNonPositive(s[1..]);
    }
  }

  /** Shares of at most 1, given only to non-empty strata, add up to at most the number of
      non-empty strata. */
  lemma {:induction false} SumOfUnitShares(s: seq<int>, counts: seq<nat>)
    requires |s| == |counts|
    requires forall k :: 0 <= k < |s| ==> s[k] <= 1 && (s[k] > 0 ==> counts[k] > 0)
    ensures SumInt(s) <= CountPositive(counts)
  {
    if s != [] {
      SumOfUnitShares(s[1..], counts[1..]);
    }
  }

  /** Trimming keeps every share non-negative, brings the total down to `n` exactly when it
      was above it and leaves the shares alone otherwise, and never touches a zero share. */
  lemma {:induction false} TrimSpec(sizes: seq<int>, n: nat)
    requires |sizes| >= 1 && forall k :: 0 <= k < |sizes| ==> sizes[k] >= 0
    ensures forall k :: 0 <= k < |sizes| ==> 0 <= Trim(sizes, n)[k] <= sizes[k]
    ensures SumInt(sizes) <= n ==> Trim(sizes, n) == sizes
    ensures SumInt(sizes) > n ==> SumInt(Trim(sizes, n)) == n
    decreases SumInt(sizes) - n
  {
    if SumInt(sizes) > n {
      var k := ArgMax(sizes);
      SumIntUpdate(sizes, k, sizes[k] - 1);
      if sizes[k] <= 0 {
        SumAllNonPositive(sizes);
        assert false;
      }
      TrimSpec(sizes[k := sizes[k] - 1], n);
    }
  }

  /** When `n` is at least the number of non-empty strata, trimming leaves every non-empty
      stratum at least one row: a largest share is then at least 2. */
  lemma {:induction false} TrimKeepsOne(sizes: seq<int>, counts: seq<nat>, n: nat)
    requires |sizes| == |counts| >= 1
    requires forall k :: 0 <= k < |sizes| ==> sizes[k] >= 0 && (counts[k] > 0 ==> sizes[k] >= 1) && (counts[k] == 0 ==> sizes[k] == 0)
    requires CountPositive(counts) <= n
    ensures forall k :: 0 <= k < |sizes| && counts[k] > 0 ==> Trim(sizes, n)[k] >= 1
    decreases SumInt(sizes) - n
  {
    if SumInt(sizes) > n {
      var k := ArgMax(sizes);
      SumIntUpdate(sizes, k, sizes[k] - 1);
      if sizes[k] <= 1 {
        SumOfUnitShares(sizes, counts);
        assert false;
      }
      TrimKeepsOne(sizes[k := sizes[k] - 1], counts, n);
    }
  }

  /** The allocation of sales_register_analysis/app.py: never negative, a total of at most
      `n`, nothing for an empty stratum, and at least one row for every non-empty stratum
      whenever `n` is at least the number of non-empty strata. */
  lemma AllocationSpec(counts: seq<nat>, n: nat)
    requires |counts| >= 1 && SumInt(counts) > 0
    ensures forall k :: 0 <= k < |counts| ==> Allocation(counts, n)[k] >= 0
    ensures forall k :: 0 <= k < |counts| && counts[k] == 0 ==> Allocation(counts, n)[k] == 0
    ensures SumInt(Allocation(counts, n)) <= n
    ensures CountPositive(counts) <= n ==> forall k :: 0 <= k < |counts| && counts[k] > 0 ==> Allocation(counts, n)[k] >= 1
  {
    var bumped := Bump(Proportional(counts, n), counts);
    TrimSpec(bumped, n);
    if CountPositive(counts) <= n {
      TrimKeepsOne(bumped, counts, n);
    }
  }

  /** Computes the allocation as the application does: the proportional shares, then the
      representation loop, then the trimming loop. */
  method AllocateStrata(counts: seq<nat>, n: nat) returns (sizes: seq<int>)
    requires |counts| >= 1 && SumInt(counts) > 0
    ensures sizes == Allocation(counts, n)
    ensures |sizes| == |counts| && SumInt(sizes) <= n
    ensures forall k :: 0 <= k < |sizes| ==> sizes[k] >= 0 && (counts[k] == 0 ==> sizes[k] == 0)
    ensures CountPositive(counts) <= n ==> forall k :: 0 <= k < |sizes| && counts[k] > 0 ==> sizes[k] >= 1
  {
    var proportional := Proportional(counts, n);
    sizes := BumpEmptyShares(proportional, counts);
    sizes := TrimShares(sizes, n);
    AllocationSpec(counts, n);
  }

  /** The representation loop: gives one row to each non-empty stratum whose share is 0. */
  method BumpEmptyShares(proportional: seq<int>, counts: seq<nat>) returns (sizes: seq<int>)
    requires |proportional| == |counts|
    ensures sizes == Bump(proportional, counts)
  {
    sizes := proportional;
    var k := 0;
    while k < |sizes|
      invariant 0 <= k <= |sizes| == |proportional|
      invariant forall j :: 0 <= j < k ==> sizes[j] == Bump(proportional, counts)[j]
      invariant forall j :: k <= j < |sizes| ==> sizes[j] == proportional[j]
    {
      if sizes[k] == 0 && counts[k] > 0 {
        sizes := sizes[k := 1];
      }
      k := k + 1;
    }
  }

  /** The trimming loop: takes one row from a largest share while the total is above `n`. */
  method TrimShares(initial: seq<int>, n: nat) returns (sizes: seq<int>)
    requires |initial| >= 1
    ensures sizes == Trim(initial, n)
  {
    sizes := initial;
    while SumInt(sizes) > n
      invariant |sizes| == |initial|
      invariant Trim(sizes, n) == Trim(initial, n)
      decreases SumInt(sizes) - n
    {
      var largest := ArgMax(sizes);
      SumIntUpdate(sizes, largest, sizes[largest] - 1);
      sizes := sizes[largest := sizes[largest] - 1];
    }
  }
}
