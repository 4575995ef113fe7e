/** The "Initial Sampling Method" step: the chosen technique is run on the filtered
    current-year rows and produces the initial sample together with the methodology
    sentence that documents it. Both editions of the application are modelled:
    `Generate` follows sales_register_analysis/app.py and `GenerateLegacy` follows the
    root app.py. */
module Methodology {
  import opened Wrappers
  import opened Collections
  import opened Text
  import opened Records
  import opened Strata
  import opened Sampling

  /** The technique picked in the selectbox, with the inputs that only it uses. */
  datatype Technique =
    | Random
    | Systematic(start: nat)
    | MonetaryUnit(draws: seq<real>)
    | Judgmental(selection: seq<string>)
    | Stratified(boundaries: string)

  /** A sample and the narrative shown under it. */
  datatype Sample = Sample(rows: seq<Transaction>, text: string)

  // ---------------------------------------------------------------- Narratives

  // The fixed pieces of the methodology sentences, in the order they are written.
  const RandomLead: string := "**Random Sampling:** A random sample of "
  const RandomTail: string := " transactions was selected."
  const SystematicLead: string := "**Systematic Sampling:** A systematic sample of "
  const SystematicStart: string := " transactions was selected, starting from item "
  const SystematicStep: string := " and selecting every "
  const SystematicTail: string := "th item."
  const MusLead: string := "**Monetary Unit Sampling (MUS):** An MUS sample of "
  const MusInterval: string := " transactions was selected.  The sampling interval was \U{20B9}"
  const JudgmentalLead: string := "**Judgmental Sampling:** The following invoice numbers were initially selected: "
  const StratifiedLead: string := "**Stratified Sampling:** The data was stratified based on 'Total Amount (Inc. Tax)' with boundaries: "
  const StratifiedSize: string := ".  A sample of size "
  const StratifiedTail: string := " was selected proportionally."

  function RandomText(n: nat): (r: string)
    ensures IsInfix(NatToString(n), r)
  {
    InfixOfThree(RandomLead, NatToString(n), RandomTail);
    RandomLead + (NatToString(n) + RandomTail)
  }

  function SystematicText(n: nat, start: nat, step: nat): (r: string)
    ensures IsInfix(NatToString(n), r)
    ensures IsInfix(NatToString(start), r) && IsInfix(NatToString(step), r)
  {
    var rest := SystematicStart + (NatToString(start) + (SystematicStep + (NatToString(step) + SystematicTail)));
    InfixOfThree(SystematicLead, NatToString(n), rest);
    InfixOfFive(SystematicStart, NatToString(start), SystematicStep, NatToString(step), SystematicTail);
    InfixPrefix(NatToString(start), rest, NatToString(n));
    InfixPrefix(NatToString(start), NatToString(n) + rest, SystematicLead);
    InfixPrefix(NatToString(step), rest, NatToString(n));
    InfixPrefix(NatToString(step), NatToString(n) + rest, SystematicLead);
    SystematicLead + (NatToString(n) + rest)
  }

  lemma InfixHead(x: string, rest: string)
    ensures IsInfix(x, x + rest)
  {
    assert (x + rest)[0..|x|] == x;
  }

  lemma InfixPrefix(x: string, s: string, pre: string)
    requires IsInfix(x, s)
    ensures IsInfix(x, pre + s)
  {
    var i, j :| 0 <= i <= j <= |s| && s[i..j] == x;
    assert (pre + s)[|pre| + i..|pre| + j] == x;
  }

  /** A piece written between two others occurs in the sentence. */
  lemma InfixOfThree(a: string, x: string, b: string)
    ensures IsInfix(x, a + (x + b))
  {
    InfixHead(x, b);
    InfixPrefix(x, x + b, a);
  }

  /** Both pieces written between fixed text occur in the sentence. */
  lemma InfixOfFive(a: string, x: string, b: string, y: string, c: string)
    ensures IsInfix(x, a + (x + (b + (y + c))))
    ensures IsInfix(y, a + (x + (b + (y + c))))
  {
    InfixOfThree(a, x, b + (y + c));
    InfixOfThree(b, y, c);
    InfixPrefix(y, b + (y + c), x);
    InfixPrefix(y, x + (b + (y + c)), a);
  }

  /** The MUS sentence; `money` renders the interval as the application does (thousands
      separators and two decimals). */
  function MusText(n: nat, interval: real, money: real -> string): (r: string)
    ensures IsInfix(NatToString(n), r) && IsInfix(money(interval), r)
  {
    InfixOfFive(MusLead, NatToString(n), MusInterval, money(interval), ".");
    MusLead + (NatToString(n) + (MusInterval + (money(interval) + ".")))
  }

  function JudgmentalText(selection: seq<string>): (r: string)
    ensures forall k :: 0 <= k < |selection| ==> IsInfix(selection[k], r)
  {
    JoinedInfix(selection, JudgmentalLead);
    JudgmentalLead + Join(selection, ", ")
  }

  function StratifiedText(boundaries: string, n: nat): (r: string)
    ensures IsInfix(NatToString(n), r) && IsInfix(boundaries, r)
  {
    InfixOfFive(StratifiedLead, boundaries, StratifiedSize, NatToString(n), StratifiedTail);
    StratifiedLead + (boundaries + (StratifiedSize + (NatToString(n) + StratifiedTail)))
  }

  /** Every joined part appears in a text that ends with the joined list. */
  lemma JoinedInfix(parts: seq<string>, pre: string)
    ensures forall k :: 0 <= k < |parts| ==> IsInfix(parts[k], pre + Join(parts, ", "))
  {
    forall k | 0 <= k < |parts|
      ensures IsInfix(parts[k], pre + Join(parts, ", "))
    {
      JoinContainsParts(parts, ", ", k);
      InfixExtend(parts[k], Join(parts, ", "), pre, "");
      assert pre + Join(parts, ", ") + "" == pre + Join(parts, ", ");
    }
  }

  // ---------------------------------------------------------------- One technique each

  /** Every drawn row is a row of the table. */
  predicate Drawn(rows: seq<Transaction>, pop: seq<Transaction>)
  {
    forall x :: x in rows ==> x in pop
  }

  function RandomInitial(pop: seq<Transaction>, n: nat, sampler: Sampler): (r: Sample)
    requires ValidSampler(sampler) && n <= |pop|
    ensures r.rows == RandomSample(pop, n, sampler)
    ensures |r.rows| == n && multiset(r.rows) <= multiset(pop) && Drawn(r.rows, pop)
    ensures IsInfix(NatToString(n), r.text)
  {
    var rows := RandomSample(pop, n, sampler);
    SubMultisetMembers(rows, pop);
    Sample(rows, RandomText(n))
  }

  function SystematicInitial(pop: seq<Transaction>, n: nat, start: nat): (r: Result<Sample, Failure>)
    requires n >= 1 && start >= 1
    ensures r.Success? <==> SystematicSample(pop, n, start).Success?
    ensures r.Failure? ==> r.error == SystematicSample(pop, n, start).error
    ensures r.Success? ==> r.value.rows == SystematicSample(pop, n, start).value
    ensures r.Success? ==> Drawn(r.value.rows, pop) && IsInfix(NatToString(n), r.value.text)
  {
    match SystematicSample(pop, n, start)
    case Failure(e) => Failure(e)
    case Success(rows) =>
      StrideRows(pop, n, start);
      Success(Sample(rows, SystematicText(n, start, |pop| / n)))
  }

  function SystematicInitialLegacy(pop: seq<Transaction>, n: nat, start: nat): (r: Result<Sample, Failure>)
    requires n >= 1 && start >= 1
    ensures r.Success? <==> SystematicSampleLegacy(pop, n, start).Success?
    ensures r.Failure? ==> r.error == SystematicSampleLegacy(pop, n, start).error
    ensures r.Success? ==> r.value.rows == SystematicSampleLegacy(pop, n, start).value
    ensures r.Success? ==> Drawn(r.value.rows, pop) && IsInfix(NatToString(n), r.value.text)
  {
    match SystematicSampleLegacy(pop, n, start)
    case Failure(e) => Failure(e)
    case Success(rows) =>
      StrideRows(pop, n, start);
      Success(Sample(rows, SystematicText(n, start, |pop| / n)))
  }

  /** The rows at the systematic positions are rows of the table. */
  lemma StrideRows(pop: seq<Transaction>, n: nat, start: nat)
    requires n >= 1 && start >= 1 && |pop| / n >= 1
    ensures Drawn(Select(pop, Stride(start - 1, |pop| / n, |pop|)), pop)
  {
    var positions := Stride(start - 1, |pop| / n, |pop|);
    StrideDistinct(start - 1, |pop| / n, |pop|);
    SelectSubMultiset(pop, positions);
    SubMultisetMembers(Select(pop, positions), pop);
  }

  method MusInitial(pop: seq<Transaction>, n: nat, draws: seq<real>, money: real -> string)
    returns (r: Result<Sample, Failure>)
    requires n >= 1 && |pop| >= 1
    requires Total(pop) > 0.0 ==> ValidDraws(draws, n, Total(pop) / n as real)
    ensures r.Success? <==> Total(pop) > 0.0
    ensures r.Failure? ==> r.error == NonPositiveTotal
    ensures r.Success? ==> MusDrawn(pop, n, draws, r.value.rows)
    ensures r.Success? ==> multiset(r.value.rows) <= multiset(pop)
    ensures r.Success? ==> Drawn(r.value.rows, pop) && IsInfix(NatToString(n), r.value.text)
    ensures r.Success? ==> IsInfix(money(Total(pop) / n as real), r.value.text)
  {
    var m := MonetaryUnitSample(pop, n, draws);
    if m.Success? {
      SubMultisetMembers(m.value.rows, pop);
      r := Success(Sample(m.value.rows, MusText(n, m.value.interval, money)));
    } else {
      r := Failure(m.error);
    }
  }

  function JudgmentalInitial(pop: seq<Transaction>, selection: seq<string>): (r: Sample)
    ensures r.rows == JudgmentalSample(pop, selection)
    ensures forall t :: t in r.rows <==> t in pop && t.invoice in selection
    ensures forall k :: 0 <= k < |selection| ==> IsInfix(selection[k], r.text)
  {
    Sample(JudgmentalSample(pop, selection), JudgmentalText(selection))
  }

  method StratifiedInitial(pop: seq<Transaction>, n: nat, boundaries: string, parse: string -> Option<real>,
                           sampler: Sampler)
    returns (r: Result<Sample, Failure>)
    requires n >= 1 && ValidSampler(sampler)
    ensures r.Failure? <==> StratifiedFails(pop, boundaries, parse)
    ensures r.Failure? ==>
      r.error == if StrataEdges(boundaries, parse).Failure? then StrataEdges(boundaries, parse).error else NoRowInAnyStratum
    ensures r.Success? ==> StratifiedDrawn(pop, boundaries, parse, n, sampler, r.value.rows)
    ensures r.Success? ==> |r.value.rows| <= n && Drawn(r.value.rows, pop)
    ensures r.Success? ==> IsInfix(NatToString(n), r.value.text) && IsInfix(boundaries, r.value.text)
  {
    var s := StratifiedSample(pop, n, boundaries, parse, sampler);
    if s.Success? {
      r := Success(Sample(s.value.rows, StratifiedText(boundaries, n)));
    } else {
      r := Failure(s.error);
    }
  }

  function StratifiedInitialLegacy(pop: seq<Transaction>, n: nat, boundaries: string, parse: string -> Option<real>,
                                   sampler: Sampler): (r: Result<Sample, Failure>)
    requires ValidSampler(sampler)
    ensures r.Failure? <==> StrataEdges(boundaries, parse).Failure?
    ensures r.Failure? ==> r.error == StrataEdges(boundaries, parse).error
    ensures r.Success? ==> r.value.rows == StratifiedSampleLegacy(pop, n, boundaries, parse, sampler).value
    ensures r.Success? ==> |r.value.rows| <= n && Drawn(r.value.rows, pop)
    ensures r.Success? ==> IsInfix(NatToString(n), r.value.text) && IsInfix(boundaries, r.value.text)
  {
    match StratifiedSampleLegacy(pop, n, boundaries, parse, sampler)
    case Failure(e) => Failure(e)
    case Success(rows) => Success(Sample(rows, StratifiedText(boundaries, n)))
  }

  // ---------------------------------------------------------------- Dispatch

  /** What the caller of either edition supplies: a sample size between 1 and the number of
      rows (the bounds of the size input), a start within the table, and monetary draws
      one per interval when MUS can run. */
  predicate Inputs(pop: seq<Transaction>, n: nat, technique: Technique)
  {
    1 <= n <= |pop| &&
    (technique.Systematic? ==> 1 <= technique.start <= |pop|) &&
    (technique.MonetaryUnit? && Total(pop) > 0.0 ==> ValidDraws(technique.draws, n, Total(pop) / n as real))
  }

  /** What every successful initial sample satisfies: only rows of the filtered table, and
      a narrative that names the sample size or, for Judgmental, every invoice picked. */
  predicate Documented(pop: seq<Transaction>, n: nat, technique: Technique, s: Sample)
  {
    Drawn(s.rows, pop) &&
    (!technique.Judgmental? ==> IsInfix(NatToString(n), s.text)) &&
    (technique.Judgmental? ==> forall k :: 0 <= k < |technique.selection| ==> IsInfix(technique.selection[k], s.text))
  }

  /** The initial sample of sales_register_analysis/app.py. Random and Judgmental selection
      always succeed, Systematic fails exactly when the step is 0 or the second pick would
      pass the last row, MUS exactly when the total is not positive. */
  method Generate(pop: seq<Transaction>, n: nat, technique: Technique, sampler: Sampler,
                  parse: string -> Option<real>, money: real -> string)
    returns (r: Result<Sample, Failure>)
    requires Inputs(pop, n, technique) && ValidSampler(sampler)
    ensures r.Failure? ==> technique.Systematic? || technique.MonetaryUnit? || technique.Stratified?
    ensures technique.Random? ==> r.Success? && r.value.rows == RandomSample(pop, n, sampler) && |r.value.rows| == n
    ensures technique.Systematic? ==>
      (r.Failure? <==> |pop| / n == 0 || technique.start - 1 + |pop| / n >= |pop|)
    ensures technique.Systematic? && r.Success? ==> r.value.rows == SystematicSample(pop, n, technique.start).value
    ensures technique.MonetaryUnit? ==> (r.Success? <==> Total(pop) > 0.0)
    ensures technique.MonetaryUnit? && r.Success? ==> MusDrawn(pop, n, technique.draws, r.value.rows)
    ensures technique.Judgmental? ==> r.Success? && r.value.rows == JudgmentalSample(pop, technique.selection)
    ensures technique.Stratified? ==> (r.Failure? <==> StratifiedFails(pop, technique.boundaries, parse))
    ensures technique.Stratified? && r.Success? ==>
      StratifiedDrawn(pop, technique.boundaries, parse, n, sampler, r.value.rows) && |r.value.rows| <= n
    ensures r.Success? ==> Documented(pop, n, technique, r.value)
  {
    match technique
    case Random =>
      r := Success(RandomInitial(pop, n, sampler));
    case Systematic(start) =>
      r := SystematicInitial(pop, n, start);
    case MonetaryUnit(draws) =>
      r := MusInitial(pop, n, draws, money);
    case Judgmental(selection) =>
      r := Success(JudgmentalInitial(pop, selection));
      assert Drawn(r.value.rows, pop);
    case Stratified(boundaries) =>
      r := StratifiedInitial(pop, n, boundaries, parse, sampler);
  }

  /** The initial sample of the root app.py: the same, except that only a step of 0 stops
      systematic selection (which then always yields at least one row) and strata take
      equal shares. */
  method GenerateLegacy(pop: seq<Transaction>, n: nat, technique: Technique, sampler: Sampler,
                        parse: string -> Option<real>, money: real -> string)
    returns (r: Result<Sample, Failure>)
    requires Inputs(pop, n, technique) && ValidSampler(sampler)
    ensures r.Failure? ==> technique.Systematic? || technique.MonetaryUnit? || technique.Stratified?
    ensures technique.Random? ==> r.Success? && r.value.rows == RandomSample(pop, n, sampler) && |r.value.rows| == n
    ensures technique.Systematic? ==> (r.Failure? <==> |pop| / n == 0)
    ensures technique.Systematic? && r.Success? ==>
      r.value.rows == SystematicSampleLegacy(pop, n, technique.start).value && |r.value.rows| >= 1
    ensures technique.MonetaryUnit? ==> (r.Success? <==> Total(pop) > 0.0)
    ensures technique.MonetaryUnit? && r.Success? ==> MusDrawn(pop, n, technique.draws, r.value.rows)
    ensures technique.Judgmental? ==> r.Success? && r.value.rows == JudgmentalSample(pop, technique.selection)
    ensures technique.Stratified? ==> (r.Failure? <==> StrataEdges(technique.boundaries, parse).Failure?)
    ensures technique.Stratified? ==> (r.Failure? ==> r.error in {BoundaryNotNumeric, BinsNotIncreasing})
    ensures technique.Stratified? && r.Success? ==>
      r.value.rows == StratifiedSampleLegacy(pop, n, technique.boundaries, parse, sampler).value && |r.value.rows| <= n
    ensures r.Success? ==> Documented(pop, n, technique, r.value)
  {
    match technique
    case Random =>
      r := Success(RandomInitial(pop, n, sampler));
    case Systematic(start) =>
      r := SystematicInitialLegacy(pop, n, start);
    case MonetaryUnit(draws) =>
      r := MusInitial(pop, n, draws, money);
    case Judgmental(selection) =>
      r := Success(JudgmentalInitial(pop, selection));
      assert Drawn(r.value.rows, pop);
    case Stratified(boundaries) =>
      r := StratifiedInitialLegacy(pop, n, boundaries, parse, sampler);
  }
}
