/** The "Add Judgmental Sample" step: invoice numbers picked by hand are added to the
    initial sample, rows whose invoice number is already in the sample are dropped, and a
    sentence naming the added invoices is appended to the methodology narrative. Both
    editions of the application behave the same here. */
module Accumulator {
  import opened Wrappers
  import opened Collections
  import opened Text
  import opened Records
  import opened Sampling
  import opened Methodology

  function InvoiceOf(t: Transaction): string
  {
    t.invoice
  }

  const AddedHeader: string := "  \n\n**Additional Judgmental Selections:** The following invoice numbers were added: "
  const SelectedHeader: string := "**Judgmental Sampling:** The following invoice numbers were selected: "

  /** The final sample. With an initial sample, the picked rows are appended to it and
      duplicate invoice numbers are dropped, keeping the first row of each; without one,
      the picked rows alone form the sample. */
  function Accumulate(pop: seq<Transaction>, initial: Option<Sample>, selection: seq<string>): (r: Sample)
    ensures initial.None? ==> r.rows == JudgmentalSample(pop, selection)
    ensures initial.None? ==> forall t :: t in r.rows <==> t in pop && t.invoice in selection
    ensures initial.Some? ==> DistinctKeys(r.rows, InvoiceOf)
    ensures initial.Some? ==>
      KeySet(r.rows, InvoiceOf) == KeySet(initial.value.rows, InvoiceOf) + KeySet(JudgmentalSample(pop, selection), InvoiceOf)
    ensures forall t :: t in r.rows ==> t in pop || (initial.Some? && t in initial.value.rows)
    ensures initial.Some? ==> |initial.value.text| <= |r.text| && r.text[..|initial.value.text|] == initial.value.text
    ensures forall k :: 0 <= k < |selection| ==> IsInfix(selection[k], r.text)
  {
    var added := JudgmentalSample(pop, selection);
    match initial
    case None =>
      JoinedInfix(selection, SelectedHeader);
      Sample(added, SelectedHeader + Join(selection, ", "))
    case Some(s) =>
      var rows := DedupBy(s.rows + added, InvoiceOf);
      KeySetConcat(s.rows, added, InvoiceOf);
      DedupBySubMultiset(s.rows + added, InvoiceOf);
      SubMultisetMembers(rows, s.rows + added);
      JoinedInfix(selection, AddedHeader);
      ExtendedText(s.text, AddedHeader + Join(selection, ", "), selection);
      Sample(rows, s.text + (AddedHeader + Join(selection, ", ")))
  }

  lemma ExtendedText(text: string, tail: string, selection: seq<string>)
    requires forall k :: 0 <= k < |selection| ==> IsInfix(selection[k], tail)
    ensures (text + tail)[..|text|] == text
    ensures forall k :: 0 <= k < |selection| ==> IsInfix(selection[k], text + tail)
  {
    forall k | 0 <= k < |selection|
      ensures IsInfix(selection[k], text + tail)
    {
      InfixExtend(selection[k], tail, text, "");
      assert text + tail + "" == text + tail;
    }
  }

  /** The initial sample, deduplicated by invoice number, is the start of the final sample:
      adding rows never reorders or drops an invoice already sampled. When the initial
      invoices are already distinct, the initial sample itself is kept unchanged. */
  lemma AccumulateKeepsInitial(pop: seq<Transaction>, s: Sample, selection: seq<string>)
    ensures var rows := Accumulate(pop, Some(s), selection).rows;
      var kept := DedupBy(s.rows, InvoiceOf);
      |kept| <= |rows| && rows[..|kept|] == kept
    ensures DistinctKeys(s.rows, InvoiceOf) ==>
      var rows := Accumulate(pop, Some(s), selection).rows;
      |s.rows| <= |rows| && rows[..|s.rows|] == s.rows
  {
    DedupByPrefix(s.rows, JudgmentalSample(pop, selection), InvoiceOf);
    if DistinctKeys(s.rows, InvoiceOf) {
      DedupByDistinct(s.rows, InvoiceOf);
    }
  }

  /** Every row after the kept initial sample is a picked row of the table whose invoice
      number the initial sample did not have. */
  lemma AccumulateAddsOnlyNew(pop: seq<Transaction>, s: Sample, selection: seq<string>)
    ensures var rows := Accumulate(pop, Some(s), selection).rows;
      forall j :: |DedupBy(s.rows, InvoiceOf)| <= j < |rows| ==>
        rows[j] in pop && rows[j].invoice in selection && rows[j].invoice !in KeySet(s.rows, InvoiceOf)
  {
    var added := JudgmentalSample(pop, selection);
    var rows := Accumulate(pop, Some(s), selection).rows;
    var kept := DedupBy(s.rows, InvoiceOf);
    AccumulateKeepsInitial(pop, s, selection);
    DedupBySubMultiset(s.rows + added, InvoiceOf);
    SubMultisetMembers(rows, s.rows + added);
    forall j | |kept| <= j < |rows|
      ensures rows[j] in pop && rows[j].invoice in selection && rows[j].invoice !in KeySet(s.rows, InvoiceOf)
    {
      forall i | 0 <= i < |kept|
        ensures InvoiceOf(kept[i]) != InvoiceOf(rows[j])
      {
        assert rows[i] == kept[i];
      }
      assert InvoiceOf(rows[j]) !in KeySet(kept, InvoiceOf);
      NotMemberByKey(s.rows, rows[j]);
      assert rows[j] in s.rows + added;
    }
  }

  lemma NotMemberByKey(s: seq<Transaction>, x: Transaction)
    requires InvoiceOf(x) !in KeySet(s, InvoiceOf)
    ensures x !in s
  {
    forall i | 0 <= i < |s|
      ensures s[i] != x
    {
      assert InvoiceOf(s[i]) in KeySet(s, InvoiceOf);
    }
  }

  /** Adding the same invoice numbers a second time changes no row: they are all sampled
      already. */
  lemma AccumulateTwice(pop: seq<Transaction>, s: Sample, selection: seq<string>)
    ensures var once := Accumulate(pop, Some(s), selection);
      Accumulate(pop, Some(once), selection).rows == once.rows
  {
    var added := JudgmentalSample(pop, selection);
    var once := Accumulate(pop, Some(s), selection);
    KeySetConcat(s.rows, added, InvoiceOf);
    DedupByCovered(once.rows, added, InvoiceOf);
    DedupByDistinct(once.rows, InvoiceOf);
  }
}
