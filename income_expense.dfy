/** frontend/src/pages/Income.jsx and Expense.jsx: both pages chart, list and total
    their transactions with the shared helpers of `Charts`, and post the form's
    payload with a forced type. What is particular to them is here. */
module IncomeExpense {
  import opened Common
  import opened Calendar
  import opened Records
  import opened Grouping
  import opened Transactions
  import opened TransactionForm
  import opened Charts

  /** handleCreateIncome / handleCreateExpense: whatever type the form chose, a
      valid submission is stored with the page's type. */
  lemma CreateStoresPageType(f: FormState, pageType: string, id: DocId, user: UserId)
    requires pageType == "income" || pageType == "expense"
    requires Submit(f).Some?
    requires f.category != "" && ValidInstant(f.date) && ParseFrequency(f.frequency).Some?
    ensures var r := NewTransaction(id, user, RequestOf(WithType(Submit(f).value, pageType)));
      r.Ok? && TxTypeName(r.value.txType) == pageType && r.value.amount == f.amount.value
  {
    var g := f.(txType := pageType);
    assert Submit(g) == Some(WithType(Submit(f).value, pageType));
    SubmittedFormIsStored(g, id, user);
  }

  /** A chart point read back as a transaction row: it has no `_id` and no `date`. */
  function PointAsRow(p: DayPoint): (t: TxRow)
    ensures t.id.None? && t.date.None? && t.amount == Some(p.amount)
  {
    TxRow(None, Some(p.amount), None, None, None, None)
  }

  function PointRows(chart: seq<DayPoint>): (r: seq<TxRow>)
    ensures |r| == |chart|
    ensures forall i :: 0 <= i < |chart| ==> r[i] == PointAsRow(chart[i])
  {
    seq(|chart|, i requires 0 <= i < |chart| => PointAsRow(chart[i]))
  }

  /** handleDeleteIncome rebuilds the chart from its own points, which carry no date,
      so until the refetch the chart is empty whatever was deleted. */
  lemma LocalDeleteEmptiesChart(chart: seq<DayPoint>, id: int)
    ensures DailyChart(WithoutId(PointRows(chart), id)) == []
  {
    var rows := WithoutId(PointRows(chart), id);
    forall i | 0 <= i < |rows|
      ensures !HasDate(rows[i])
    {
      assert rows[i] in PointRows(chart);
    }
    FilterNothing(rows, HasDate);
    assert Dated(rows) == [];
    assert KeysOf(Dated(rows), DayOf) == [];
  }
}
