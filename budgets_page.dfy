/** frontend/src/pages/Budgets.jsx: the month's budgets joined with the progress
    summary, the submit guard and the health bar of each row. The category list
    of the form is `CategoryNames.MergeCustomNames`. */
module BudgetsPage {
  import opened Common
  import opened Records
  import opened Spending
  import opened Budgets
  import opened Dashboard

  /** The form a fresh page starts with: category "Food" and an empty amount. */
  datatype BudgetForm = BudgetForm(category: string, amount: Option<int>)

  function InitialBudgetForm(): (f: BudgetForm)
    ensures f.category == "Food" && f.amount.None?
  {
    BudgetForm("Food", None)
  }

  /** handleSubmit's guard on `Number(form.amount)`: a category must be chosen and
      the amount must be a number above 0 (None is an empty or non-numeric text). */
  predicate CanSave(f: BudgetForm) {
    f.category != "" && f.amount.Some? && f.amount.value > 0
  }

  /** Whatever the page lets through, the server's upsert accepts; the only forms the
      server would accept and the page holds back are those with a negative amount. */
  lemma SavedFormIsAccepted(f: BudgetForm)
    ensures CanSave(f) ==> !UpsertRefused(Some(f.category), f.amount)
    ensures !UpsertRefused(Some(f.category), f.amount) && !CanSave(f) ==> f.amount.value < 0
  {
  }

  /** The server stores a negative amount that the page refuses to send. */
  lemma PageRefusesWhatServerTakes()
    ensures var f := BudgetForm("Food", Some(-5));
      !CanSave(f) && !UpsertRefused(Some(f.category), f.amount)
  {
  }

  function CategoryIs(c: string): ProgressRow -> bool {
    (p: ProgressRow) => p.category == c
  }

  /** The entry kept for category c by a Map filled with one `set` per progress
      row: the last row of that category. */
  function LastProgress(progress: seq<ProgressRow>, c: string): (r: Option<ProgressRow>)
    ensures r.None? <==> forall i :: 0 <= i < |progress| ==> progress[i].category != c
    ensures r.Some? ==> r.value.category == c
    ensures r.Some? ==> exists i :: 0 <= i < |progress| && progress[i] == r.value &&
                                    forall j :: i < j < |progress| ==> progress[j].category != c
  {
    match FindLast(progress, CategoryIs(c))
    case None => None
    case Some(i) => Some(progress[i])
  }

  lemma LastProgressSnoc(s: seq<ProgressRow>, x: ProgressRow)
    ensures forall c :: LastProgress(s + [x], c) == if x.category == c then Some(x) else LastProgress(s, c)
  {
    forall c
      ensures LastProgress(s + [x], c) == if x.category == c then Some(x) else LastProgress(s, c)
    {
      FindLastSnoc(s, x, CategoryIs(c));
    }
  }

  /** progressByCategory: a Map from category to progress row, later rows
      overwriting earlier ones. */
  method ProgressByCategory(progress: seq<ProgressRow>) returns (m: map<string, ProgressRow>)
    ensures forall c :: c in m <==> LastProgress(progress, c).Some?
    ensures forall c :: c in m ==> m[c] == LastProgress(progress, c).value
  {
    m := map[];
    for i := 0 to |progress|
      invariant forall c :: c in m <==> LastProgress(progress[..i], c).Some?
      invariant forall c :: c in m ==> m[c] == LastProgress(progress[..i], c).value
    {
      assert progress[..i + 1] == progress[..i] + [progress[i]];
      LastProgressSnoc(progress[..i], progress[i]);
      m := m[progress[i].category := progress[i]];
    }
    assert progress[..|progress|] == progress;
  }

  /** A budget as the page lists it: `{ ...b, spent, percentage }`. */
  datatype BudgetRow = BudgetRow(budget: Budget, spent: int, percentage: int)

  /** One row of `rows`: what the progress row of the budget's category says, or 0
      spent at 0% when there is none. */
  function JoinRow(m: map<string, ProgressRow>, b: Budget): (r: BudgetRow)
    ensures r.budget == b
    ensures b.category in m ==> r.spent == m[b.category].spent && r.percentage == m[b.category].percentage
    ensures b.category !in m ==> r.spent == 0 && r.percentage == 0
  {
    if b.category in m then BudgetRow(b, m[b.category].spent, m[b.category].percentage)
    else BudgetRow(b, 0, 0)
  }

  /** `rows`: one row per budget, in the list's order. */
  function Rows(list: seq<Budget>, m: map<string, ProgressRow>): (r: seq<BudgetRow>)
    ensures |r| == |list|
    ensures forall i :: 0 <= i < |list| ==> r[i] == JoinRow(m, list[i])
  {
    seq(|list|, i requires 0 <= i < |list| => JoinRow(m, list[i]))
  }

  /** On the month's budgets, which name each category once, the joined rows show
      exactly what the server's progress summary computed for each budget: what was
      spent in its category and its percentage. */
  lemma RowsShowServerProgress(list: seq<Budget>, txs: seq<Transaction>, user: UserId, month: int, year: int,
                               progress: seq<ProgressRow>, m: map<string, ProgressRow>)
    requires forall i, j :: 0 <= i < j < |list| ==> list[i].category != list[j].category
    requires |progress| == |list|
    requires forall i :: 0 <= i < |list| ==>
      progress[i] == ProgressRowFor(list[i], Spent(txs, user, month, year, list[i].category))
    requires forall c :: c in m <==> LastProgress(progress, c).Some?
    requires forall c :: c in m ==> m[c] == LastProgress(progress, c).value
    ensures forall i :: 0 <= i < |list| ==>
      var spent := Spent(txs, user, month, year, list[i].category);
      Rows(list, m)[i] == BudgetRow(list[i], spent, ProgressRowFor(list[i], spent).percentage)
  {
    forall i | 0 <= i < |list|
      ensures m[list[i].category] == progress[i]
    {
      var c := list[i].category;
      assert progress[i].category == c;
      var r := LastProgress(progress, c);
      var k :| 0 <= k < |progress| && progress[k] == r.value &&
               forall j :: k < j < |progress| ==> progress[j].category != c;
      assert list[k].category == c;
      assert k == i;
    }
  }

  /** The health of a row on this page: over budget by spent − amount at 100% and
      above, close from 70%, otherwise on track. */
  function RowHealthOf(r: BudgetRow): (h: Health)
    ensures h.Over? <==> r.percentage >= 100
    ensures h.Over? ==> h.excess == r.spent - r.budget.amount
    ensures h.Close? <==> 70 <= r.percentage < 100
    ensures h.Safe? <==> r.percentage < 70
  {
    BarHealth(r.percentage, r.spent, r.budget.amount)
  }

  /** This page and the dashboard draw the same bar for a budget whose progress row
      the server sent. */
  lemma SameBarAsDashboard(b: Budget, m: map<string, ProgressRow>)
    requires b.category in m && m[b.category].budget == b.amount
    ensures RowHealthOf(JoinRow(m, b)) == RowHealth(m[b.category])
    ensures BarWidth(JoinRow(m, b).percentage) == BarWidth(m[b.category].percentage)
  {
  }
}
