/** frontend/src/pages/Dashboard.jsx: the summary card's defaults, the category
    shares of the month's spending, the overview slices and the budget bars. The
    daily chart and the newest-first expense list are the shared helpers of
    `Charts`. */
module Dashboard {
  import opened Common
  import opened Records
  import opened Sorting
  import opened Stats
  import opened Alerts
  import opened Budgets
  import opened Analytics

  /** The summary statistics as JSON: every field may be missing. */
  datatype SummaryData = SummaryData(totalIncome: Option<int>, totalExpense: Option<int>, balance: Option<int>)

  /** What the summary card shows. */
  datatype DashSummary = DashSummary(totalIncome: int, totalExpense: int, balance: int)

  /** fetchSummary: missing totals read as 0, and a balance that is missing or 0
      falls back to income minus expense. */
  function SummaryOf(d: SummaryData): (r: DashSummary)
    ensures d.totalIncome.Some? ==> r.totalIncome == d.totalIncome.value
    ensures d.totalIncome.None? ==> r.totalIncome == 0
    ensures d.totalExpense.Some? ==> r.totalExpense == d.totalExpense.value
    ensures d.totalExpense.None? ==> r.totalExpense == 0
    ensures d.balance.Some? && d.balance.value != 0 ==> r.balance == d.balance.value
    ensures d.balance.None? || d.balance.value == 0 ==> r.balance == r.totalIncome - r.totalExpense
  {
    var income := NumOr(d.totalIncome, 0);
    var expense := NumOr(d.totalExpense, 0);
    DashSummary(income, expense, NumOr(d.balance, income - expense))
  }

  /** The server's summary is shown as sent, and a missing balance is rebuilt as the
      server would have computed it. */
  lemma ServerSummaryShownAsSent(s: Summary, withBalance: bool)
    requires s.balance == s.totalIncome - s.totalExpense
    ensures SummaryOf(SummaryData(Some(s.totalIncome), Some(s.totalExpense),
                                  if withBalance then Some(s.balance) else None))
      == DashSummary(s.totalIncome, s.totalExpense, s.balance)
  {
  }

  /** One slice of the category pie: `{ name, value, percentage }`. */
  datatype Share = Share(name: string, value: int, percentage: int)

  /** The mapping of one by-category row, given the total it is a share of. */
  function ShareOf(total: int): CategoryTotal -> Share {
    (c: CategoryTotal) => Share(StrOr(c.category, "Other"), CatAmount(c), SharePct(CatAmount(c), total))
  }

  /** `raw.map(...)` before the sort. */
  function MapShares(raw: seq<CategoryTotal>, total: int): (r: seq<Share>)
    ensures |r| == |raw|
    ensures forall i :: 0 <= i < |raw| ==> r[i] == ShareOf(total)(raw[i])
  {
    seq(|raw|, i requires 0 <= i < |raw| => ShareOf(total)(raw[i]))
  }

  function ShareValue(s: Share): int { s.value }

  function NegShareValue(s: Share): int { -s.value }

  predicate ValueFirst(a: Share, b: Share) { a.value >= b.value }

  /** fetchCategoryStats: each row mapped with the total of all rows, then sorted by
      value, largest first. */
  function CategoryShares(raw: seq<CategoryTotal>): (r: seq<Share>)
    ensures multiset(r) == multiset(MapShares(raw, TopTotal(raw)))
    ensures forall i, j :: 0 <= i < j < |r| ==> r[i].value >= r[j].value
  {
    IntKeyOrderIsTotal(NegShareValue, ValueFirst);
    SortBy(MapShares(raw, TopTotal(raw)), ValueFirst)
  }

  /** Every row has its slice: named after its category, or "Other" when it has
      none, with value `totalAmount || 0` and percentage `round(value / total * 100)`
      (0 when the total is 0). */
  lemma CategorySharesMembers(raw: seq<CategoryTotal>)
    ensures forall i :: 0 <= i < |raw| ==>
      var s := Share(StrOr(raw[i].category, "Other"), raw[i].totalAmount.GetOr(0),
                     SharePct(raw[i].totalAmount.GetOr(0), TopTotal(raw)));
      s in CategoryShares(raw)
    ensures forall s :: s in CategoryShares(raw) ==> s.name != ""
  {
    var m := MapShares(raw, TopTotal(raw));
    SameElements(CategoryShares(raw), m);
    forall i | 0 <= i < |raw|
      ensures ShareOf(TopTotal(raw))(raw[i]) in CategoryShares(raw)
    {
      assert m[i] in m;
    }
  }

  /** The slices' values add up to the total their percentages are taken of. */
  lemma CategorySharesTotal(raw: seq<CategoryTotal>)
    ensures SumOf(CategoryShares(raw), ShareValue) == TopTotal(raw)
  {
    var m := MapShares(raw, TopTotal(raw));
    SumOfPermutation(CategoryShares(raw), m, ShareValue);
    SumOfPointwise(m, ShareValue, raw, CatAmount);
  }

  /** With no negative amounts every slice's percentage lies between 0 and 100. */
  lemma CategorySharesBounded(raw: seq<CategoryTotal>)
    requires forall k :: 0 <= k < |raw| ==> CatAmount(raw[k]) >= 0
    ensures forall s :: s in CategoryShares(raw) ==> 0 <= s.percentage <= 100
  {
    var m := MapShares(raw, TopTotal(raw));
    SameElements(CategoryShares(raw), m);
    forall s | s in CategoryShares(raw)
      ensures 0 <= s.percentage <= 100
    {
      var i :| 0 <= i < |m| && m[i] == s;
      ShareBounded(raw, i);
    }
  }

  /** One slice of the financial overview. */
  datatype Slice = Slice(name: string, value: int)

  /** FinancialOverviewCard: a negative balance is drawn as an empty slice. */
  function OverviewSlices(balance: int, totalIncome: int, totalExpense: int): (r: seq<Slice>)
    ensures |r| == 3
    ensures r[0].name == "Balance" && r[1].name == "Income" && r[2].name == "Expenses"
    ensures r[0].value >= 0 && r[0].value >= balance && (balance >= 0 ==> r[0].value == balance)
    ensures balance < 0 ==> r[0].value == 0
    ensures r[1].value == totalIncome && r[2].value == totalExpense
  {
    [Slice("Balance", Max(balance, 0)), Slice("Income", totalIncome), Slice("Expenses", totalExpense)]
  }

  /** The top-categories card and the recent-expenses list show the first five
      entries (`slice(0, 5)`). */
  function FirstFive<T>(s: seq<T>): (r: seq<T>)
    ensures |r| <= 5 && r <= s
    ensures |s| <= 5 ==> r == s
    ensures |s| > 5 ==> |r| == 5
  {
    Take(s, 5)
  }

  /** How a budget bar is drawn: over (with by how much), close to the limit, or
      safe. The Budgets page draws its rows the same way. */
  datatype Health = Over(excess: int) | Close | Safe

  /** BudgetProgressCard: 100% and above is over by spent − budget, 70% and above
      close, and anything less safe. */
  function BarHealth(pct: int, spent: int, budget: int): (h: Health)
    ensures h.Over? <==> pct >= 100
    ensures h.Over? ==> h.excess == spent - budget
    ensures h.Close? <==> 70 <= pct < 100
    ensures h.Safe? <==> pct < 70
  {
    if pct >= 100 then Over(spent - budget) else if pct >= 70 then Close else Safe
  }

  /** The bar's width in percent: `Math.min(pct, 120)`. */
  function BarWidth(pct: int): (w: int)
    ensures w <= 120 && w <= pct
    ensures w == pct || w == 120
  {
    Min(pct, 120)
  }

  /** The bar drawn for one row of the progress summary. */
  function RowHealth(p: ProgressRow): Health {
    BarHealth(p.percentage, p.spent, p.budget)
  }

  /** The bars agree with the alerts on the same budget: a budget the alert engine
      calls exceeded is drawn over, and one it warns about is drawn over or close;
      a budget it says nothing about is never drawn over. */
  lemma BarsAgreeWithAlerts(b: Budget, spent: int, month: int, year: int)
    requires b.amount > 0
    ensures var a := BudgetAlertFor(b, spent, month, year);
      var h := RowHealth(ProgressRowFor(b, spent));
      && (a.Some? && a.value.level == Danger ==> h.Over? && h.excess >= 0)
      && (a.Some? && a.value.level == Warning ==> h.Over? || h.Close?)
      && (a.None? ==> !h.Over?)
  {
    var a := BudgetAlertFor(b, spent, month, year);
    var p := ProgressRowFor(b, spent).percentage;
    ProgressAgreesWithAlerts(b, spent, month, year);
    if a.None? && p >= 100 {
      MulMonotone(2 * b.amount, 100, p);
    }
  }

  /** Rounding shows a budget that is not yet used up as 100% and so as over by a
      negative amount: 996 spent of 1000 is drawn "over by −4", while the alert
      engine only warns at 100%. */
  lemma OverByNegativeAmount()
    ensures var b := Budget(0, 0, "Food", 1000, 1, 2024);
      && RowHealth(ProgressRowFor(b, 996)) == Over(-4)
      && BudgetAlertFor(b, 996, 1, 2024).value.level == Warning
      && BudgetAlertFor(b, 996, 1, 2024).value.message.pct == 100
  {
    var b := Budget(0, 0, "Food", 1000, 1, 2024);
    assert ProgressRowFor(b, 996).percentage == 100 by {
      RoundDivUnique(99600, 1000, ProgressRowFor(b, 996).percentage, 100);
    }
    ProgressAgreesWithAlerts(b, 996, 1, 2024);
  }
}
