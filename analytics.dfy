/** frontend/src/pages/Analytics.jsx: the twelve-bar income/expense series built
    from the sparse monthly statistics, whether there is anything to chart, and
    the top expense categories with their shares. */
module Analytics {
  import opened Common
  import opened Calendar
  import opened Records
  import opened Sorting
  import opened Grouping
  import opened Stats

  const MONTH_NAMES: seq<string> := [
    "Jan", "Feb", "Mar", "Apr", "May", "Jun", "Jul", "Aug", "Sep", "Oct", "Nov", "Dec"]

  /** One entry of the monthly statistics as JSON: every field may be missing. */
  datatype MonthEntry = MonthEntry(month: Option<int>, totalIncome: Option<int>, totalExpense: Option<int>)

  /** One bar of the chart. */
  datatype MonthBar = MonthBar(name: string, income: int, expense: int)

  function MonthIs(m: int): MonthEntry -> bool {
    (e: MonthEntry) => e.month == Some(m)
  }

  /** The bar of month idx + 1: `apiData.find((m) => m.month === idx + 1) || {}`, with
      each missing total read as 0. */
  function BarFor(api: seq<MonthEntry>, idx: nat): (r: MonthBar)
    requires idx < 12
    ensures r.name == MONTH_NAMES[idx]
    ensures (forall j :: 0 <= j < |api| ==> api[j].month != Some(idx + 1)) ==> r.income == 0 && r.expense == 0
    ensures forall j ::
      (0 <= j < |api| && api[j].month == Some(idx + 1) &&
       (forall k :: 0 <= k < j ==> api[k].month != Some(idx + 1))) ==>
        r.income == api[j].totalIncome.GetOr(0) && r.expense == api[j].totalExpense.GetOr(0)
  {
    match FindFirst(api, MonthIs(idx + 1))
    case None =>
      NoMonthEntry(api, idx + 1);
      MonthBar(MONTH_NAMES[idx], 0, 0)
    case Some(j) =>
      FirstMonthEntry(api, idx + 1, j);
      MonthBar(MONTH_NAMES[idx], api[j].totalIncome.GetOr(0), api[j].totalExpense.GetOr(0))
  }

  /** FindFirst's None, read as "no entry has month m". */
  lemma NoMonthEntry(api: seq<MonthEntry>, m: int)
    requires FindFirst(api, MonthIs(m)).None?
    ensures forall j :: 0 <= j < |api| ==> api[j].month != Some(m)
  {
    forall j | 0 <= j < |api|
      ensures api[j].month != Some(m)
    {
      assert !MonthIs(m)(api[j]);
    }
  }

  /** FindFirst's Some(j), read as "j is the only first entry with month m". */
  lemma FirstMonthEntry(api: seq<MonthEntry>, m: int, j: nat)
    requires FindFirst(api, MonthIs(m)) == Some(j)
    ensures j < |api|
    ensures forall i ::
      (0 <= i < |api| && api[i].month == Some(m) && (forall k :: 0 <= k < i ==> api[k].month != Some(m))) ==> i == j
  {
    assert MonthIs(m)(api[j]);
    forall k | 0 <= k < j
      ensures api[k].month != Some(m)
    {
      assert !MonthIs(m)(api[k]);
    }
  }

  /** The fixed twelve-month series of fetchMonthly: bar i is month i + 1, labelled
      Jan..Dec, with the totals of the first entry for that month, or 0 and 0 when
      the statistics have no entry for it. */
  function Densify(api: seq<MonthEntry>): (r: seq<MonthBar>)
    ensures |r| == 12
    ensures forall i :: 0 <= i < 12 ==> r[i].name == MONTH_NAMES[i]
    ensures forall i :: 0 <= i < 12 ==>
      (forall j :: 0 <= j < |api| ==> api[j].month != Some(i + 1)) ==> r[i].income == 0 && r[i].expense == 0
    ensures forall i, j ::
      (0 <= i < 12 && 0 <= j < |api| && api[j].month == Some(i + 1) &&
       (forall k :: 0 <= k < j ==> api[k].month != Some(i + 1))) ==>
        r[i].income == api[j].totalIncome.GetOr(0) && r[i].expense == api[j].totalExpense.GetOr(0)
  {
    var r := seq(12, i requires 0 <= i < 12 => BarFor(api, i));
    assert forall i :: 0 <= i < 12 ==> r[i] == BarFor(api, i);
    r
  }

  function BarActive(b: MonthBar): bool { b.income > 0 || b.expense > 0 }

  /** hasMonthlyData: some bar has income or expense above 0. */
  function HasMonthlyData(bars: seq<MonthBar>): (r: bool)
    ensures r <==> exists i :: 0 <= i < |bars| && (bars[i].income > 0 || bars[i].expense > 0)
  {
    FindFirst(bars, BarActive).Some?
  }

  function BarIncome(b: MonthBar): int { b.income }

  function BarExpense(b: MonthBar): int { b.expense }

  /** The monthly statistics as the page receives them. */
  function EntryOf(p: PivotRow<int>): MonthEntry {
    MonthEntry(Some(p.key), Some(p.totalIncome), Some(p.totalExpense))
  }

  function Entries(data: seq<PivotRow<int>>): (r: seq<MonthEntry>)
    ensures |r| == |data|
    ensures forall i :: 0 <= i < |data| ==> r[i] == EntryOf(data[i])
  {
    seq(|data|, i requires 0 <= i < |data| => EntryOf(data[i]))
  }

  /** A row for a month not yet listed sets that month's bar and no other. */
  lemma {:induction false} DensifySnoc(data: seq<PivotRow<int>>, p: PivotRow<int>)
    requires 1 <= p.key <= 12
    requires p.key !in KeysOf(data, PivotKey)
    ensures Densify(Entries(data + [p])) ==
      Densify(Entries(data))[p.key - 1 := MonthBar(MONTH_NAMES[p.key - 1], p.totalIncome, p.totalExpense)]
  {
    var es := Entries(data);
    var e := EntryOf(p);
    assert Entries(data + [p]) == es + [e];
    assert forall j :: 0 <= j < |es| ==> es[j].month != e.month by {
      forall j | 0 <= j < |es|
        ensures es[j].month != e.month
      {
        assert es[j] == EntryOf(data[j]);
        assert KeysOf(data, PivotKey)[j] == data[j].key;
      }
    }
    var lhs := Densify(es + [e]);
    var rhs := Densify(es)[p.key - 1 := MonthBar(MONTH_NAMES[p.key - 1], p.totalIncome, p.totalExpense)];
    assert forall i :: 0 <= i < 12 ==> lhs[i] == rhs[i] by {
      forall i | 0 <= i < 12
        ensures lhs[i] == rhs[i]
      {
        BarForSnoc(es, e, i);
      }
    }
  }

  /** An entry for a month not yet listed changes that month's bar only. */
  lemma BarForSnoc(es: seq<MonthEntry>, e: MonthEntry, i: nat)
    requires i < 12
    requires forall j :: 0 <= j < |es| ==> es[j].month != e.month
    ensures BarFor(es + [e], i) ==
      if e.month == Some(i + 1) then MonthBar(MONTH_NAMES[i], e.totalIncome.GetOr(0), e.totalExpense.GetOr(0))
      else BarFor(es, i)
  {
    FindFirstSnoc(es, e, MonthIs(i + 1));
    if e.month == Some(i + 1) {
      assert FindFirst(es, MonthIs(i + 1)).None?;
    }
  }

  /** Summed over the twelve bars, a sparse series with one row per month gives its
      own totals. */
  lemma {:induction false} DensifyKeepsTotals(data: seq<PivotRow<int>>)
    requires NoDuplicates(KeysOf(data, PivotKey))
    requires forall i :: 0 <= i < |data| ==> 1 <= data[i].key <= 12
    ensures SumOf(Densify(Entries(data)), BarIncome) == SumOf(data, PivotIncome)
    ensures SumOf(Densify(Entries(data)), BarExpense) == SumOf(data, PivotExpense)
  {
    if data == [] {
      SumOfZeros(Densify(Entries(data)), BarIncome);
      SumOfZeros(Densify(Entries(data)), BarExpense);
    } else {
      var init := data[..|data| - 1];
      var p := data[|data| - 1];
      assert data == init + [p];
      LastKeyIsNew(data);
      DensifyKeepsTotals(init);
      DensifyTotalsSnoc(init, p);
      SumOfSnoc(init, p, PivotIncome);
      SumOfSnoc(init, p, PivotExpense);
    }
  }

  /** With distinct keys, the rows before the last have distinct keys and none of
      them is the last row's. */
  lemma {:induction false} LastKeyIsNew(data: seq<PivotRow<int>>)
    requires |data| > 0
    requires NoDuplicates(KeysOf(data, PivotKey))
    ensures NoDuplicates(KeysOf(data[..|data| - 1], PivotKey))
    ensures data[|data| - 1].key !in KeysOf(data[..|data| - 1], PivotKey)
  {
    var n := |data| - 1;
    var ks := KeysOf(data, PivotKey);
    var front := KeysOf(data[..n], PivotKey);
    assert data == data[..n] + [data[n]];
    KeysOfSnoc(data[..n], data[n], PivotKey);
    assert ks == front + [data[n].key];
    forall i, j | 0 <= i < j < n
      ensures front[i] != front[j]
    {
      assert ks[i] != ks[j];
    }
  }

  /** Adding the row of a month not yet listed adds its totals to the bars' sums. */
  lemma {:induction false} DensifyTotalsSnoc(data: seq<PivotRow<int>>, p: PivotRow<int>)
    requires 1 <= p.key <= 12
    requires p.key !in KeysOf(data, PivotKey)
    ensures SumOf(Densify(Entries(data + [p])), BarIncome) == SumOf(Densify(Entries(data)), BarIncome) + p.totalIncome
    ensures SumOf(Densify(Entries(data + [p])), BarExpense) == SumOf(Densify(Entries(data)), BarExpense) + p.totalExpense
  {
    DensifySnoc(data, p);
    var es := Entries(data);
    var before := Densify(es);
    var bar := MonthBar(MONTH_NAMES[p.key - 1], p.totalIncome, p.totalExpense);
    assert before[p.key - 1] == BarFor(es, p.key - 1);
    assert forall j :: 0 <= j < |es| ==> es[j].month != Some(p.key) by {
      forall j | 0 <= j < |es|
        ensures es[j].month != Some(p.key)
      {
        assert es[j] == EntryOf(data[j]);
        assert KeysOf(data, PivotKey)[j] == data[j].key;
      }
    }
    assert before[p.key - 1].income == 0 && before[p.key - 1].expense == 0;
    SumOfUpdate(before, p.key - 1, bar, BarIncome);
    SumOfUpdate(before, p.key - 1, bar, BarExpense);
  }

  /** The twelve bars fetchMonthly draws add up to the year totals getMonthly sends
      alongside them (`yearIncomeTotal`, `yearExpenseTotal`). */
  lemma BarsAddUpToYearTotals(txs: seq<Transaction>, user: UserId, year: int)
    requires forall i :: 0 <= i < |txs| ==> ValidTransaction(txs[i])
    ensures var data := MonthlyData(txs, user, year);
      && SumOf(Densify(Entries(data)), BarIncome) == SumOf(data, PivotIncome)
      && SumOf(Densify(Entries(data)), BarExpense) == SumOf(data, PivotExpense)
  {
    var data := MonthlyData(txs, user, year);
    MonthlyMonthsIncrease(txs, user, year);
    MonthlyMonthsPresent(txs, user, year);
    forall i, j | 0 <= i < j < |data|
      ensures KeysOf(data, PivotKey)[i] != KeysOf(data, PivotKey)[j]
    {
    }
    DensifyKeepsTotals(data);
  }

  /** One row of the by-category statistics as JSON. */
  datatype CategoryTotal = CategoryTotal(category: Option<string>, totalAmount: Option<int>)

  /** `c.totalAmount || 0`. */
  function CatAmount(c: CategoryTotal): int { c.totalAmount.GetOr(0) }

  function NegCatAmount(c: CategoryTotal): int { -CatAmount(c) }

  predicate LargerFirst(a: CategoryTotal, b: CategoryTotal) { CatAmount(a) >= CatAmount(b) }

  /** fetchTopCategories: a copy of the rows sorted by amount, largest first. */
  function TopCategories(arr: seq<CategoryTotal>): (r: seq<CategoryTotal>)
    ensures multiset(r) == multiset(arr)
    ensures forall i, j :: 0 <= i < j < |r| ==> CatAmount(r[i]) >= CatAmount(r[j])
  {
    IntKeyOrderIsTotal(NegCatAmount, LargerFirst);
    SortBy(arr, LargerFirst)
  }

  /** totalTopExpense. */
  function TopTotal(arr: seq<CategoryTotal>): int { SumOf(arr, CatAmount) }

  /** Sorting does not change the total the shares are taken of. */
  lemma TopTotalOfSorted(arr: seq<CategoryTotal>)
    ensures TopTotal(TopCategories(arr)) == TopTotal(arr)
  {
    SumOfPermutation(TopCategories(arr), arr, CatAmount);
  }

  /** `total > 0 ? Math.round((amount / total) * 100) : 0`. */
  function SharePct(amount: int, total: int): (r: int)
    ensures total > 0 ==> 2 * total * r <= 200 * amount + total < 2 * total * (r + 1)
    ensures total <= 0 ==> r == 0
    ensures 0 <= amount <= total ==> 0 <= r <= 100
  {
    if total > 0 then
      PercentOfPart(amount, total, RoundDiv(100 * amount, total));
      RoundDiv(100 * amount, total)
    else 0
  }

  /** A rounded percentage of a part of the whole is at most 100. */
  lemma PercentOfPart(amount: int, total: int, r: int)
    requires total > 0
    requires 2 * total * r <= 200 * amount + total < 2 * total * (r + 1)
    ensures 0 <= amount <= total ==> 0 <= r <= 100
  {
    if 0 <= amount <= total {
      if r > 100 {
        MulMonotone(2 * total, 101, r);
      }
      if r < 0 {
        MulMonotone(2 * total, r + 1, 0);
      }
    }
  }

  /** With no negative amounts, every share lies between 0 and 100. */
  lemma ShareBounded(arr: seq<CategoryTotal>, i: int)
    requires 0 <= i < |arr|
    requires forall k :: 0 <= k < |arr| ==> CatAmount(arr[k]) >= 0
    ensures 0 <= SharePct(CatAmount(arr[i]), TopTotal(arr)) <= 100
  {
    SumOfBoundsElement(arr, i, CatAmount);
  }
}
