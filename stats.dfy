/** backend/controllers/statsController.js: the monthly summary, per-category
    totals, the per-month pivot of a year and the per-category usage pivot.
    The clock's `new Date()` is the parameter `now`; query parameters are
    `Option<int>` after `Number(...)` (None for a missing or non-numeric value). */
module Stats {
  import opened Common
  import opened Calendar
  import opened Records
  import opened Grouping
  import opened Sorting

  /** The user's transactions dated inside the range: `find({ userId, date: { $gte, $lte } })`. */
  function InPeriod(txs: seq<Transaction>, user: UserId, r: Range): seq<Transaction> {
    Filter(txs, (t: Transaction) => t.userId == user && InRange(t.date, r))
  }

  /** On real dates, the month filter selects exactly the user's transactions of
      the calendar month the query names. */
  lemma InMonthPeriod(txs: seq<Transaction>, user: UserId, month: int, year: int)
    requires forall i :: 0 <= i < |txs| ==> ValidTransaction(txs[i])
    ensures forall t :: t in InPeriod(txs, user, MonthRange(month, year)) <==>
      t in txs && t.userId == user && YearMonth(t.date.year, t.date.month) == NormalMonth(month, year)
  {
    forall t | t in txs
      ensures InRange(t.date, MonthRange(month, year)) <==> YearMonth(t.date.year, t.date.month) == NormalMonth(month, year)
    {
      InMonthRange(t.date, month, year);
    }
  }

  /** On real dates, the year filter selects exactly the user's transactions of that year. */
  lemma InYearPeriod(txs: seq<Transaction>, user: UserId, year: int)
    requires forall i :: 0 <= i < |txs| ==> ValidTransaction(txs[i])
    ensures forall t :: t in InPeriod(txs, user, YearRange(year)) <==>
      t in txs && t.userId == user && t.date.year == JsYear(year)
  {
    forall t | t in txs
      ensures InRange(t.date, YearRange(year)) <==> t.date.year == JsYear(year)
    {
      InYearRange(t.date, year);
    }
  }

  // ---------------------------------------------------------------------------
  // GET /api/stats/summary
  // ---------------------------------------------------------------------------

  datatype Summary = Summary(month: int, year: int, totalIncome: int, totalExpense: int, balance: int)

  /** getSummary: income and expense totals of one month, and their difference. */
  method GetSummary(txs: seq<Transaction>, user: UserId, month: Option<int>, year: Option<int>, now: Instant)
    returns (r: Summary)
    ensures r.month == NumOr(month, now.month) && r.year == NumOr(year, now.year)
    ensures r.totalIncome == SumOf(InPeriod(txs, user, MonthRange(r.month, r.year)), IncomeAmount)
    ensures r.totalExpense == SumOf(InPeriod(txs, user, MonthRange(r.month, r.year)), ExpenseAmount)
    ensures r.balance == r.totalIncome - r.totalExpense
  {
    var m := NumOr(month, now.month);
    var y := NumOr(year, now.year);
    var found := InPeriod(txs, user, MonthRange(m, y));
    var totalIncome, totalExpense := 0, 0;
    var i := 0;
    while i < |found|
      invariant 0 <= i <= |found|
      invariant totalIncome == SumOf(found[..i], IncomeAmount)
      invariant totalExpense == SumOf(found[..i], ExpenseAmount)
    {
      var t := found[i];
      SumOfPrefixStep(found, i, IncomeAmount);
      SumOfPrefixStep(found, i, ExpenseAmount);
      if t.txType == Income {
        totalIncome := totalIncome + t.amount;
      }
      if t.txType == Expense {
        totalExpense := totalExpense + t.amount;
      }
      i := i + 1;
    }
    assert found[..|found|] == found;
    r := Summary(m, y, totalIncome, totalExpense, totalIncome - totalExpense);
  }

  // ---------------------------------------------------------------------------
  // GET /api/stats/by-category
  // ---------------------------------------------------------------------------

  /** `$match: { type }`: the stored type's name equals the query string. */
  function OfTypeName(name: string): Transaction -> bool {
    (t: Transaction) => TxTypeName(t.txType) == name
  }

  /** The rows getByCategory groups: the user's transactions of the month with the requested type. */
  function ByCategoryRows(txs: seq<Transaction>, user: UserId, month: int, year: int, typeName: string): seq<Transaction> {
    Filter(InPeriod(txs, user, MonthRange(month, year)), OfTypeName(typeName))
  }

  /** `data` holds `{ category, totalAmount }` documents: Group's key and total. */
  datatype ByCategory = ByCategory(month: int, year: int, txType: string, data: seq<Group<string>>)

  /** getByCategory: per-category sums of one type in one month; the type defaults to "expense". */
  function GetByCategory(txs: seq<Transaction>, user: UserId, month: Option<int>, year: Option<int>,
                         typeParam: Option<string>, now: Instant): (r: ByCategory)
    ensures r.month == NumOr(month, now.month) && r.year == NumOr(year, now.year)
    ensures r.txType == typeParam.GetOr("expense")
    ensures ParseTxType(r.txType).None? ==> r.data == []
  {
    var m := NumOr(month, now.month);
    var y := NumOr(year, now.year);
    var ty := typeParam.GetOr("expense");
    var rows := ByCategoryRows(txs, user, m, y, ty);
    var data := GroupSum(rows, CategoryOf, AmountOf);
    assert ParseTxType(ty).None? ==> data == [] by {
      if ParseTxType(ty).None? {
        FilterNothing(InPeriod(txs, user, MonthRange(m, y)), OfTypeName(ty));
      }
    }
    ByCategory(m, y, ty, data)
  }

  /** What getByCategory's `$match` selects. */
  predicate ByCategoryMatch(t: Transaction, user: UserId, month: int, year: int, typeName: string) {
    t.userId == user && TxTypeName(t.txType) == typeName
    && YearMonth(t.date.year, t.date.month) == NormalMonth(month, year)
  }

  lemma ByCategoryRowsMembers(txs: seq<Transaction>, user: UserId, month: int, year: int, typeName: string)
    requires forall i :: 0 <= i < |txs| ==> ValidTransaction(txs[i])
    ensures forall t :: t in ByCategoryRows(txs, user, month, year, typeName) <==>
      t in txs && ByCategoryMatch(t, user, month, year, typeName)
  {
    InMonthPeriod(txs, user, month, year);
  }

  /** Each category appears once, exactly the categories of the matching
      transactions appear, and each carries the sum of their amounts. */
  lemma {:induction false} ByCategoryGroups(txs: seq<Transaction>, user: UserId, month: Option<int>, year: Option<int>,
                         typeParam: Option<string>, now: Instant)
    requires forall i :: 0 <= i < |txs| ==> ValidTransaction(txs[i])
    ensures var r := GetByCategory(txs, user, month, year, typeParam, now);
      && NoDuplicates(KeysOf(r.data, GroupKey))
      && (forall c :: c in KeysOf(r.data, GroupKey) <==>
            exists t :: t in txs && ByCategoryMatch(t, user, r.month, r.year, r.txType) && t.category == c)
      && (forall i :: 0 <= i < |r.data| ==>
            r.data[i].total == KeySum(ByCategoryRows(txs, user, r.month, r.year, r.txType), CategoryOf, AmountOf, r.data[i].key))
  {
    var r := GetByCategory(txs, user, month, year, typeParam, now);
    var rows := ByCategoryRows(txs, user, r.month, r.year, r.txType);
    assert r.data == GroupSum(rows, CategoryOf, AmountOf);
    GroupSumSpec(rows, CategoryOf, AmountOf);
    ByCategoryKeys(txs, user, r.month, r.year, r.txType);
  }

  /** The categories among the selected rows are those of the matching transactions. */
  lemma {:induction false} ByCategoryKeys(txs: seq<Transaction>, user: UserId, month: int, year: int, typeName: string)
    requires forall i :: 0 <= i < |txs| ==> ValidTransaction(txs[i])
    ensures forall c :: c in KeysOf(ByCategoryRows(txs, user, month, year, typeName), CategoryOf) <==>
      exists t :: t in txs && ByCategoryMatch(t, user, month, year, typeName) && t.category == c
  {
    var rows := ByCategoryRows(txs, user, month, year, typeName);
    ByCategoryRowsMembers(txs, user, month, year, typeName);
    forall c
      ensures c in KeysOf(rows, CategoryOf) <==>
        exists t :: t in txs && ByCategoryMatch(t, user, month, year, typeName) && t.category == c
    {
      KeyOccurs(rows, CategoryOf, c);
      if c in KeysOf(rows, CategoryOf) {
        var x :| x in rows && x.category == c;
        assert x in txs && ByCategoryMatch(x, user, month, year, typeName);
      }
      if exists t :: t in txs && ByCategoryMatch(t, user, month, year, typeName) && t.category == c {
        var t :| t in txs && ByCategoryMatch(t, user, month, year, typeName) && t.category == c;
        assert t in rows;
      }
    }
  }

  /** The per-category expense totals add up to the month's totalExpense in
      getSummary, and the income totals to its totalIncome. */
  lemma ByCategoryAddsUpToSummary(txs: seq<Transaction>, user: UserId, month: Option<int>, year: Option<int>, now: Instant)
    ensures var m, y := NumOr(month, now.month), NumOr(year, now.year);
      && SumOf(GetByCategory(txs, user, month, year, None, now).data, GroupTotal)
         == SumOf(InPeriod(txs, user, MonthRange(m, y)), ExpenseAmount)
      && SumOf(GetByCategory(txs, user, month, year, Some("income"), now).data, GroupTotal)
         == SumOf(InPeriod(txs, user, MonthRange(m, y)), IncomeAmount)
  {
    var m, y := NumOr(month, now.month), NumOr(year, now.year);
    var period := InPeriod(txs, user, MonthRange(m, y));
    GroupSumSpec(ByCategoryRows(txs, user, m, y, "expense"), CategoryOf, AmountOf);
    GroupSumSpec(ByCategoryRows(txs, user, m, y, "income"), CategoryOf, AmountOf);
    SumOfFilter(period, OfTypeName("expense"), AmountOf, ExpenseAmount);
    SumOfFilter(period, OfTypeName("income"), AmountOf, IncomeAmount);
  }

  // ---------------------------------------------------------------------------
  // GET /api/stats/monthly
  // ---------------------------------------------------------------------------

  /** `$month: "$date"`. */
  function MonthOfTx(t: Transaction): int { t.date.month }

  /** `$sort: { month: 1 }`. */
  function MonthRowLe(a: PivotRow<int>, b: PivotRow<int>): bool { a.key <= b.key }

  /** `data` of getMonthly: one `{ month, totalIncome, totalExpense }` row per month
      of the year that has transactions, sorted by month. */
  function MonthlyData(txs: seq<Transaction>, user: UserId, year: int): seq<PivotRow<int>> {
    SortBy(Pivot(InPeriod(txs, user, YearRange(year)), MonthOfTx, IncomeAmount, ExpenseAmount), MonthRowLe)
  }

  datatype MonthlyStats = MonthlyStats(year: int, data: seq<PivotRow<int>>, totalIncome: int, totalExpense: int)

  /** getMonthly: the year's pivot and the year totals summed over its rows. */
  method GetMonthly(txs: seq<Transaction>, user: UserId, year: Option<int>, now: Instant) returns (r: MonthlyStats)
    ensures r.year == NumOr(year, now.year)
    ensures r.data == MonthlyData(txs, user, r.year)
    ensures r.totalIncome == SumOf(r.data, PivotIncome)
    ensures r.totalExpense == SumOf(r.data, PivotExpense)
  {
    var y := NumOr(year, now.year);
    var agg := MonthlyData(txs, user, y);
    var totalIncomeYear, totalExpenseYear := YearTotals(agg);
    r := MonthlyStats(y, agg, totalIncomeYear, totalExpenseYear);
  }

  /** The `forEach` of getMonthly that adds up the income and expense columns. */
  method YearTotals(agg: seq<PivotRow<int>>) returns (totalIncomeYear: int, totalExpenseYear: int)
    ensures totalIncomeYear == SumOf(agg, PivotIncome)
    ensures totalExpenseYear == SumOf(agg, PivotExpense)
  {
    totalIncomeYear, totalExpenseYear := 0, 0;
    var i := 0;
    while i < |agg|
      invariant 0 <= i <= |agg|
      invariant totalIncomeYear == SumOf(agg[..i], PivotIncome)
      invariant totalExpenseYear == SumOf(agg[..i], PivotExpense)
    {
      SumOfPrefixStep(agg, i, PivotIncome);
      SumOfPrefixStep(agg, i, PivotExpense);
      totalIncomeYear := totalIncomeYear + agg[i].totalIncome;
      totalExpenseYear := totalExpenseYear + agg[i].totalExpense;
      i := i + 1;
    }
    assert agg[..|agg|] == agg;
  }

  /** The monthly rows come in strictly increasing month order. */
  lemma {:induction false} MonthlyMonthsIncrease(txs: seq<Transaction>, user: UserId, year: int)
    ensures var data := MonthlyData(txs, user, year);
      forall i, j :: 0 <= i < j < |data| ==> data[i].key < data[j].key
  {
    var rows := InPeriod(txs, user, YearRange(year));
    var ps := Pivot(rows, MonthOfTx, IncomeAmount, ExpenseAmount);
    var data := MonthlyData(txs, user, year);
    PivotSpec(rows, MonthOfTx, IncomeAmount, ExpenseAmount);
    IntKeyOrderIsTotal(PivotKey, MonthRowLe);
    DistinctKeysAfterPermutation(ps, data, PivotKey);
    forall i, j | 0 <= i < j < |data|
      ensures data[i].key < data[j].key
    {
      assert KeysOf(data, PivotKey)[i] != KeysOf(data, PivotKey)[j];
    }
  }

  /** The months listed are exactly the months of the year in which the user has a
      transaction; for real dates they are months 1..12. */
  lemma {:induction false} MonthlyMonthsPresent(txs: seq<Transaction>, user: UserId, year: int)
    requires forall i :: 0 <= i < |txs| ==> ValidTransaction(txs[i])
    ensures var data := MonthlyData(txs, user, year);
      && (forall m :: m in KeysOf(data, PivotKey) <==>
            exists t :: t in txs && t.userId == user && t.date.year == JsYear(year) && t.date.month == m)
      && (forall i :: 0 <= i < |data| ==> 1 <= data[i].key <= 12)
  {
    var rows := InPeriod(txs, user, YearRange(year));
    var ps := Pivot(rows, MonthOfTx, IncomeAmount, ExpenseAmount);
    var data := MonthlyData(txs, user, year);
    PivotSpec(rows, MonthOfTx, IncomeAmount, ExpenseAmount);
    KeysAfterPermutation(ps, data, PivotKey);
    YearMonthKeys(txs, user, year);
    forall m
      ensures m in KeysOf(data, PivotKey) <==>
        exists t :: t in txs && t.userId == user && t.date.year == JsYear(year) && t.date.month == m
      ensures m in KeysOf(data, PivotKey) ==> 1 <= m <= 12
    {
      assert m in KeysOf(data, PivotKey) <==> m in KeysOf(ps, PivotKey);
      assert m in KeysOf(ps, PivotKey) <==> m in KeysOf(rows, MonthOfTx);
    }
    forall i | 0 <= i < |data|
      ensures 1 <= data[i].key <= 12
    {
      var ks := KeysOf(data, PivotKey);
      assert ks[i] == data[i].key;
      assert data[i].key in ks;
    }
  }

  /** The months among the year's rows: those of the user's transactions in that
      year, each between 1 and 12. */
  lemma {:induction false} YearMonthKeys(txs: seq<Transaction>, user: UserId, year: int)
    requires forall i :: 0 <= i < |txs| ==> ValidTransaction(txs[i])
    ensures forall m :: m in KeysOf(InPeriod(txs, user, YearRange(year)), MonthOfTx) <==>
      exists t :: t in txs && t.userId == user && t.date.year == JsYear(year) && t.date.month == m
    ensures forall m :: m in KeysOf(InPeriod(txs, user, YearRange(year)), MonthOfTx) ==> 1 <= m <= 12
  {
    var rows := InPeriod(txs, user, YearRange(year));
    InYearPeriod(txs, user, year);
    forall m
      ensures m in KeysOf(rows, MonthOfTx) <==>
        exists t :: t in txs && t.userId == user && t.date.year == JsYear(year) && t.date.month == m
      ensures m in KeysOf(rows, MonthOfTx) ==> 1 <= m <= 12
    {
      KeyOccurs(rows, MonthOfTx, m);
      if m in KeysOf(rows, MonthOfTx) {
        var x :| x in rows && x.date.month == m;
        assert x in txs && x.userId == user && x.date.year == JsYear(year);
        var k :| 0 <= k < |txs| && txs[k] == x;
        assert ValidTransaction(txs[k]);
      }
      if exists t :: t in txs && t.userId == user && t.date.year == JsYear(year) && t.date.month == m {
        var t :| t in txs && t.userId == user && t.date.year == JsYear(year) && t.date.month == m;
        assert t in rows;
      }
    }
  }

  /** Each monthly row carries the income and expense sums of its month. */
  lemma MonthlyRowTotals(txs: seq<Transaction>, user: UserId, year: int)
    ensures var data := MonthlyData(txs, user, year);
      forall i :: 0 <= i < |data| ==>
        && data[i].totalIncome == KeySum(InPeriod(txs, user, YearRange(year)), MonthOfTx, IncomeAmount, data[i].key)
        && data[i].totalExpense == KeySum(InPeriod(txs, user, YearRange(year)), MonthOfTx, ExpenseAmount, data[i].key)
  {
    var rows := InPeriod(txs, user, YearRange(year));
    var ps := Pivot(rows, MonthOfTx, IncomeAmount, ExpenseAmount);
    var data := MonthlyData(txs, user, year);
    forall i | 0 <= i < |data|
      ensures data[i].totalIncome == KeySum(rows, MonthOfTx, IncomeAmount, data[i].key)
      ensures data[i].totalExpense == KeySum(rows, MonthOfTx, ExpenseAmount, data[i].key)
    {
      assert data[i] in multiset(ps);
      var k :| 0 <= k < |ps| && ps[k] == data[i];
    }
  }

  /** The year totals getMonthly reports are the year's income and expense sums. */
  lemma MonthlyTotalsAreYearTotals(txs: seq<Transaction>, user: UserId, year: int)
    ensures SumOf(MonthlyData(txs, user, year), PivotIncome) == SumOf(InPeriod(txs, user, YearRange(year)), IncomeAmount)
    ensures SumOf(MonthlyData(txs, user, year), PivotExpense) == SumOf(InPeriod(txs, user, YearRange(year)), ExpenseAmount)
  {
    var rows := InPeriod(txs, user, YearRange(year));
    var ps := Pivot(rows, MonthOfTx, IncomeAmount, ExpenseAmount);
    PivotSpec(rows, MonthOfTx, IncomeAmount, ExpenseAmount);
    SumOfPermutation(ps, MonthlyData(txs, user, year), PivotIncome);
    SumOfPermutation(ps, MonthlyData(txs, user, year), PivotExpense);
  }

  // ---------------------------------------------------------------------------
  // GET /api/stats/category-usage
  // ---------------------------------------------------------------------------

  /** The date filter of the scope: the month, the year, or none for any other scope. */
  function UsageRange(scope: string, month: int, year: int): Option<Range> {
    if scope == "month" then Some(MonthRange(month, year))
    else if scope == "year" then Some(YearRange(year))
    else None
  }

  predicate InScope(t: Transaction, user: UserId, range: Option<Range>) {
    t.userId == user && (range.None? || InRange(t.date, range.value))
  }

  function UsageRows(txs: seq<Transaction>, user: UserId, range: Option<Range>): seq<Transaction> {
    Filter(txs, (t: Transaction) => InScope(t, user, range))
  }

  /** `$sort: { category: 1 }`. */
  function CategoryRowLe(a: PivotRow<string>, b: PivotRow<string>): bool { StrLe(a.key, b.key) }

  /** `month` is present only for the month scope. */
  datatype Usage = Usage(scope: string, month: Option<int>, year: int, data: seq<PivotRow<string>>)

  /** getCategoryUsage: income and expense per category over a month, a year or all time. */
  function GetCategoryUsage(txs: seq<Transaction>, user: UserId, scope: Option<string>, month: Option<int>,
                            year: Option<int>, now: Instant): (r: Usage)
    ensures r.scope == scope.GetOr("month")
    ensures r.year == NumOr(year, now.year)
    ensures r.month == if r.scope == "month" then Some(NumOr(month, now.month)) else None
    ensures SortedBy(r.data, CategoryRowLe)
    ensures NoDuplicates(KeysOf(r.data, PivotKey))
  {
    var sc := scope.GetOr("month");
    var y := NumOr(year, now.year);
    var m := NumOr(month, now.month);
    var data := UsageData(UsageRows(txs, user, UsageRange(sc, m, y)));
    Usage(sc, if sc == "month" then Some(m) else None, y, data)
  }

  /** The `$group` and `$sort` stages over the scope's rows, sorted by category with
      no category twice. */
  function UsageData(rows: seq<Transaction>): (r: seq<PivotRow<string>>)
    ensures SortedBy(r, CategoryRowLe)
    ensures NoDuplicates(KeysOf(r, PivotKey))
  {
    var ps := Pivot(rows, CategoryOf, IncomeAmount, ExpenseAmount);
    PivotSpec(rows, CategoryOf, IncomeAmount, ExpenseAmount);
    StrKeyOrderIsTotal(PivotKey, CategoryRowLe);
    DistinctKeysAfterPermutation(ps, SortBy(ps, CategoryRowLe), PivotKey);
    SortBy(ps, CategoryRowLe)
  }

  /** The sorted rows list the categories of the rows, each with that category's
      own income and expense sums, and add up to the rows' sums. */
  lemma UsageDataSpec(rows: seq<Transaction>)
    ensures forall c :: c in KeysOf(UsageData(rows), PivotKey) <==> c in KeysOf(rows, CategoryOf)
    ensures forall p :: p in UsageData(rows) ==>
      p.totalIncome == KeySum(rows, CategoryOf, IncomeAmount, p.key)
      && p.totalExpense == KeySum(rows, CategoryOf, ExpenseAmount, p.key)
    ensures SumOf(UsageData(rows), PivotIncome) == SumOf(rows, IncomeAmount)
    ensures SumOf(UsageData(rows), PivotExpense) == SumOf(rows, ExpenseAmount)
  {
    var ps := Pivot(rows, CategoryOf, IncomeAmount, ExpenseAmount);
    PivotSpec(rows, CategoryOf, IncomeAmount, ExpenseAmount);
    forall p | p in UsageData(rows)
      ensures p in ps
    {
      assert p in multiset(UsageData(rows));
    }
    KeysAfterPermutation(ps, UsageData(rows), PivotKey);
    SumOfPermutation(ps, UsageData(rows), PivotIncome);
    SumOfPermutation(ps, UsageData(rows), PivotExpense);
  }

  /** What the scope's date filter means on a real date: the calendar month for
      "month", the year for "year", no restriction for anything else. */
  lemma UsageScopeMeaning(t: Transaction, user: UserId, scope: string, month: int, year: int)
    requires ValidTransaction(t)
    ensures InScope(t, user, UsageRange(scope, month, year)) <==>
      (t.userId == user
       && (scope == "month" ==> YearMonth(t.date.year, t.date.month) == NormalMonth(month, year))
       && (scope == "year" ==> t.date.year == JsYear(year)))
  {
    InMonthRange(t.date, month, year);
    InYearRange(t.date, year);
  }

  /** Exactly the categories of the user's transactions within the scope appear
      (see UsageScopeMeaning), each row holds its category's income and expense
      sums over the scope, and the columns add up to the scope's sums. */
  lemma CategoryUsageSpec(txs: seq<Transaction>, user: UserId, scope: Option<string>, month: Option<int>,
                          year: Option<int>, now: Instant)
    ensures var r := GetCategoryUsage(txs, user, scope, month, year, now);
      var rows := UsageRows(txs, user, UsageRange(r.scope, NumOr(month, now.month), r.year));
      && (forall c :: c in KeysOf(r.data, PivotKey) <==>
            exists t :: t in txs && InScope(t, user, UsageRange(r.scope, NumOr(month, now.month), r.year)) && t.category == c)
      && (forall i :: 0 <= i < |r.data| ==>
            && r.data[i].totalIncome == KeySum(rows, CategoryOf, IncomeAmount, r.data[i].key)
            && r.data[i].totalExpense == KeySum(rows, CategoryOf, ExpenseAmount, r.data[i].key))
      && SumOf(r.data, PivotIncome) == SumOf(rows, IncomeAmount)
      && SumOf(r.data, PivotExpense) == SumOf(rows, ExpenseAmount)
  {
    var r := GetCategoryUsage(txs, user, scope, month, year, now);
    var range := UsageRange(r.scope, NumOr(month, now.month), r.year);
    var rows := UsageRows(txs, user, range);
    assert r.data == UsageData(rows);
    UsageDataSpec(rows);
    forall i | 0 <= i < |r.data|
      ensures r.data[i] in UsageData(rows)
    {
    }
    forall c
      ensures c in KeysOf(rows, CategoryOf) <==> exists t :: t in txs && InScope(t, user, range) && t.category == c
    {
      KeyOccurs(rows, CategoryOf, c);
    }
  }
}
