/** The transaction rows the pages receive from the API, and what the Dashboard,
    Income and Expense pages derive from them alike: the per-day chart
    (`buildDailyChartData` / `buildChartData`), the newest-first list, the amount
    total and the local delete. */
module Charts {
  import opened Common
  import opened Calendar
  import opened Grouping
  import opened Sorting

  /** A transaction as JSON: every field may be missing. */
  datatype TxRow = TxRow(
    id: Option<int>,
    amount: Option<int>,
    txType: Option<string>,
    category: Option<string>,
    note: Option<string>,
    date: Option<Instant>)

  function HasDate(t: TxRow): bool { t.date.Some? }

  /** `tx.amount || 0`. */
  function RowAmount(t: TxRow): int { t.amount.GetOr(0) }

  /** The `YYYY-MM-DD` key of a dated row (`toISOString().slice(0, 10)`). */
  function DayOf(t: TxRow): DayKey {
    if t.date.Some? then DayKeyOf(t.date.value) else DayKey(0, 0, 0)
  }

  function Dated(items: seq<TxRow>): seq<TxRow> { Filter(items, HasDate) }

  /** One point of the chart; the `label` is a locale rendering of the key. */
  datatype DayPoint = DayPoint(dateKey: DayKey, amount: int)

  function PointsFor(keys: seq<DayKey>, rows: seq<TxRow>): (r: seq<DayPoint>)
    ensures |r| == |keys|
    ensures forall i :: 0 <= i < |keys| ==> r[i] == DayPoint(keys[i], KeySum(rows, DayOf, RowAmount, keys[i]))
  {
    seq(|keys|, i requires 0 <= i < |keys| => DayPoint(keys[i], KeySum(rows, DayOf, RowAmount, keys[i])))
  }

  /** What the chart is: the distinct days of the dated rows in key order, each with
      the sum of that day's amounts. */
  function DailyChart(items: seq<TxRow>): seq<DayPoint> {
    PointsFor(SortBy(GroupKeys(Dated(items), DayOf), DayKeyLe), Dated(items))
  }

  lemma DayKeyOrderIsTotal()
    ensures TotalPreorder(DayKeyLe)
  {
  }

  function PointKey(p: DayPoint): DayKey { p.dateKey }

  /** The chart's keys are the distinct days sorted. */
  lemma ChartKeys(items: seq<TxRow>)
    ensures KeysOf(DailyChart(items), PointKey) == SortBy(GroupKeys(Dated(items), DayOf), DayKeyLe)
  {
  }

  /** The chart's days come in strictly increasing key order. */
  lemma DailyChartIncreases(items: seq<TxRow>)
    ensures var c := DailyChart(items);
      forall i, j :: 0 <= i < j < |c| ==> DayKeyLe(c[i].dateKey, c[j].dateKey) && c[i].dateKey != c[j].dateKey
  {
    var ks := GroupKeys(Dated(items), DayOf);
    var sorted := SortBy(ks, DayKeyLe);
    var c := DailyChart(items);
    DayKeyOrderIsTotal();
    KeysOfId(ks);
    KeysOfId(sorted);
    DistinctKeysAfterPermutation(ks, sorted, Id);
    forall i, j | 0 <= i < j < |c|
      ensures DayKeyLe(c[i].dateKey, c[j].dateKey) && c[i].dateKey != c[j].dateKey
    {
      assert c[i].dateKey == sorted[i] && c[j].dateKey == sorted[j];
    }
  }

  /** The chart has a point for a day exactly when some dated row falls on it;
      undated rows are skipped. */
  lemma DailyChartDays(items: seq<TxRow>)
    ensures forall k :: k in KeysOf(DailyChart(items), PointKey) <==>
      (exists t :: t in items && t.date.Some? && DayKeyOf(t.date.value) == k)
  {
    var rows := Dated(items);
    var ks := GroupKeys(rows, DayOf);
    var sorted := SortBy(ks, DayKeyLe);
    ChartKeys(items);
    SameElements(ks, sorted);
    forall k
      ensures k in sorted <==> (exists t :: t in items && t.date.Some? && DayKeyOf(t.date.value) == k)
    {
      KeyOccurs(rows, DayOf, k);
      if k in sorted {
        var t :| t in rows && DayOf(t) == k;
        assert t in items && t.date.Some?;
      }
      if exists t :: t in items && t.date.Some? && DayKeyOf(t.date.value) == k {
        var t :| t in items && t.date.Some? && DayKeyOf(t.date.value) == k;
        assert t in rows && DayOf(t) == k;
      }
    }
  }

  /** Each point's amount is the sum of the amounts of that day's rows. */
  lemma DailyChartAmounts(items: seq<TxRow>)
    ensures var c := DailyChart(items);
      forall i :: 0 <= i < |c| ==> c[i].amount == SumOf(RowsWithKey(Dated(items), DayOf, c[i].dateKey), RowAmount)
  {
    var c := DailyChart(items);
    forall i | 0 <= i < |c|
      ensures c[i].amount == SumOf(RowsWithKey(Dated(items), DayOf, c[i].dateKey), RowAmount)
    {
      KeySumIsFilteredSum(Dated(items), DayOf, RowAmount, c[i].dateKey);
    }
  }

  /** `buildDailyChartData(items)`: the filled `Map`'s keys sorted and mapped to points. */
  method BuildDailyChart(items: seq<TxRow>) returns (chart: seq<DayPoint>)
    ensures chart == DailyChart(items)
  {
    var m, order := AccumulateKept(items, HasDate, DayOf, RowAmount);
    var sortedKeys := SortBy(order, DayKeyLe);
    chart := seq(|sortedKeys|, j requires 0 <= j < |sortedKeys| => DayPoint(sortedKeys[j], Lookup(m, sortedKeys[j])));
    ghost var spec := DailyChart(items);
    assert sortedKeys == SortBy(GroupKeys(Dated(items), DayOf), DayKeyLe);
    assert |chart| == |spec|;
    forall j | 0 <= j < |chart|
      ensures chart[j] == spec[j]
    {
      assert Lookup(m, sortedKeys[j]) == KeySum(Dated(items), DayOf, RowAmount, sortedKeys[j]);
    }
  }

  /** `new Date(t.date).getTime()`; an undated row counts as time 0. */
  function RowMs(t: TxRow): int { if t.date.Some? then EpochMs(t.date.value) else 0 }

  function NegRowMs(t: TxRow): int { -RowMs(t) }

  predicate RowNewerFirst(a: TxRow, b: TxRow) { RowMs(a) >= RowMs(b) }

  /** `[...list].sort((a, b) => new Date(b.date) - new Date(a.date))`: a newest-first
      reordering of the fetched list. */
  function NewestFirst(list: seq<TxRow>): (r: seq<TxRow>)
    ensures multiset(r) == multiset(list)
    ensures forall i, j :: 0 <= i < j < |r| ==> RowMs(r[i]) >= RowMs(r[j])
  {
    IntKeyOrderIsTotal(NegRowMs, RowNewerFirst);
    SortBy(list, RowNewerFirst)
  }

  /** `list.reduce((sum, tx) => sum + (tx.amount || 0), 0)`. */
  function TotalAmount(list: seq<TxRow>): int { SumOf(list, RowAmount) }

  /** The total of a list does not depend on its order, so the newest-first list
      totals what was fetched. */
  lemma TotalOfNewestFirst(list: seq<TxRow>)
    ensures TotalAmount(NewestFirst(list)) == TotalAmount(list)
  {
    SumOfPermutation(NewestFirst(list), list, RowAmount);
  }

  /** `prev.filter((tx) => tx._id !== id)`. */
  function WithoutId(list: seq<TxRow>, id: int): (r: seq<TxRow>)
    ensures forall t :: t in r <==> t in list && t.id != Some(id)
    ensures |r| <= |list|
  {
    Filter(list, (t: TxRow) => t.id != Some(id))
  }
}
