/** The expense spend per category of one month, shared by the alert engine
    (backend/controllers/alertsController.js:28-55) and budget progress
    (backend/controllers/budgetController.js:77-105): the month's expense
    transactions grouped by category, loaded into a map, and looked up with 0
    for a missing category. */
module Spending {
  import opened Common
  import opened Calendar
  import opened Records
  import opened Grouping
  import opened Stats

  /** What a month's expense spend in a category is: the sum of the user's expense
      amounts in that category dated inside the month. */
  function Spent(txs: seq<Transaction>, user: UserId, month: int, year: int, category: string): int {
    KeySum(ByCategoryRows(txs, user, month, year, "expense"), CategoryOf, AmountOf, category)
  }

  /** Spent is the sum of the amounts of the month's expense transactions in the category. */
  lemma SpentIsCategoryExpense(txs: seq<Transaction>, user: UserId, month: int, year: int, category: string)
    ensures Spent(txs, user, month, year, category)
         == SumOf(RowsWithKey(ByCategoryRows(txs, user, month, year, "expense"), CategoryOf, category), AmountOf)
  {
    KeySumIsFilteredSum(ByCategoryRows(txs, user, month, year, "expense"), CategoryOf, AmountOf, category);
  }

  /** With no expense of the user in that category and month, spent is 0. */
  lemma SpentWithoutExpenses(txs: seq<Transaction>, user: UserId, month: int, year: int, category: string)
    requires forall i :: 0 <= i < |txs| ==> ValidTransaction(txs[i])
    requires forall t :: t in txs && ByCategoryMatch(t, user, month, year, "expense") ==> t.category != category
    ensures Spent(txs, user, month, year, category) == 0
  {
    var rows := ByCategoryRows(txs, user, month, year, "expense");
    ByCategoryRowsMembers(txs, user, month, year, "expense");
    assert forall i :: 0 <= i < |rows| ==> rows[i] in rows;
    KeySumAbsent(rows, CategoryOf, AmountOf, category);
  }

  /** The `spentMap` filled from the month's expense groups: looking a category
      up, with 0 for a missing one, gives what was spent in it. */
  method SpendMap(txs: seq<Transaction>, user: UserId, month: int, year: int) returns (spentMap: map<string, int>)
    ensures forall k :: Lookup(spentMap, k) == Spent(txs, user, month, year, k)
  {
    spentMap := LoadGroups(ByCategoryRows(txs, user, month, year, "expense"));
  }

  /** `spentAgg.forEach((r) => spentMap.set(r._id, r.total))` over the category groups of rows. */
  method LoadGroups(rows: seq<Transaction>) returns (spentMap: map<string, int>)
    ensures forall k :: Lookup(spentMap, k) == KeySum(rows, CategoryOf, AmountOf, k)
  {
    var spentAgg := GroupSum(rows, CategoryOf, AmountOf);
    var ks := GroupKeys(rows, CategoryOf);
    spentMap := map[];
    var i := 0;
    while i < |spentAgg|
      invariant 0 <= i <= |spentAgg|
      invariant forall k :: k in spentMap <==> k in ks[..i]
      invariant forall k :: k in spentMap ==> spentMap[k] == KeySum(rows, CategoryOf, AmountOf, k)
    {
      assert ks[..i + 1] == ks[..i] + [ks[i]];
      spentMap := spentMap[spentAgg[i].key := spentAgg[i].total];
      i := i + 1;
    }
    assert ks[..|spentAgg|] == ks;
    forall k | k !in spentMap
      ensures KeySum(rows, CategoryOf, AmountOf, k) == 0
    {
      KeySumOutsideGroups(rows, CategoryOf, AmountOf, k);
    }
  }
}
