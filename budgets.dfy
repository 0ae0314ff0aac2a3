/** backend/controllers/budgetController.js: the Budget collection keyed by
    (user, category, month, year), its upsert and scoped delete, the month
    listing and the per-budget progress summary. */
module Budgets {
  import opened Common
  import opened Calendar
  import opened Records
  import opened Stats
  import opened Spending
  import opened Alerts
  import opened Grouping

  /** The position of the first budget with b's key, if there is one. */
  function KeyIndex(rows: seq<Budget>, b: Budget): (r: Option<nat>)
    ensures r.Some? ==> r.value < |rows| && SameBudgetKey(rows[r.value], b)
    ensures r.Some? ==> forall j :: 0 <= j < r.value ==> !SameBudgetKey(rows[j], b)
    ensures r.None? ==> forall j :: 0 <= j < |rows| ==> !SameBudgetKey(rows[j], b)
  {
    FindFirst(rows, (x: Budget) => SameBudgetKey(x, b))
  }

  /** findOneAndUpdate({ userId, category, month, year }, { amount }, { upsert: true }):
      the budget with b's key gets b's amount, or b is inserted when there is none. */
  function UpsertRows(rows: seq<Budget>, b: Budget): seq<Budget> {
    match KeyIndex(rows, b)
    case Some(i) => rows[i := rows[i].(amount := b.amount)]
    case None => rows + [b]
  }

  /** The rows outside b's key. */
  function OtherKeys(b: Budget): Budget -> bool {
    (x: Budget) => !SameBudgetKey(x, b)
  }

  /** Upsert keeps (user, category, month, year) unique. */
  lemma UpsertKeepsKeysUnique(rows: seq<Budget>, b: Budget)
    requires UniqueBudgetKeys(rows)
    ensures UniqueBudgetKeys(UpsertRows(rows, b))
  {
    var r := UpsertRows(rows, b);
    if KeyIndex(rows, b).Some? {
      var i := KeyIndex(rows, b).value;
      forall p, q | 0 <= p < q < |r|
        ensures !SameBudgetKey(r[p], r[q])
      {
        assert SameBudgetKey(r[p], rows[p]) && SameBudgetKey(r[q], rows[q]);
      }
    }
  }

  /** After an upsert exactly one budget has b's key, and its amount is b's. */
  lemma UpsertStoresAmount(rows: seq<Budget>, b: Budget)
    requires UniqueBudgetKeys(rows)
    ensures var r := UpsertRows(rows, b);
      && (exists i :: 0 <= i < |r| && SameBudgetKey(r[i], b) && r[i].amount == b.amount)
      && (forall i, j :: 0 <= i < |r| && 0 <= j < |r| && SameBudgetKey(r[i], b) && SameBudgetKey(r[j], b) ==> i == j)
  {
    var r := UpsertRows(rows, b);
    UpsertKeepsKeysUnique(rows, b);
    if KeyIndex(rows, b).Some? {
      var i := KeyIndex(rows, b).value;
      assert SameBudgetKey(r[i], b) && r[i].amount == b.amount;
    } else {
      assert SameBudgetKey(r[|rows|], b) && r[|rows|].amount == b.amount;
    }
    forall i, j | 0 <= i < j < |r|
      ensures !(SameBudgetKey(r[i], b) && SameBudgetKey(r[j], b))
    {
      assert !SameBudgetKey(r[i], r[j]);
    }
  }

  /** Every budget with another key is left as it was, in the same order. */
  lemma UpsertLeavesOthers(rows: seq<Budget>, b: Budget)
    ensures Filter(UpsertRows(rows, b), OtherKeys(b)) == Filter(rows, OtherKeys(b))
  {
    match KeyIndex(rows, b)
    case Some(i) =>
      FilterIgnoresUpdate(rows, i, rows[i].(amount := b.amount), OtherKeys(b));
    case None =>
      FilterSnoc(rows, b, OtherKeys(b));
      assert Filter(rows, OtherKeys(b)) + [] == Filter(rows, OtherKeys(b));
  }

  /** deleteOne({ _id: id, userId }). */
  function DeleteRows(rows: seq<Budget>, user: UserId, id: DocId): seq<Budget> {
    Filter(rows, (b: Budget) => !(b.id == id && b.userId == user))
  }

  /** Delete removes the user's budget with that id and nothing else; with no such
      budget the table is unchanged; the key stays unique. */
  lemma DeleteRowsSpec(rows: seq<Budget>, user: UserId, id: DocId)
    ensures forall x :: x in DeleteRows(rows, user, id) <==> x in rows && !(x.id == id && x.userId == user)
    ensures (forall i :: 0 <= i < |rows| ==> !(rows[i].id == id && rows[i].userId == user)) ==> DeleteRows(rows, user, id) == rows
    ensures UniqueBudgetKeys(rows) ==> UniqueBudgetKeys(DeleteRows(rows, user, id))
  {
    var r := DeleteRows(rows, user, id);
    if UniqueBudgetKeys(rows) {
      forall i, j | 0 <= i < j < |r|
        ensures !SameBudgetKey(r[i], r[j])
      {
        FilterKeepsOrder(rows, (b: Budget) => !(b.id == id && b.userId == user), i, j);
      }
    }
  }

  /** One row of the progress summary: `{ category, budget, spent, percentage }`. */
  datatype ProgressRow = ProgressRow(category: string, budget: int, spent: int, percentage: int)

  /** `b.amount > 0 ? Math.round((spent / b.amount) * 100) : 0`. */
  function ProgressRowFor(b: Budget, spent: int): (r: ProgressRow)
    ensures r.category == b.category && r.budget == b.amount && r.spent == spent
    ensures b.amount > 0 ==> 2 * b.amount * r.percentage <= 200 * spent + b.amount < 2 * b.amount * (r.percentage + 1)
    ensures b.amount <= 0 ==> r.percentage == 0
  {
    ProgressRow(b.category, b.amount, spent, if b.amount > 0 then RoundDiv(100 * spent, b.amount) else 0)
  }

  /** The progress summary agrees with the alert engine: an exceeded budget shows at
      least 100%, a warned one the same percentage its alert states. */
  lemma ProgressAgreesWithAlerts(b: Budget, spent: int, month: int, year: int)
    ensures var a := BudgetAlertFor(b, spent, month, year);
      && (a.Some? && a.value.level == Danger ==> ProgressRowFor(b, spent).percentage >= 100)
      && (a.Some? && a.value.level == Warning ==> ProgressRowFor(b, spent).percentage == a.value.message.pct)
  {
    var a := BudgetAlertFor(b, spent, month, year);
    var p := ProgressRowFor(b, spent).percentage;
    if a.Some? && a.value.level == Danger {
      if p < 100 {
        MulMonotone(2 * b.amount, p + 1, 100);
      }
    }
    if a.Some? && a.value.level == Warning {
      RoundDivUnique(100 * spent, b.amount, p, a.value.message.pct);
    }
  }

  /** Math.round(n / d) has one value. */
  lemma RoundDivUnique(n: int, d: int, p: int, q: int)
    requires d > 0
    requires 2 * d * p <= 2 * n + d < 2 * d * (p + 1)
    requires 2 * d * q <= 2 * n + d < 2 * d * (q + 1)
    ensures p == q
  {
    if p < q {
      MulMonotone(2 * d, p + 1, q);
    } else if q < p {
      MulMonotone(2 * d, q + 1, p);
    }
  }

  /** upsertBudget's guard `!category || !amount`: a missing or empty category, or a
      missing or 0 amount (NaN is modelled as missing). */
  predicate UpsertRefused(category: Option<string>, amount: Option<int>) {
    category.None? || category.value == "" || amount.None? || amount.value == 0
  }

  /** getBudgets' query `{ userId, month, year }`. */
  function BudgetOfMonth(user: UserId, month: int, year: int): Budget -> bool {
    (b: Budget) => b.userId == user && b.month == month && b.year == year
  }

  /** With unique keys, one month's budgets of one user name each category once. */
  lemma MonthBudgetsDistinctCategories(rows: seq<Budget>, user: UserId, month: int, year: int)
    requires UniqueBudgetKeys(rows)
    ensures var list := Filter(rows, BudgetOfMonth(user, month, year));
      forall i, j :: 0 <= i < j < |list| ==> list[i].category != list[j].category
  {
    var list := Filter(rows, BudgetOfMonth(user, month, year));
    forall i, j | 0 <= i < j < |list|
      ensures list[i].category != list[j].category
    {
      FilterKeepsOrder(rows, BudgetOfMonth(user, month, year), i, j);
      assert list[i] in list && list[j] in list;
    }
  }

  /** Deleting keeps the remaining ids below the counter and distinct. */
  lemma DeleteKeepsIds(rows: seq<Budget>, user: UserId, id: DocId, n: int)
    requires forall i :: 0 <= i < |rows| ==> rows[i].id < n
    requires forall i, j :: 0 <= i < j < |rows| ==> rows[i].id != rows[j].id
    ensures forall i :: 0 <= i < |DeleteRows(rows, user, id)| ==> DeleteRows(rows, user, id)[i].id < n
    ensures forall i, j :: 0 <= i < j < |DeleteRows(rows, user, id)| ==>
      DeleteRows(rows, user, id)[i].id != DeleteRows(rows, user, id)[j].id
  {
    var r := DeleteRows(rows, user, id);
    forall i | 0 <= i < |r|
      ensures r[i].id < n
    {
      assert r[i] in rows;
    }
    forall i, j | 0 <= i < j < |r|
      ensures r[i].id != r[j].id
    {
      FilterKeepsOrder(rows, (b: Budget) => !(b.id == id && b.userId == user), i, j);
    }
  }

  /** The Budget collection. Ids come from a counter standing for fresh ObjectIds. */
  class BudgetTable {
    var rows: seq<Budget>
    var nextId: int

    ghost predicate Valid()
      reads this
    {
      && UniqueBudgetKeys(rows)
      && (forall i :: 0 <= i < |rows| ==> rows[i].id < nextId)
      && (forall i, j :: 0 <= i < j < |rows| ==> rows[i].id != rows[j].id)
    }

    constructor()
      ensures rows == [] && Valid()
    {
      rows := [];
      nextId := 0;
    }

    /** upsertBudget: a missing or empty category, or a missing or 0 amount, is a 400
        and changes nothing; otherwise the key's budget gets the amount (inserted
        when new) and is returned. */
    method Upsert(user: UserId, category: Option<string>, amount: Option<int>, month: int, year: int)
      returns (res: Response<Budget>)
      requires Valid()
      modifies this
      ensures Valid()
      ensures UpsertRefused(category, amount) ==>
        res.BadRequest? && rows == old(rows) && nextId == old(nextId)
      ensures !UpsertRefused(category, amount) ==>
        var nb := Budget(old(nextId), user, category.value, amount.value, month, year);
        && rows == UpsertRows(old(rows), nb)
        && res.Ok? && res.value in rows && SameBudgetKey(res.value, nb) && res.value.amount == amount.value
    {
      if UpsertRefused(category, amount) {
        return BadRequest("Category and amount required.");
      }
      var nb := Budget(nextId, user, category.value, amount.value, month, year);
      var i := 0;
      while i < |rows| && !SameBudgetKey(rows[i], nb)
        invariant 0 <= i <= |rows|
        invariant forall j :: 0 <= j < i ==> !SameBudgetKey(rows[j], nb)
      {
        i := i + 1;
      }
      UpsertKeepsKeysUnique(rows, nb);
      if i < |rows| {
        assert KeyIndex(rows, nb) == Some(i);
        var updated := rows[i].(amount := amount.value);
        rows := rows[i := updated];
        assert rows[i] == updated;
        res := Ok(updated);
      } else {
        rows := rows + [nb];
        assert rows[|rows| - 1] == nb;
        nextId := nextId + 1;
        res := Ok(nb);
      }
    }

    /** The query `Budget.find({ userId, month, year })` with numeric month and year:
        the user's budgets of that month and year, in table order. */
    function FindBudgets(user: UserId, month: int, year: int): (r: seq<Budget>)
      reads this
      ensures forall b :: b in r <==> b in rows && b.userId == user && b.month == month && b.year == year
    {
      Filter(rows, BudgetOfMonth(user, month, year))
    }

    /** getBudgets: a non-numeric (NaN) month or year fails the query's cast to Number,
        which the handler answers with a 500; otherwise the user's budgets of that
        month and year. */
    function GetBudgets(user: UserId, month: Option<int>, year: Option<int>): (r: Response<seq<Budget>>)
      reads this
      ensures (month.None? || year.None?) <==> r.ServerError?
      ensures r.Ok? || r.ServerError?
      ensures r.Ok? ==>
        forall b :: b in r.value <==> b in rows && b.userId == user && b.month == month.value && b.year == year.value
    {
      if month.None? || year.None? then ServerError("Server error")
      else Ok(FindBudgets(user, month.value, year.value))
    }

    /** deleteBudget: removes the user's budget with that id, and succeeds whether or not one matched. */
    method Delete(user: UserId, id: DocId) returns (res: Response<string>)
      requires Valid()
      modifies this
      ensures Valid()
      ensures rows == DeleteRows(old(rows), user, id) && nextId == old(nextId)
      ensures res == Ok("Budget deleted")
    {
      DeleteRowsSpec(rows, user, id);
      DeleteKeepsIds(rows, user, id, nextId);
      rows := DeleteRows(rows, user, id);
      res := Ok("Budget deleted");
    }

    /** calculateBudgetProgress: a missing, 0 or non-numeric month or year is a 400;
        otherwise one row per budget of the month, in budget order, with what was
        spent in its category (0 when nothing was) and its percentage. The summary
        is never filtered by any threshold. */
    method Progress(txs: seq<Transaction>, user: UserId, month: Option<int>, year: Option<int>)
      returns (res: Response<seq<ProgressRow>>)
      ensures (month.None? || month.value == 0 || year.None? || year.value == 0) <==> res.BadRequest?
      ensures res.Ok? ==>
        var budgets := FindBudgets(user, month.value, year.value);
        && |res.value| == |budgets|
        && forall i :: 0 <= i < |budgets| ==>
             res.value[i] == ProgressRowFor(budgets[i], Spent(txs, user, month.value, year.value, budgets[i].category))
    {
      if month.None? || month.value == 0 || year.None? || year.value == 0 {
        return BadRequest("Month and year are required.");
      }
      var budgets := FindBudgets(user, month.value, year.value);
      if |budgets| == 0 {
        return Ok([]);
      }
      var spentMap := SpendMap(txs, user, month.value, year.value);
      var summary := seq(|budgets|, i requires 0 <= i < |budgets| =>
        ProgressRowFor(budgets[i], Lookup(spentMap, budgets[i].category)));
      res := Ok(summary);
    }
  }
}
