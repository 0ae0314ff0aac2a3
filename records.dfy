/** The stored documents of backend/models: transactions, budgets, goals and
    categories. Ids and user ids are plain integers; a collection is a sequence
    of documents in insertion order. */
module Records {
  import opened Common
  import opened Calendar

  type UserId = int
  type DocId = int

  /** `type: { enum: ["income", "expense"] }`. */
  datatype TxType = Income | Expense

  function TxTypeName(t: TxType): string {
    match t
    case Income => "income"
    case Expense => "expense"
  }

  /** A query string naming a transaction type: `["income", "expense"].includes(s)`. */
  function ParseTxType(s: string): (r: Option<TxType>)
    ensures r.Some? <==> s == "income" || s == "expense"
    ensures r.Some? ==> TxTypeName(r.value) == s
  {
    if s == "income" then Some(Income) else if s == "expense" then Some(Expense) else None
  }

  /** `recurringFrequency: { enum: ["daily", "weekly", "monthly", "yearly", null] }`; null is None. */
  datatype Frequency = Daily | Weekly | Monthly | Yearly

  datatype Transaction = Transaction(
    id: DocId,
    userId: UserId,
    amount: int,
    txType: TxType,
    category: string,
    date: Instant,
    note: string,
    isRecurring: bool,
    recurringFrequency: Option<Frequency>)

  /** `amount: { min: 0 }` and a real calendar date. */
  predicate ValidTransaction(t: Transaction) {
    t.amount >= 0 && ValidInstant(t.date)
  }

  function CategoryOf(t: Transaction): string { t.category }

  function AmountOf(t: Transaction): int { t.amount }

  /** The amount when the transaction is income, else 0 (the `$cond` of the pivots). */
  function IncomeAmount(t: Transaction): int { if t.txType == Income then t.amount else 0 }

  function ExpenseAmount(t: Transaction): int { if t.txType == Expense then t.amount else 0 }

  datatype Budget = Budget(id: DocId, userId: UserId, category: string, amount: int, month: int, year: int)

  /** `index({ userId, category, month, year }, { unique: true })`. */
  predicate SameBudgetKey(a: Budget, b: Budget) {
    a.userId == b.userId && a.category == b.category && a.month == b.month && a.year == b.year
  }

  predicate UniqueBudgetKeys(rows: seq<Budget>) {
    forall i, j :: 0 <= i < j < |rows| ==> !SameBudgetKey(rows[i], rows[j])
  }

  /** `status: { enum: ["active", "completed"] }`. */
  datatype GoalStatus = Active | Completed

  function ParseGoalStatus(s: string): (r: Option<GoalStatus>)
    ensures r == Some(Active) <==> s == "active"
    ensures r == Some(Completed) <==> s == "completed"
    ensures r.None? <==> s != "active" && s != "completed"
  {
    if s == "active" then Some(Active) else if s == "completed" then Some(Completed) else None
  }

  /** createdAt is the timestamp Mongoose adds; here a number that grows with every insert. */
  datatype Goal = Goal(
    id: DocId,
    userId: UserId,
    name: string,
    targetAmount: int,
    currentAmount: int,
    deadline: Option<Instant>,
    note: string,
    status: GoalStatus,
    createdAt: int)

  /** The schema's `min: 0` on both amounts. */
  predicate ValidGoal(g: Goal) {
    g.targetAmount >= 0 && g.currentAmount >= 0
  }

  datatype Category = Category(id: DocId, userId: UserId, name: string, color: string, createdAt: int)
}
