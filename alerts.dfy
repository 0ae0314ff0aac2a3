/** backend/controllers/alertsController.js: budget alerts for one month and goal
    alerts. Budgets arrive as the list the budget query returned (whether that
    query's `type: "expense"` condition matches anything is up to the store, so
    the list is an input). Ratios are compared exactly by cross-multiplying:
    spent / amount >= 1 is spent >= amount, and >= 0.8 is 5 * spent >= 4 * amount. */
module Alerts {
  import opened Common
  import opened Calendar
  import opened Records
  import opened Grouping
  import opened Stats
  import opened Spending

  // ---------------------------------------------------------------------------
  // Budget alerts
  // ---------------------------------------------------------------------------

  datatype BudgetLevel = Danger | Warning

  /** The alert text, by its content: exceeded (category, limit, spent) or the
      percentage used of the category's budget. */
  datatype BudgetMessage =
    | Exceeded(category: string, limit: int, spent: int)
    | UsedPercent(pct: int, category: string)

  datatype BudgetAlert = BudgetAlert(
    id: DocId,
    source: string,
    level: BudgetLevel,
    category: string,
    month: int,
    year: int,
    limit: int,
    spent: int,
    remaining: int,
    message: BudgetMessage)

  /** The alert one budget yields, given what was spent in its category. */
  function BudgetAlertFor(b: Budget, spent: int, month: int, year: int): (r: Option<BudgetAlert>)
    ensures b.amount <= 0 ==> r.None?
    ensures b.amount > 0 ==> (r.Some? <==> 5 * spent >= 4 * b.amount)
    ensures r.Some? ==> (r.value.level == Danger <==> spent >= b.amount)
    ensures r.Some? ==>
      && r.value.id == b.id && r.value.source == "budget" && r.value.category == b.category
      && r.value.month == month && r.value.year == year
      && r.value.limit == b.amount && r.value.spent == spent && r.value.remaining == Max(b.amount - spent, 0)
    ensures r.Some? && r.value.level == Danger ==> r.value.message == Exceeded(b.category, b.amount, spent)
    ensures r.Some? && r.value.level == Warning ==>
      && r.value.message.UsedPercent? && r.value.message.category == b.category
      && 80 <= r.value.message.pct <= 100
      && 2 * b.amount * r.value.message.pct <= 200 * spent + b.amount < 2 * b.amount * (r.value.message.pct + 1)
  {
    if b.amount <= 0 then None
    else
      var alert := (level: BudgetLevel, message: BudgetMessage) =>
        BudgetAlert(b.id, "budget", level, b.category, month, year, b.amount, spent, Max(b.amount - spent, 0), message);
      if spent >= b.amount then Some(alert(Danger, Exceeded(b.category, b.amount, spent)))
      else if 5 * spent >= 4 * b.amount then
        var pct := RoundDiv(100 * spent, b.amount);
        PercentBetween80And100(spent, b.amount, pct);
        Some(alert(Warning, UsedPercent(pct, b.category)))
      else None
  }

  /** round(spent / amount * 100) for 0.8 <= spent / amount < 1 lies in 80..100. */
  lemma PercentBetween80And100(spent: int, amount: int, pct: int)
    requires amount > 0 && 4 * amount <= 5 * spent && spent < amount
    requires 2 * amount * pct <= 200 * spent + amount < 2 * amount * (pct + 1)
    ensures 80 <= pct <= 100
  {
    if pct < 80 {
      MulMonotone(2 * amount, pct + 1, 80);
    }
    if pct > 100 {
      MulMonotone(2 * amount, 101, pct);
    }
  }

  /** The alert of each budget, with the spend of its category in the month. */
  function BudgetAlertOf(txs: seq<Transaction>, user: UserId, month: int, year: int): Budget -> Option<BudgetAlert> {
    (b: Budget) => BudgetAlertFor(b, Spent(txs, user, month, year, b.category), month, year)
  }

  /** Alerts of the budgets in order, each budget contributing at most one. */
  function BudgetAlertsOf(budgets: seq<Budget>, txs: seq<Transaction>, user: UserId, month: int, year: int): seq<BudgetAlert> {
    Collect(budgets, BudgetAlertOf(txs, user, month, year))
  }

  /** Alerts keep budget order: the alerts of a list of budgets followed by more
      budgets are the first list's alerts followed by the others'. */
  lemma BudgetAlertsInOrder(a: seq<Budget>, b: seq<Budget>, txs: seq<Transaction>, user: UserId, month: int, year: int)
    ensures BudgetAlertsOf(a + b, txs, user, month, year)
         == BudgetAlertsOf(a, txs, user, month, year) + BudgetAlertsOf(b, txs, user, month, year)
  {
    CollectAppend(a, b, BudgetAlertOf(txs, user, month, year));
  }

  /** Each budget yields at most one alert, and an alert is listed exactly when some budget yields it. */
  lemma BudgetAlertsMembers(budgets: seq<Budget>, txs: seq<Transaction>, user: UserId, month: int, year: int)
    ensures |BudgetAlertsOf(budgets, txs, user, month, year)| <= |budgets|
    ensures forall x :: x in BudgetAlertsOf(budgets, txs, user, month, year) <==>
      exists b :: b in budgets && BudgetAlertFor(b, Spent(txs, user, month, year, b.category), month, year) == Some(x)
  {
    CollectMembers(budgets, BudgetAlertOf(txs, user, month, year));
  }

  // ---------------------------------------------------------------------------
  // Goal alerts
  // ---------------------------------------------------------------------------

  datatype GoalLevel = Success | GoalWarning | Info

  /** The alert text, by its content. The title the source reads is a field goals
      do not have, so it is always None (JavaScript's `undefined`). */
  datatype GoalMessage =
    | Reached(title: Option<string>)
    | DaysLeftAt(daysLeft: int, pct: int, title: Option<string>)
    | CompletedPct(pct: int, title: Option<string>)

  datatype GoalAlert = GoalAlert(
    id: DocId,
    source: string,
    level: GoalLevel,
    title: Option<string>,
    message: GoalMessage,
    targetAmount: int,
    currentAmount: int,
    progress: real,
    daysLeft: Option<int>)

  /** Math.ceil((deadline − now) / 86400000): whole days to the deadline, rounded up;
      at most 0 once the deadline has passed (a JavaScript -0 within the first day,
      sent as 0) and negative once a full day has passed. */
  function DaysLeft(deadline: Instant, now: Instant): (d: int)
    ensures MS_PER_DAY * (d - 1) < EpochMs(deadline) - EpochMs(now) <= MS_PER_DAY * d
    ensures EpochMs(deadline) <= EpochMs(now) ==> d <= 0
    ensures EpochMs(deadline) <= EpochMs(now) - MS_PER_DAY ==> d < 0
    ensures EpochMs(deadline) > EpochMs(now) ==> d > 0
  {
    CeilDiv(EpochMs(deadline) - EpochMs(now), MS_PER_DAY)
  }

  predicate DeadlineClose(g: Goal, now: Instant) {
    g.deadline.Some? && DaysLeft(g.deadline.value, now) <= 7
  }

  /** The alert one goal yields: success, else deadline warning, else info. */
  function GoalAlertFor(g: Goal, now: Instant): (r: Option<GoalAlert>)
    ensures g.targetAmount <= 0 ==> r.None?
    ensures r.Some? && r.value.level == Success <==>
      g.targetAmount > 0 && g.currentAmount >= g.targetAmount && g.status != Completed
    ensures r.Some? && r.value.level == GoalWarning <==>
      g.targetAmount > 0 && g.currentAmount < g.targetAmount && DeadlineClose(g, now)
    ensures r.Some? && r.value.level == Info <==>
      g.targetAmount > 0 && 4 * g.targetAmount <= 5 * g.currentAmount < 5 * g.targetAmount && !DeadlineClose(g, now)
    ensures r.Some? ==>
      && r.value.id == g.id && r.value.source == "goal" && r.value.title.None?
      && r.value.targetAmount == g.targetAmount && r.value.currentAmount == g.currentAmount
      && r.value.progress == g.currentAmount as real / g.targetAmount as real
      && r.value.daysLeft == (if g.deadline.Some? then Some(DaysLeft(g.deadline.value, now)) else None)
    ensures r.Some? && r.value.level == Success ==> r.value.message == Reached(None)
    ensures r.Some? && r.value.level == GoalWarning ==>
      && g.deadline.Some?
      && r.value.message == DaysLeftAt(DaysLeft(g.deadline.value, now), RoundDiv(100 * g.currentAmount, g.targetAmount), None)
    ensures r.Some? && r.value.level == Info ==>
      && r.value.message == CompletedPct(RoundDiv(100 * g.currentAmount, g.targetAmount), None)
      && 80 <= r.value.message.pct <= 100
  {
    var target := g.targetAmount;
    var current := g.currentAmount;
    if target <= 0 then None
    else
      var progress := current as real / target as real;
      var daysLeft := if g.deadline.Some? then Some(DaysLeft(g.deadline.value, now)) else None;
      var pct := RoundDiv(100 * current, target);
      var alert := (level: GoalLevel, message: GoalMessage) =>
        GoalAlert(g.id, "goal", level, None, message, target, current, progress, daysLeft);
      if current >= target && g.status != Completed then Some(alert(Success, Reached(None)))
      else if g.deadline.Some? && daysLeft.value <= 7 && current < target then
        Some(alert(GoalWarning, DaysLeftAt(daysLeft.value, pct, None)))
      else if 5 * current >= 4 * target && current < target then
        PercentBetween80And100(current, target, pct);
        Some(alert(Info, CompletedPct(pct, None)))
      else None
  }

  function GoalAlertOf(now: Instant): Goal -> Option<GoalAlert> {
    (g: Goal) => GoalAlertFor(g, now)
  }

  /** Goal alerts in goal order, at most one per goal. */
  function GoalAlertsOf(goals: seq<Goal>, now: Instant): seq<GoalAlert> {
    Collect(goals, GoalAlertOf(now))
  }

  /** Every goal yields at most one alert, an alert is listed exactly when some goal
      yields it, and alerts keep goal order. */
  lemma GoalAlertsMembers(goals: seq<Goal>, more: seq<Goal>, now: Instant)
    ensures |GoalAlertsOf(goals, now)| <= |goals|
    ensures forall x :: x in GoalAlertsOf(goals, now) <==> exists g :: g in goals && GoalAlertFor(g, now) == Some(x)
    ensures GoalAlertsOf(goals + more, now) == GoalAlertsOf(goals, now) + GoalAlertsOf(more, now)
  {
    CollectMembers(goals, GoalAlertOf(now));
    CollectAppend(goals, more, GoalAlertOf(now));
  }

  /** `Goal.find({ userId, status: { $in: ["active", "completed"] } })`: every goal of the user. */
  function UserGoals(goals: seq<Goal>, user: UserId): seq<Goal> {
    Filter(goals, (g: Goal) => g.userId == user)
  }

  // ---------------------------------------------------------------------------
  // GET /api/alerts
  // ---------------------------------------------------------------------------

  /** One more budget adds its own alert, if any, computed from the given spend. */
  lemma BudgetAlertsStep(budgets: seq<Budget>, j: nat, txs: seq<Transaction>, user: UserId,
                         month: int, year: int, spent: int)
    requires j < |budgets|
    requires spent == Spent(txs, user, month, year, budgets[j].category)
    ensures var alert := BudgetAlertFor(budgets[j], spent, month, year);
      BudgetAlertsOf(budgets[..j + 1], txs, user, month, year)
        == BudgetAlertsOf(budgets[..j], txs, user, month, year) + (if alert.Some? then [alert.value] else [])
  {
    var f := BudgetAlertOf(txs, user, month, year);
    CollectPrefixStep(budgets, j, f);
    assert f(budgets[j]) == BudgetAlertFor(budgets[j], spent, month, year);
  }

  /** The budget loop: each budget's alert, pushed in budget order, with spent read
      from the spend map (0 for a category with no expense). */
  method PushBudgetAlerts(budgets: seq<Budget>, spentMap: map<string, int>, txs: seq<Transaction>,
                          user: UserId, month: int, year: int) returns (budgetAlerts: seq<BudgetAlert>)
    requires forall k :: Lookup(spentMap, k) == Spent(txs, user, month, year, k)
    ensures budgetAlerts == BudgetAlertsOf(budgets, txs, user, month, year)
  {
    budgetAlerts := [];
    var j := 0;
    while j < |budgets|
      invariant 0 <= j <= |budgets|
      invariant budgetAlerts == BudgetAlertsOf(budgets[..j], txs, user, month, year)
    {
      var b := budgets[j];
      var spent := Lookup(spentMap, b.category);
      var alert := BudgetAlertFor(b, spent, month, year);
      BudgetAlertsStep(budgets, j, txs, user, month, year, spent);
      if alert.Some? {
        budgetAlerts := budgetAlerts + [alert.value];
      }
      j := j + 1;
    }
    assert budgets[..|budgets|] == budgets;
  }

  /** The goal loop: each goal's alert, pushed in goal order. */
  method PushGoalAlerts(goals: seq<Goal>, now: Instant) returns (goalAlerts: seq<GoalAlert>)
    ensures goalAlerts == GoalAlertsOf(goals, now)
  {
    goalAlerts := [];
    var n := 0;
    while n < |goals|
      invariant 0 <= n <= |goals|
      invariant goalAlerts == GoalAlertsOf(goals[..n], now)
    {
      CollectPrefixStep(goals, n, GoalAlertOf(now));
      var alert := GoalAlertFor(goals[n], now);
      if alert.Some? {
        goalAlerts := goalAlerts + [alert.value];
      }
      n := n + 1;
    }
    assert goals[..|goals|] == goals;
  }

  datatype AlertsResponse = AlertsResponse(month: int, year: int, budgets: seq<BudgetAlert>, goals: seq<GoalAlert>)

  /** getAlerts: fills the spend map from the month's expense groups, then walks the
      budgets and the user's goals, pushing each one's alert. Goal alerts do not
      depend on the month asked for. The handler reads the clock twice: `now`
      gives the default month and year, `today` (read later) the days left. */
  method GetAlerts(txs: seq<Transaction>, budgets: seq<Budget>, goals: seq<Goal>, user: UserId,
                   month: Option<int>, year: Option<int>, now: Instant, today: Instant) returns (r: AlertsResponse)
    ensures r.month == NumOr(month, now.month) && r.year == NumOr(year, now.year)
    ensures r.budgets == BudgetAlertsOf(budgets, txs, user, r.month, r.year)
    ensures r.goals == GoalAlertsOf(UserGoals(goals, user), today)
  {
    var m := NumOr(month, now.month);
    var y := NumOr(year, now.year);
    var spentMap := SpendMap(txs, user, m, y);
    var budgetAlerts := PushBudgetAlerts(budgets, spentMap, txs, user, m, y);
    var goalAlerts := PushGoalAlerts(UserGoals(goals, user), today);
    r := AlertsResponse(m, y, budgetAlerts, goalAlerts);
  }
}
