/** frontend/src/pages/Goals.jsx: each goal's percentage, the summary totals, the
    create and contribute guards, and the local delete. */
module GoalsPage {
  import opened Common
  import opened Calendar
  import opened Records
  import opened Goals

  /** `target > 0 ? Math.min(100, Math.round((current / target) * 100)) : 0`. */
  function GoalPercent(g: Goal): (p: int)
    ensures g.targetAmount <= 0 ==> p == 0
    ensures p <= 100
    ensures g.targetAmount > 0 && p < 100 ==>
      2 * g.targetAmount * p <= 200 * g.currentAmount + g.targetAmount < 2 * g.targetAmount * (p + 1)
    ensures g.currentAmount >= 0 ==> p >= 0
    ensures g.targetAmount > 0 && g.currentAmount >= g.targetAmount ==> p == 100
  {
    if g.targetAmount > 0 then
      var r := RoundDiv(100 * g.currentAmount, g.targetAmount);
      RoundedPercentBounds(g.currentAmount, g.targetAmount, r);
      Min(100, r)
    else 0
  }

  /** Math.round(current / target * 100) is not negative for a non-negative current,
      and at least 100 once the target is reached. */
  lemma RoundedPercentBounds(current: int, target: int, r: int)
    requires target > 0
    requires 2 * target * r <= 200 * current + target < 2 * target * (r + 1)
    ensures current >= 0 ==> r >= 0
    ensures current >= target ==> r >= 100
  {
    if current >= 0 && r < 0 {
      MulMonotone(2 * target, r + 1, 0);
    }
    if current >= target && r < 100 {
      MulMonotone(2 * target, r + 1, 100);
    }
  }

  /** A stored goal at its target is completed and shows 100%; a stored goal shows
      between 0% and 100%. */
  lemma CompletedGoalShowsFull(g: Goal)
    requires GoalOk(g)
    ensures g.currentAmount >= g.targetAmount ==> g.status == Completed && GoalPercent(g) == 100
    ensures 0 <= GoalPercent(g) <= 100
  {
  }

  /** Rounding shows an active goal short of its target as 100%: 996 saved of 1000,
      with "Add progress" still offered. */
  lemma ActiveGoalShownFull()
    ensures var g := Goal(0, 0, "Trip", 1000, 996, None, "", Active, 0);
      GoalOk(g) && GoalPercent(g) == 100 && OffersAddProgress(g)
  {
    var g := Goal(0, 0, "Trip", 1000, 996, None, "", Active, 0);
    var r := RoundDiv(100 * 996, 1000);
    assert 2000 * r <= 200 * 996 + 1000 < 2000 * (r + 1);
    assert r == 100;
  }

  function TargetOf(g: Goal): int { g.targetAmount }

  function CurrentOf(g: Goal): int { g.currentAmount }

  predicate IsCompleted(g: Goal) { g.status == Completed }

  /** totalTarget and totalCurrent: the sums of the goals' target and saved amounts. */
  function Totals(goals: seq<Goal>): (r: (int, int))
    ensures r.0 == SumOf(goals, TargetOf) && r.1 == SumOf(goals, CurrentOf)
  {
    (SumOf(goals, TargetOf), SumOf(goals, CurrentOf))
  }

  /** On stored goals the totals are non-negative and the target total is positive
      as soon as there is a goal. */
  lemma {:induction false} TotalsOfStoredGoals(goals: seq<Goal>)
    requires forall i :: 0 <= i < |goals| ==> GoalOk(goals[i])
    ensures Totals(goals).1 >= 0
    ensures Totals(goals).0 >= |goals|
  {
    SumOfNonNegative(goals, CurrentOf);
    if goals != [] {
      TotalsOfStoredGoals(goals[..|goals| - 1]);
    }
  }

  /** completedCount: how many goals have status "completed". */
  function CompletedCount(goals: seq<Goal>): (n: nat)
    ensures n <= |goals|
    ensures n == 0 <==> forall i :: 0 <= i < |goals| ==> goals[i].status != Completed
    ensures n == |goals| <==> forall i :: 0 <= i < |goals| ==> goals[i].status == Completed
  {
    var done := Filter(goals, IsCompleted);
    CountAll(goals, done);
    |done|
  }

  /** The filter keeps every goal exactly when all of them pass it. */
  lemma CountAll(goals: seq<Goal>, done: seq<Goal>)
    requires done == Filter(goals, IsCompleted)
    ensures |done| == 0 <==> forall i :: 0 <= i < |goals| ==> goals[i].status != Completed
    ensures |done| == |goals| <==> forall i :: 0 <= i < |goals| ==> goals[i].status == Completed
  {
    if |done| == |goals| {
      FullFilter(goals, IsCompleted);
    }
    if |done| == 0 {
      forall i | 0 <= i < |goals|
        ensures goals[i].status != Completed
      {
        assert goals[i] in goals;
      }
    } else {
      assert done[0] in goals;
    }
  }

  /** A filter that keeps as many elements as it was given kept all of them. */
  lemma {:induction false} FullFilter<T(!new)>(s: seq<T>, p: T -> bool)
    requires |Filter(s, p)| == |s|
    ensures forall i :: 0 <= i < |s| ==> p(s[i])
  {
    if s != [] {
      var init := s[..|s| - 1];
      assert s == init + [s[|s| - 1]];
      FilterSnoc(init, s[|s| - 1], p);
      assert |Filter(init, p)| <= |init|;
      FullFilter(init, p);
    }
  }

  /** The create form as typed. `target` is `Number(targetAmount)` (None for a text
      that is not a number), `targetText` tells whether anything was typed, and an
      empty deadline is None. The deadline is an `<input type="date">`, which holds
      either nothing or a real day. */
  datatype GoalForm = GoalForm(name: string, targetText: string, target: Option<int>,
                               deadline: Option<Instant>, note: string)

  /** handleCreateGoal: nothing is sent without a name or a target text; otherwise
      the name, the numeric target, the deadline only when set, and the note ("" when
      empty). */
  function CreatePayload(f: GoalForm): (r: Option<GoalInput>)
    ensures r.None? <==> f.name == "" || f.targetText == ""
    ensures r.Some? ==> r.value == GoalInput(Some(f.name), f.target, f.deadline, Some(f.note))
  {
    if f.name == "" || f.targetText == "" then None
    else Some(GoalInput(Some(f.name), f.target, f.deadline, Some(f.note)))
  }

  /** The page checks only that a target was typed: "0" goes out and the server
      refuses it. */
  lemma ZeroTargetRefusedByServer(f: GoalForm, id: DocId, user: UserId, createdAt: int)
    requires f.name != "" && f.targetText == "0" && f.target == Some(0)
    ensures CreatePayload(f).Some?
    ensures NewGoal(id, user, CreatePayload(f).value, createdAt).BadRequest?
  {
  }

  /** A sent form with a positive target and a name that is not all blanks creates
      an active goal at 0 with that deadline (the date input holds a real day). */
  lemma SentFormCreatesGoal(f: GoalForm, id: DocId, user: UserId, createdAt: int)
    requires CreatePayload(f).Some?
    requires Trim(f.name) != "" && f.target.Some? && f.target.value > 0
    requires f.deadline.None? || ValidInstant(f.deadline.value)
    ensures var r := NewGoal(id, user, CreatePayload(f).value, createdAt);
      r.Ok? && r.value.targetAmount == f.target.value && r.value.currentAmount == 0 &&
      r.value.status == Active && r.value.deadline == f.deadline && r.value.note == Trim(f.note)
  {
  }

  /** handleContribute: `Number(contribAmount)` is sent only when it is a number
      above 0. */
  function ContributionToSend(amount: Option<int>): (r: Option<int>)
    ensures r.Some? <==> amount.Some? && amount.value > 0
    ensures r.Some? ==> r == amount
  {
    if amount.Some? && amount.value > 0 then amount else None
  }

  /** What the page sends never hits the controller's 400s: a found goal grows by
      exactly the amount. */
  lemma SentContributionApplies(g: Goal, amount: Option<int>)
    requires GoalOk(g) && ContributionToSend(amount).Some?
    ensures ApplyContribution(g, ContributionToSend(amount).value).currentAmount == g.currentAmount + amount.value
  {
  }

  function NotGoal(id: DocId): Goal -> bool {
    (g: Goal) => g.id != id
  }

  /** handleDeleteGoal's `prev.filter((g) => g._id !== id)`. */
  function DeleteLocally(goals: seq<Goal>, id: DocId): (r: seq<Goal>)
    ensures forall g :: g in r <==> g in goals && g.id != id
    ensures |r| <= |goals|
  {
    Filter(goals, NotGoal(id))
  }

  /** "Add progress" is offered for every goal not completed. */
  predicate OffersAddProgress(g: Goal) { g.status != Completed }

  /** On a stored goal the button is shown only below the target. */
  lemma AddProgressBelowTarget(g: Goal)
    requires GoalOk(g) && OffersAddProgress(g)
    ensures g.currentAmount < g.targetAmount && GoalPercent(g) <= 100
  {
  }
}
