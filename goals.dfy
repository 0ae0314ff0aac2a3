/** backend/controllers/goalController.js: the Goal collection with its creation
    defaults, the validated partial update that auto-completes, the contribution
    that recomputes the status, the newest-first listing and the scoped delete. */
module Goals {
  import opened Common
  import opened Calendar
  import opened Records
  import opened Sorting

  /** What every stored goal satisfies once created through this controller: a
      positive target, a non-negative balance, and a goal at or past its target is
      completed. */
  predicate GoalOk(g: Goal) {
    g.targetAmount > 0 && g.currentAmount >= 0 && (g.currentAmount >= g.targetAmount ==> g.status == Completed)
  }

  /** The body of a create request. A deadline that is missing or empty is None; one
      that does not parse is not a ValidInstant. */
  datatype GoalInput = GoalInput(name: Option<string>, targetAmount: Option<int>, deadline: Option<Instant>, note: Option<string>)

  /** `note?.trim() || ""`. */
  function NoteOr(note: Option<string>): (r: string)
    ensures note.None? ==> r == ""
    ensures note.Some? ==> r == Trim(note.value)
  {
    match note
    case None => ""
    case Some(n) => Trim(n)
  }

  /** Whether `new Date(deadline)` casts: no deadline, or a real date. An Invalid Date
      fails Mongoose's Date cast when the goal is saved. */
  predicate DeadlineCasts(d: Option<Instant>) {
    d.None? || ValidInstant(d.value)
  }

  /** createGoal: a missing or empty name or a missing target is a 400, a target
      <= 0 is a 400; a name of blanks fails the schema's `required` and an Invalid
      Date deadline fails its cast, both a 500 from `Goal.create`; otherwise the goal
      starts at 0, active, with trimmed name and note. */
  function NewGoal(id: DocId, user: UserId, input: GoalInput, createdAt: int): (r: Response<Goal>)
    ensures (input.name.None? || input.name.value == "" || input.targetAmount.None?) ==> r.BadRequest?
    ensures input.targetAmount.Some? && input.targetAmount.value <= 0 ==> r.BadRequest?
    ensures r.Ok? || r.BadRequest? || r.ServerError?
    ensures r.Ok? <==>
      && input.name.Some? && Trim(input.name.value) != "" && input.targetAmount.Some? && input.targetAmount.value > 0
      && DeadlineCasts(input.deadline)
    ensures r.Ok? ==>
      && r.value.id == id && r.value.userId == user && r.value.createdAt == createdAt
      && r.value.name == Trim(input.name.value) && r.value.targetAmount == input.targetAmount.value
      && r.value.currentAmount == 0 && r.value.status == Active
      && r.value.deadline == input.deadline && r.value.note == NoteOr(input.note)
    ensures r.Ok? ==> GoalOk(r.value)
  {
    if input.name.None? || input.name.value == "" || input.targetAmount.None? then
      BadRequest("Name and target amount are required.")
    else if input.targetAmount.value <= 0 then
      BadRequest("Target amount must be greater than 0.")
    else if Trim(input.name.value) == "" || !DeadlineCasts(input.deadline) then
      ServerError("Server error")
    else
      Ok(Goal(id, user, Trim(input.name.value), input.targetAmount.value, 0, input.deadline,
              NoteOr(input.note), Active, createdAt))
  }

  /** The body of an update request; None is a field left out. For the deadline,
      Some(None) is a falsy value that clears it. */
  datatype GoalUpdate = GoalUpdate(
    name: Option<string>,
    targetAmount: Option<int>,
    currentAmount: Option<int>,
    deadline: Option<Option<Instant>>,
    note: Option<string>,
    status: Option<string>)

  /** The status an update sets before auto-completion: the requested one when it is
      "active" or "completed", else the old one. */
  function RequestedStatus(was: GoalStatus, status: Option<string>): (r: GoalStatus)
    ensures status.Some? && ParseGoalStatus(status.value).Some? ==> r == ParseGoalStatus(status.value).value
    ensures (status.None? || ParseGoalStatus(status.value).None?) ==> r == was
  {
    if status.Some? && ParseGoalStatus(status.value).Some? then ParseGoalStatus(status.value).value else was
  }

  /** updateGoal on a found goal: a given target <= 0 or a given current < 0 is a
      400 (and nothing is saved); a name that ends up empty fails the schema's
      `required` on save, and a new deadline that is an Invalid Date fails its
      cast, both a 500; otherwise every given field is replaced, the status
      is applied when valid, and a goal at or past its target becomes completed. */
  function ApplyUpdate(g: Goal, u: GoalUpdate): (r: Response<Goal>)
    ensures r.Ok? || r.BadRequest? || r.ServerError?
    ensures r.BadRequest? <==>
      (u.targetAmount.Some? && u.targetAmount.value <= 0) || (u.currentAmount.Some? && u.currentAmount.value < 0)
    ensures r.ServerError? <==>
      && !r.BadRequest?
      && ((if u.name.Some? then Trim(u.name.value) else g.name) == ""
          || (u.deadline.Some? && !DeadlineCasts(u.deadline.value)))
    ensures r.Ok? ==>
      && r.value.id == g.id && r.value.userId == g.userId && r.value.createdAt == g.createdAt
      && r.value.name == (if u.name.Some? then Trim(u.name.value) else g.name)
      && r.value.targetAmount == u.targetAmount.GetOr(g.targetAmount)
      && r.value.currentAmount == u.currentAmount.GetOr(g.currentAmount)
      && r.value.deadline == u.deadline.GetOr(g.deadline)
      && r.value.note == (if u.note.Some? then Trim(u.note.value) else g.note)
    ensures r.Ok? ==>
      r.value.status == (if r.value.currentAmount >= r.value.targetAmount then Completed
                         else RequestedStatus(g.status, u.status))
    ensures r.Ok? && r.value.currentAmount >= r.value.targetAmount ==> r.value.status == Completed
    ensures GoalOk(g) && r.Ok? ==> GoalOk(r.value)
    ensures r.Ok? <==>
      && (u.targetAmount.None? || u.targetAmount.value > 0) && (u.currentAmount.None? || u.currentAmount.value >= 0)
      && (if u.name.Some? then Trim(u.name.value) else g.name) != ""
      && (u.deadline.None? || DeadlineCasts(u.deadline.value))
  {
    var name := if u.name.Some? then Trim(u.name.value) else g.name;
    if u.targetAmount.Some? && u.targetAmount.value <= 0 then
      BadRequest("Target amount must be greater than 0.")
    else if u.currentAmount.Some? && u.currentAmount.value < 0 then
      BadRequest("Current amount cannot be negative.")
    else if name == "" || (u.deadline.Some? && !DeadlineCasts(u.deadline.value)) then
      ServerError("Server error")
    else
      var target := u.targetAmount.GetOr(g.targetAmount);
      var current := u.currentAmount.GetOr(g.currentAmount);
      var status := RequestedStatus(g.status, u.status);
      Ok(g.(name := name,
            targetAmount := target,
            currentAmount := current,
            deadline := u.deadline.GetOr(g.deadline),
            note := if u.note.Some? then Trim(u.note.value) else g.note,
            status := if current >= target then Completed else status))
  }

  /** A deadline that does not parse ("soon", read as the non-date 2024-13-40) is
      refused with a 500 on create and on update, where a real one is stored. */
  lemma InvalidDeadlineRefused(g: Goal, id: DocId, user: UserId)
    requires g.name != ""
    ensures var bad := Instant(2024, 13, 40, 0);
      && NewGoal(id, user, GoalInput(Some("Trip"), Some(100), Some(bad), None), 0).ServerError?
      && ApplyUpdate(g, GoalUpdate(None, None, None, Some(Some(bad)), None, None)).ServerError?
    ensures var good := Instant(2024, 12, 31, 0);
      && NewGoal(id, user, GoalInput(Some("Trip"), Some(100), Some(good), None), 0).Ok?
      && NewGoal(id, user, GoalInput(Some("Trip"), Some(100), Some(good), None), 0).value.deadline == Some(good)
  {
    var name := "Trip";
    assert !IsSpace(name[0]) && !IsSpace(name[|name| - 1]);
    TrimOfUnpadded(name);
  }

  /** contributeToGoal on a found goal, after the amount was checked positive: the
      balance grows (never below 0) and the goal is completed exactly when it reaches
      its target, a completed goal below target going back to active. */
  function ApplyContribution(g: Goal, amount: int): (r: Goal)
    ensures r.currentAmount == Max(g.currentAmount + amount, 0)
    ensures r.status == Completed <==> r.currentAmount >= r.targetAmount
    ensures r == g.(currentAmount := r.currentAmount, status := r.status)
    ensures GoalOk(g) ==> GoalOk(r)
  {
    var newCurrent := if g.currentAmount + amount < 0 then 0 else g.currentAmount + amount;
    var status :=
      if newCurrent >= g.targetAmount then Completed
      else if g.status == Completed then Active
      else g.status;
    g.(currentAmount := newCurrent, status := status)
  }

  /** A positive contribution to a valid goal never lowers its balance and never
      un-completes a goal that was at its target. */
  lemma ContributionIsMonotone(g: Goal, amount: int)
    requires GoalOk(g) && amount > 0
    ensures ApplyContribution(g, amount).currentAmount == g.currentAmount + amount
    ensures g.currentAmount >= g.targetAmount ==> ApplyContribution(g, amount).status == Completed
  {
  }

  /** `{ _id: id, userId }`. */
  function IsGoal(user: UserId, id: DocId): Goal -> bool {
    (g: Goal) => g.id == id && g.userId == user
  }

  /** The position of the user's goal with that id (`findOne({ _id: id, userId })`). */
  function FindGoal(goals: seq<Goal>, user: UserId, id: DocId): (r: Option<nat>)
    ensures r.Some? ==> r.value < |goals| && goals[r.value].id == id && goals[r.value].userId == user
    ensures r.None? ==> forall i :: 0 <= i < |goals| ==> !(goals[i].id == id && goals[i].userId == user)
  {
    FindFirst(goals, IsGoal(user, id))
  }

  /** `find({ userId, status? })`: the status filter applies only for "active" or "completed". */
  function GoalMatches(user: UserId, status: Option<string>): Goal -> bool {
    (g: Goal) => g.userId == user && (status.None? || ParseGoalStatus(status.value).None? || Some(g.status) == ParseGoalStatus(status.value))
  }

  function NegCreatedAt(g: Goal): int { -g.createdAt }

  /** `sort({ createdAt: -1 })`. */
  predicate NewerFirst(a: Goal, b: Goal) { a.createdAt >= b.createdAt }

  /** getGoals: the user's goals (of that status when it is valid), newest first. */
  function ListGoals(goals: seq<Goal>, user: UserId, status: Option<string>): (r: seq<Goal>)
    ensures multiset(r) == multiset(Filter(goals, GoalMatches(user, status)))
    ensures forall g :: g in r <==> (g in goals && g.userId == user &&
      (status.None? || ParseGoalStatus(status.value).None? || Some(g.status) == ParseGoalStatus(status.value)))
    ensures forall i, j :: 0 <= i < j < |r| ==> r[i].createdAt >= r[j].createdAt
  {
    IntKeyOrderIsTotal(NegCreatedAt, NewerFirst);
    var r := SortBy(Filter(goals, GoalMatches(user, status)), NewerFirst);
    SameElements(r, Filter(goals, GoalMatches(user, status)));
    r
  }

  /** `findOneAndDelete({ _id: id, userId })`: the matching goal is removed. */
  function RemoveGoal(goals: seq<Goal>, user: UserId, id: DocId): seq<Goal> {
    match FindGoal(goals, user, id)
    case None => goals
    case Some(i) => RemoveAt(goals, i)
  }

  /** With distinct ids, delete removes exactly the user's goal with that id. */
  lemma RemoveGoalSpec(goals: seq<Goal>, user: UserId, id: DocId)
    requires forall i, j :: 0 <= i < j < |goals| ==> goals[i].id != goals[j].id
    ensures forall g :: g in RemoveGoal(goals, user, id) <==> (g in goals && !(g.id == id && g.userId == user))
    ensures FindGoal(goals, user, id).Some? ==> |RemoveGoal(goals, user, id)| == |goals| - 1
  {
    match FindGoal(goals, user, id)
    case None =>
    case Some(i) =>
      forall j | 0 <= j < |goals| && j != i
        ensures !IsGoal(user, id)(goals[j])
      {
        if j < i {
          assert goals[j].id != goals[i].id;
        } else {
          assert goals[i].id != goals[j].id;
        }
      }
      RemoveOnlyMatch(goals, IsGoal(user, id), i);
  }

  /** The stored goals are well formed, with distinct ids below the counter n. */
  ghost predicate StoredGoals(goals: seq<Goal>, n: int) {
    && (forall i :: 0 <= i < |goals| ==> GoalOk(goals[i]))
    && (forall i :: 0 <= i < |goals| ==> goals[i].id < n)
    && (forall i, j :: 0 <= i < j < |goals| ==> goals[i].id != goals[j].id)
  }

  /** Inserting a well-formed goal under the counter's id keeps the store well formed. */
  lemma StoredGoalsAppend(goals: seq<Goal>, g: Goal, n: int)
    requires StoredGoals(goals, n) && GoalOk(g) && g.id == n
    ensures StoredGoals(goals + [g], n + 1)
  {
    var s := goals + [g];
    forall i, j | 0 <= i < j < |s|
      ensures s[i].id != s[j].id
    {
      if j == |goals| {
        assert s[i].id < n;
      }
    }
  }

  /** The Goal collection; a counter stands for fresh ObjectIds and for the
      `createdAt` timestamps. */
  class GoalStore {
    var goals: seq<Goal>
    var nextId: int

    ghost predicate Valid()
      reads this
    {
      StoredGoals(goals, nextId)
    }

    constructor()
      ensures goals == [] && Valid()
    {
      goals := [];
      nextId := 0;
    }

    /** createGoal: inserts the new goal when the input is accepted. */
    method Create(user: UserId, input: GoalInput) returns (res: Response<Goal>)
      requires Valid()
      modifies this
      ensures Valid()
      ensures res == NewGoal(old(nextId), user, input, old(nextId))
      ensures res.Ok? ==> goals == old(goals) + [res.value]
      ensures !res.Ok? ==> goals == old(goals) && nextId == old(nextId)
    {
      res := NewGoal(nextId, user, input, nextId);
      if res.Ok? {
        StoredGoalsAppend(goals, res.value, nextId);
        goals := goals + [res.value];
        nextId := nextId + 1;
      }
    }

    /** getGoals. */
    function GetGoals(user: UserId, status: Option<string>): (r: seq<Goal>)
      reads this
      ensures multiset(r) == multiset(Filter(goals, GoalMatches(user, status)))
      ensures forall g :: g in r <==> (g in goals && g.userId == user &&
        (status.None? || ParseGoalStatus(status.value).None? || Some(g.status) == ParseGoalStatus(status.value)))
      ensures forall i, j :: 0 <= i < j < |r| ==> r[i].createdAt >= r[j].createdAt
    {
      ListGoals(goals, user, status)
    }

    /** updateGoal: 404 when the user has no goal with that id; a rejected update
        saves nothing; an accepted one replaces that goal only. */
    method Update(user: UserId, id: DocId, u: GoalUpdate) returns (res: Response<Goal>)
      requires Valid()
      modifies this
      ensures Valid()
      ensures nextId == old(nextId)
      ensures FindGoal(old(goals), user, id).None? ==> res.NotFound? && goals == old(goals)
      ensures FindGoal(old(goals), user, id).Some? ==>
        var i := FindGoal(old(goals), user, id).value;
        && res == ApplyUpdate(old(goals)[i], u)
        && goals == (if res.Ok? then old(goals)[i := res.value] else old(goals))
    {
      var found := FindGoal(goals, user, id);
      if found.None? {
        return NotFound("Goal not found.");
      }
      var i := found.value;
      res := ApplyUpdate(goals[i], u);
      if res.Ok? {
        goals := goals[i := res.value];
      }
    }

    /** contributeToGoal: a missing amount or one <= 0 is a 400, checked before the
        lookup; then 404 when the goal is not the user's; else the contribution. */
    method Contribute(user: UserId, id: DocId, amount: Option<int>) returns (res: Response<Goal>)
      requires Valid()
      modifies this
      ensures Valid()
      ensures nextId == old(nextId)
      ensures (amount.None? || amount.value <= 0) ==> res.BadRequest? && goals == old(goals)
      ensures amount.Some? && amount.value > 0 && FindGoal(old(goals), user, id).None? ==>
        res.NotFound? && goals == old(goals)
      ensures amount.Some? && amount.value > 0 && FindGoal(old(goals), user, id).Some? ==>
        var i := FindGoal(old(goals), user, id).value;
        && res == Ok(ApplyContribution(old(goals)[i], amount.value))
        && goals == old(goals)[i := res.value]
    {
      if amount.None? {
        return BadRequest("Contribution amount is required.");
      }
      if amount.value <= 0 {
        return BadRequest("Contribution amount must be greater than 0.");
      }
      var found := FindGoal(goals, user, id);
      if found.None? {
        return NotFound("Goal not found.");
      }
      var i := found.value;
      var g := ApplyContribution(goals[i], amount.value);
      goals := goals[i := g];
      res := Ok(g);
    }

    /** deleteGoal: removes the user's goal with that id, 404 when there is none. */
    method Delete(user: UserId, id: DocId) returns (res: Response<string>)
      requires Valid()
      modifies this
      ensures Valid()
      ensures nextId == old(nextId)
      ensures goals == RemoveGoal(old(goals), user, id)
      ensures res.Ok? <==> FindGoal(old(goals), user, id).Some?
      ensures !res.Ok? ==> res.NotFound?
    {
      var found := FindGoal(goals, user, id);
      if found.None? {
        return NotFound("Goal not found.");
      }
      goals := RemoveAt(goals, found.value);
      res := Ok("Goal deleted successfully.");
    }
  }
}
