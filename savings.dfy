/** The savings page: the user's goals, newest first, each with its progress
    percentage, and the actions that create a goal, deposit into it and
    delete it.  A goal is Active until a deposit brings it to its target;
    then it is Completed and stays so. */
module SavingsPage {

  import opened Records
  import opened SeqUtil
  import opened JsNumbers

  /** A goal row as the page lists it, with `percentage` added. */
  datatype GoalView = GoalView(goal: SavingsGoal, percentage: Number)

  /** `(current_amount / target_amount) * 100`, not capped. */
  function GoalPercent(g: SavingsGoal): Number
  {
    Percent(g.current_amount, g.target_amount)
  }

  /** Sort key for `order("created_at", { ascending: false })`. */
  function NewestCreatedFirst(g: SavingsGoal): int
  {
    -g.created_at
  }

  /** The goals query: the user's goals, most recently created first. */
  function FetchGoals(goals: seq<SavingsGoal>, user: UserId): (r: seq<SavingsGoal>)
    ensures forall g :: g in r <==> g in goals && g.user_id == user
    ensures |r| == |Filter(goals, GoalOwnedBy(user))|
    ensures multiset(r) == multiset(Filter(goals, GoalOwnedBy(user)))
    ensures forall i, j :: 0 <= i < j < |r| ==> r[i].created_at >= r[j].created_at
  {
    var mine := Filter(goals, GoalOwnedBy(user));
    var r := SortBy(mine, NewestCreatedFirst);
    assert |r| == |mine| by { SortByLength(mine, NewestCreatedFirst); }
    assert forall g :: g in r <==> g in mine by { SortByMembers(mine, NewestCreatedFirst); }
    assert forall i, j :: 0 <= i < j < |r| ==> NewestCreatedFirst(r[i]) <= NewestCreatedFirst(r[j]);
    r
  }

  /** `loadGoals`: each fetched goal, in the fetched order and unchanged,
      with its percentage. */
  function LoadGoals(goals: seq<SavingsGoal>, user: UserId): (r: seq<GoalView>)
    ensures |r| == |FetchGoals(goals, user)|
    ensures forall i :: 0 <= i < |r| ==> r[i].goal == FetchGoals(goals, user)[i]
    ensures forall i :: 0 <= i < |r| ==> r[i].percentage == GoalPercent(r[i].goal)
  {
    var fetched := FetchGoals(goals, user);
    seq(|fetched|, i requires 0 <= i < |fetched| => GoalView(fetched[i], GoalPercent(fetched[i])))
  }

  /** The "Add Money" button is disabled on a completed goal. */
  predicate AddMoneyDisabled(g: SavingsGoal)
  {
    g.completed
  }

  /** On a consistent goal, "Add Money" is enabled exactly while the goal is
      below its target or nothing has been saved yet (the fresh goal with
      target 0). */
  lemma AddMoneyEnabled(g: SavingsGoal)
    requires GoalConsistent(g)
    ensures !AddMoneyDisabled(g) <==> g.current_amount < g.target_amount || g.current_amount == 0.0
  {
  }

  /** The deposit "Add" button: `!depositAmount || parseFloat(depositAmount) <= 0`,
      with `None` for an empty field. */
  predicate DepositDisabled(input: Option<real>)
  {
    input.None? || input.value <= 0.0
  }

  /** `goals.find((g) => g.id === goalId)`: the first listed goal with that id. */
  function FindGoal(views: seq<GoalView>, id: Id): (r: Option<GoalView>)
    ensures r.None? <==> forall k :: 0 <= k < |views| ==> views[k].goal.id != id
    ensures r.Some? ==> exists k :: 0 <= k < |views| && views[k] == r.value
                                    && r.value.goal.id == id
                                    && forall j :: 0 <= j < k ==> views[j].goal.id != id
  {
    if views == [] then None
    else if views[0].goal.id == id then Some(views[0])
    else
      var r := FindGoal(views[1..], id);
      assert forall k :: 1 <= k < |views| ==> views[k] == views[1..][k - 1];
      r
  }

  /** `update({ current_amount, completed }).eq("id", id)`. */
  function UpdateGoal(goals: seq<SavingsGoal>, id: Id, current: real, completed: bool): seq<SavingsGoal>
  {
    seq(|goals|, i requires 0 <= i < |goals| =>
      if goals[i].id == id then goals[i].(current_amount := current, completed := completed) else goals[i])
  }

  /** The goals table after `handleDeposit(id)` with a deposit of `amount`. */
  function Deposit(goals: seq<SavingsGoal>, user: UserId, id: Id, amount: real): seq<SavingsGoal>
  {
    match FindGoal(LoadGoals(goals, user), id)
    case None => goals
    case Some(v) =>
      var newAmount := v.goal.current_amount + amount;
      UpdateGoal(goals, id, newAmount, newAmount >= v.goal.target_amount)
  }

  /** The goal `Deposit` reads: the user's goal with that id, if listed. */
  lemma FoundGoal(goals: seq<SavingsGoal>, user: UserId, id: Id)
    ensures var found := FindGoal(LoadGoals(goals, user), id);
            && (found.None? <==> forall g :: g in goals ==> g.id != id || g.user_id != user)
            && (found.Some? ==> found.value.goal in goals && found.value.goal.id == id
                                && found.value.goal.user_id == user)
  {
    var views := LoadGoals(goals, user);
    var fetched := FetchGoals(goals, user);
    if FindGoal(views, id).None? {
      forall g | g in goals && g.user_id == user
        ensures g.id != id
      {
        var k :| 0 <= k < |fetched| && fetched[k] == g;
        assert views[k].goal == g;
      }
    } else {
      assert FindGoal(views, id).value.goal in fetched;
    }
  }

  /** A deposit changes no goal with another id, and on the goal with that
      id it changes only the amount saved and the completed flag. */
  lemma DepositTouchesOnlyThatGoal(goals: seq<SavingsGoal>, user: UserId, id: Id, amount: real)
    ensures var r := Deposit(goals, user, id, amount);
            && |r| == |goals|
            && (forall i :: 0 <= i < |r| && goals[i].id != id ==> r[i] == goals[i])
            && (forall i :: 0 <= i < |r| ==>
                  r[i] == goals[i].(current_amount := r[i].current_amount, completed := r[i].completed))
  {
  }

  /** A deposit into an id the user has no goal under changes nothing. */
  lemma DepositUnknownGoal(goals: seq<SavingsGoal>, user: UserId, id: Id, amount: real)
    requires forall g :: g in goals ==> g.id != id || g.user_id != user
    ensures Deposit(goals, user, id, amount) == goals
  {
    FoundGoal(goals, user, id);
  }

  /** A deposit into one of the user's goals adds the amount to what it had
      saved, with no cap at the target, and marks it completed exactly when
      that reaches the target. */
  lemma DepositCredits(goals: seq<SavingsGoal>, user: UserId, id: Id, amount: real, next: nat, i: nat)
    requires KeysBelow(goals, GoalId, next)
    requires i < |goals| && goals[i].id == id && goals[i].user_id == user
    ensures var r := Deposit(goals, user, id, amount);
            && |r| == |goals|
            && r[i].current_amount == goals[i].current_amount + amount
            && (r[i].completed <==> goals[i].current_amount + amount >= goals[i].target_amount)
  {
    FoundGoal(goals, user, id);
    var g := FindGoal(LoadGoals(goals, user), id).value.goal;
    var k :| 0 <= k < |goals| && goals[k] == g;
    assert GoalId(goals[k]) == GoalId(goals[i]);
  }

  /** Depositing exactly what is missing completes the goal at its target. */
  lemma ExactDepositCompletes(goals: seq<SavingsGoal>, user: UserId, id: Id, next: nat, i: nat)
    requires KeysBelow(goals, GoalId, next)
    requires i < |goals| && goals[i].id == id && goals[i].user_id == user
    ensures var r := Deposit(goals, user, goals[i].id, goals[i].target_amount - goals[i].current_amount);
            r[i].current_amount == goals[i].target_amount && r[i].completed
  {
    DepositCredits(goals, user, id, goals[i].target_amount - goals[i].current_amount, next, i);
  }

  /** With distinct ids and a positive deposit, every goal stays consistent,
      no amount saved goes down, and no completed goal becomes active again. */
  lemma DepositKeepsLedger(goals: seq<SavingsGoal>, user: UserId, id: Id, amount: real, next: nat)
    requires KeysBelow(goals, GoalId, next)
    requires forall g :: g in goals ==> GoalConsistent(g)
    requires amount > 0.0
    ensures var r := Deposit(goals, user, id, amount);
            && KeysBelow(r, GoalId, next)
            && (forall g :: g in r ==> GoalConsistent(g))
            && (forall i :: 0 <= i < |r| ==> r[i].current_amount >= goals[i].current_amount)
            && (forall i :: 0 <= i < |r| ==> goals[i].completed ==> r[i].completed)
  {
    var r := Deposit(goals, user, id, amount);
    DepositTouchesOnlyThatGoal(goals, user, id, amount);
    assert forall i :: 0 <= i < |r| ==> GoalId(r[i]) == GoalId(goals[i]);
    forall i | 0 <= i < |r|
      ensures GoalConsistent(r[i])
      ensures r[i].current_amount >= goals[i].current_amount
      ensures goals[i].completed ==> r[i].completed
    {
      DepositKeepsGoal(goals, user, id, amount, next, i);
    }
  }

  lemma DepositKeepsGoal(goals: seq<SavingsGoal>, user: UserId, id: Id, amount: real, next: nat, i: nat)
    requires KeysBelow(goals, GoalId, next)
    requires i < |goals| && GoalConsistent(goals[i])
    requires amount > 0.0
    ensures var r := Deposit(goals, user, id, amount);
            && |r| == |goals|
            && GoalConsistent(r[i])
            && r[i].current_amount >= goals[i].current_amount
            && (goals[i].completed ==> r[i].completed)
  {
    DepositTouchesOnlyThatGoal(goals, user, id, amount);
    if goals[i].id == id && goals[i].user_id == user {
      DepositCredits(goals, user, id, amount, next, i);
    } else if goals[i].id == id {
      FoundGoal(goals, user, id);
    }
  }

  /** `handleAddGoal`: a new goal of the user with nothing saved yet, and no
      target date when the date field was left empty. */
  method HandleAddGoal(db: Database, user: UserId, title: string, targetAmount: real,
                       targetDate: string, now: int) returns (id: Id)
    requires db.Valid()
    requires targetAmount >= 0.0
    modifies db
    ensures db.Valid()
    ensures id == old(db.nextId)
    ensures db.goals == old(db.goals) + [SavingsGoal(id, user, title, targetAmount, 0.0,
                                                     if targetDate == "" then None else Some(targetDate),
                                                     false, now)]
    ensures db.expenses == old(db.expenses) && db.budgets == old(db.budgets)
  {
    id := db.nextId;
    var goal := SavingsGoal(id, user, title, targetAmount, 0.0,
                            if targetDate == "" then None else Some(targetDate), false, now);
    KeysBelowAppend(db.goals, GoalId, db.nextId, goal);
    db.goals := db.goals + [goal];
    db.nextId := db.nextId + 1;
  }

  /** `handleDeposit`, reached through the "Add" button, which is enabled
      only for a positive amount in the field. */
  method HandleDeposit(db: Database, user: UserId, goalId: Id, input: Option<real>)
    requires db.Valid()
    requires !DepositDisabled(input)
    modifies db
    ensures db.Valid()
    ensures db.goals == Deposit(old(db.goals), user, goalId, input.value)
    ensures forall i :: 0 <= i < |db.goals| ==> db.goals[i].current_amount >= old(db.goals)[i].current_amount
    ensures forall i :: 0 <= i < |db.goals| ==> old(db.goals)[i].completed ==> db.goals[i].completed
    ensures db.expenses == old(db.expenses) && db.budgets == old(db.budgets) && db.nextId == old(db.nextId)
  {
    var amount := input.value;
    DepositKeepsLedger(db.goals, user, goalId, amount, db.nextId);
    DepositTouchesOnlyThatGoal(db.goals, user, goalId, amount);
    db.goals := Deposit(db.goals, user, goalId, amount);
  }

  /** Row filter of a delete by id. */
  function NotGoal(id: Id): SavingsGoal -> bool
  {
    (g: SavingsGoal) => g.id != id
  }

  /** `handleDeleteGoal`: removes the goal rows with that id. */
  method HandleDeleteGoal(db: Database, id: Id)
    requires db.Valid()
    modifies db
    ensures db.Valid()
    ensures db.goals == Filter(old(db.goals), NotGoal(id))
    ensures db.expenses == old(db.expenses) && db.budgets == old(db.budgets) && db.nextId == old(db.nextId)
  {
    FilterKeysBelow(db.goals, GoalId, db.nextId, NotGoal(id));
    db.goals := Filter(db.goals, NotGoal(id));
  }

  /** After a delete no goal has that id, every other goal is still there
      unchanged, and with distinct ids exactly one row went when one matched. */
  lemma DeletedGoalGone(goals: seq<SavingsGoal>, id: Id, next: nat)
    requires KeysBelow(goals, GoalId, next)
    ensures var r := Filter(goals, NotGoal(id));
            && (forall g :: g in r <==> g in goals && g.id != id)
            && |r| == |goals| - (if exists g :: g in goals && g.id == id then 1 else 0)
  {
    DeletedGoalCount(goals, id, next);
  }

  lemma {:induction false} DeletedGoalCount(goals: seq<SavingsGoal>, id: Id, next: nat)
    requires KeysBelow(goals, GoalId, next)
    ensures |Filter(goals, NotGoal(id))| == |goals| - (if exists g :: g in goals && g.id == id then 1 else 0)
  {
    if goals != [] {
      var rest := goals[..|goals| - 1];
      var last := goals[|goals| - 1];
      assert goals == rest + [last];
      assert KeysBelow(rest, GoalId, next);
      DeletedGoalCount(rest, id, next);
      FilterSnoc(rest, last, NotGoal(id));
      if last.id == id {
        assert last in goals;
        forall g | g in rest
          ensures g.id != id
        {
          var k :| 0 <= k < |rest| && rest[k] == g;
          assert GoalId(goals[k]) != GoalId(goals[|goals| - 1]);
        }
      } else {
        assert (exists g :: g in goals && g.id == id) <==> (exists g :: g in rest && g.id == id) by {
          forall g | g in goals && g.id == id
            ensures g in rest
          {
          }
        }
      }
    }
  }

  /** A completed goal with a positive target shows a full bar; a goal below
      its target shows its own percentage. */
  lemma GoalProgressBar(g: SavingsGoal)
    requires GoalConsistent(g)
    ensures g.completed && g.target_amount > 0.0 ==> ProgressBarValue(GoalPercent(g)) == Finite(100.0)
    ensures g.current_amount < g.target_amount ==> ProgressBarValue(GoalPercent(g)) == GoalPercent(g)
  {
    if g.target_amount > 0.0 {
      PercentAbove(g.current_amount, g.target_amount, 100.0);
      PercentAtMost(g.current_amount, g.target_amount, 100.0);
      if g.current_amount == g.target_amount {
        assert g.current_amount / g.target_amount == 1.0;
      }
    }
  }
}
