/** The dashboard: this month's spending, the five latest expenses, the sum
    of the monthly budgets, the average progress of the open savings goals,
    and the texts and colour derived from them. */
module DashboardPage {

  import opened Records
  import opened SeqUtil
  import opened JsNumbers
  import BudgetPage
  import SavingsPage

  /** Row filter of the expenses query: the user's expenses from the start
      of the month. */
  function ThisMonthOf(user: UserId, periodStart: int): Expense -> bool
  {
    (e: Expense) => e.user_id == user && e.date >= periodStart
  }

  /** Sort key for `order("date", { ascending: false })`. */
  function LatestFirst(e: Expense): int
  {
    -e.date
  }

  /** The expenses query: this month's expenses of the user, latest first. */
  function FetchMonthExpenses(expenses: seq<Expense>, user: UserId, periodStart: int): (r: seq<Expense>)
    ensures forall e :: e in r <==> e in expenses && e.user_id == user && e.date >= periodStart
    ensures |r| == |Filter(expenses, ThisMonthOf(user, periodStart))|
    ensures multiset(r) == multiset(Filter(expenses, ThisMonthOf(user, periodStart)))
    ensures forall i, j :: 0 <= i < j < |r| ==> r[i].date >= r[j].date
  {
    var mine := Filter(expenses, ThisMonthOf(user, periodStart));
    var r := SortBy(mine, LatestFirst);
    assert |r| == |mine| by { SortByLength(mine, LatestFirst); }
    assert forall e :: e in r <==> e in mine by { SortByMembers(mine, LatestFirst); }
    assert forall i, j :: 0 <= i < j < |r| ==> LatestFirst(r[i]) <= LatestFirst(r[j]);
    r
  }

  /** `total`: the sum of the fetched amounts. */
  function MonthlySpend(expenses: seq<Expense>, user: UserId, periodStart: int): real
  {
    Total(FetchMonthExpenses(expenses, user, periodStart), BudgetPage.Amount)
  }

  /** `expenses.slice(0, 5)`. */
  function RecentExpenses(expenses: seq<Expense>, user: UserId, periodStart: int): seq<Expense>
  {
    var month := FetchMonthExpenses(expenses, user, periodStart);
    if |month| <= 5 then month else month[..5]
  }

  function Limit(b: Budget): real
  {
    b.limit_amount
  }

  /** `totalBudget`: the limits of all the user's monthly budgets, added up. */
  function MonthlyBudget(budgets: seq<Budget>, user: UserId): real
  {
    Total(Filter(budgets, BudgetPage.MonthlyBudgetOf(user)), Limit)
  }

  /** Row filter of the goals query: the user's goals not yet completed. */
  function OpenGoalOf(user: UserId): SavingsGoal -> bool
  {
    (g: SavingsGoal) => g.user_id == user && !g.completed
  }

  /** `goals.reduce((sum, g) => sum + percent, 0)`, with JavaScript addition. */
  function PercentSum(goals: seq<SavingsGoal>): Number
  {
    if goals == [] then Finite(0.0)
    else Plus(PercentSum(goals[..|goals| - 1]), SavingsPage.GoalPercent(goals[|goals| - 1]))
  }

  /** `savingsProgress`: `(sum || 0) / goals.length`, or 0 without open goals. */
  function SavingsProgress(goals: seq<SavingsGoal>, user: UserId): Number
  {
    var open := Filter(goals, OpenGoalOf(user));
    if |open| > 0 then Share(OrZero(PercentSum(open)), |open| as real) else Finite(0.0)
  }

  datatype Summary = Summary(
    totalExpenses: real,
    recentExpenses: seq<Expense>,
    monthlyBudget: real,
    savingsProgress: Number)

  /** `loadDashboardData`. */
  function LoadDashboard(expenses: seq<Expense>, budgets: seq<Budget>, goals: seq<SavingsGoal>,
                         user: UserId, periodStart: int): Summary
  {
    Summary(MonthlySpend(expenses, user, periodStart),
            RecentExpenses(expenses, user, periodStart),
            MonthlyBudget(budgets, user),
            SavingsProgress(goals, user))
  }

  /** The note on the spending card. */
  datatype SpendingNote = PercentOfBudget(percent: real) | NoBudgetSet

  /** The colour of the spending card's icon. */
  datatype Tone = Destructive | Primary

  /** The note on the budget card. */
  datatype BudgetNote = Remaining(amount: real) | OverBudget

  /** "% of budget" only when there is a positive budget to divide by. */
  function SpendingNoteOf(total: real, budget: real): (r: SpendingNote)
    ensures r.PercentOfBudget? <==> budget > 0.0
    ensures r.PercentOfBudget? ==> r.percent * budget == total * 100.0
  {
    if budget > 0.0 then PercentOfBudget(Percent(total, budget).value) else NoBudgetSet
  }

  function SpendingTone(total: real, budget: real): Tone
  {
    if total > budget then Destructive else Primary
  }

  /** "remaining" only while the budget is strictly larger than the spending. */
  function BudgetNoteOf(total: real, budget: real): (r: BudgetNote)
    ensures r.Remaining? <==> budget > total
    ensures r.Remaining? ==> r.amount > 0.0 && total + r.amount == budget
  {
    if budget > total then Remaining(budget - total) else OverBudget
  }

  /** The two cards disagree only when spending equals the budget: the
      spending card is not coloured as over budget, while the budget card
      already reads "Over budget". */
  lemma CardsDisagreeOnlyAtEquality(total: real, budget: real)
    ensures (SpendingTone(total, budget) == Destructive) == BudgetNoteOf(total, budget).OverBudget?
            <==> total != budget
    ensures total == budget ==> SpendingTone(total, budget) == Primary && BudgetNoteOf(total, budget) == OverBudget
  {
  }

  /** The monthly total is the sum of this month's expenses of the user,
      whatever order they were fetched in; it is 0 when there are none. */
  lemma MonthlySpendIsMonthTotal(expenses: seq<Expense>, user: UserId, periodStart: int)
    ensures MonthlySpend(expenses, user, periodStart)
         == Total(Filter(expenses, ThisMonthOf(user, periodStart)), BudgetPage.Amount)
    ensures (forall e :: e in expenses ==> e.user_id != user || e.date < periodStart)
            ==> MonthlySpend(expenses, user, periodStart) == 0.0
  {
    TotalSortBy(Filter(expenses, ThisMonthOf(user, periodStart)), LatestFirst, BudgetPage.Amount);
    if forall e :: e in expenses ==> e.user_id != user || e.date < periodStart {
      FilterNone(expenses, ThisMonthOf(user, periodStart));
    }
  }

  /** What the budget page shows as spent in each category, added up over
      the categories in `cats`. */
  function SpentInCategories(expenses: seq<Expense>, user: UserId, periodStart: int, cats: seq<Category>): real
  {
    if cats == [] then 0.0
    else BudgetPage.Spent(expenses, user, cats[0], periodStart) + SpentInCategories(expenses, user, periodStart, cats[1..])
  }

  /** The part of `e.amount` that the categories in `cats` account for. */
  function CategoryShare(cats: seq<Category>, e: Expense): real
  {
    if cats == [] then 0.0 else (if cats[0] == e.category then e.amount else 0.0) + CategoryShare(cats[1..], e)
  }

  /** Each expense is accounted for once by the eight categories. */
  lemma CategoryShareOfAll(e: Expense)
    ensures CategoryShare(AllCategories, e) == e.amount
  {
    var r := CategoryRank(e.category);
    assert AllCategories[r] == e.category;
    CategoryShareSplit(AllCategories, e, r);
  }

  lemma {:induction false} CategoryShareSplit(cats: seq<Category>, e: Expense, r: nat)
    requires r < |cats| && cats[r] == e.category
    requires forall i :: 0 <= i < |cats| && i != r ==> cats[i] != e.category
    ensures CategoryShare(cats, e) == e.amount
  {
    if r == 0 {
      CategoryShareNone(cats[1..], e);
    } else {
      CategoryShareSplit(cats[1..], e, r - 1);
    }
  }

  lemma {:induction false} CategoryShareNone(cats: seq<Category>, e: Expense)
    requires forall i :: 0 <= i < |cats| ==> cats[i] != e.category
    ensures CategoryShare(cats, e) == 0.0
  {
    if cats != [] {
      CategoryShareNone(cats[1..], e);
    }
  }

  lemma {:induction false} SpentInCategoriesSnoc(expenses: seq<Expense>, e: Expense, user: UserId,
                                                 periodStart: int, cats: seq<Category>)
    ensures SpentInCategories(expenses + [e], user, periodStart, cats)
         == SpentInCategories(expenses, user, periodStart, cats)
            + (if e.user_id == user && e.date >= periodStart then CategoryShare(cats, e) else 0.0)
  {
    if cats != [] {
      BudgetPage.SpentAfterExpense(expenses, e, user, cats[0], periodStart);
      SpentInCategoriesSnoc(expenses, e, user, periodStart, cats[1..]);
    }
  }

  lemma {:induction false} SpentInCategoriesOfNone(user: UserId, periodStart: int, cats: seq<Category>)
    ensures SpentInCategories([], user, periodStart, cats) == 0.0
  {
    if cats != [] {
      SpentInCategoriesOfNone(user, periodStart, cats[1..]);
    }
  }

  /** The dashboard's monthly spending is what the budget page shows as spent,
      summed over the eight categories: every expense falls in exactly one. */
  lemma MonthlySpendByCategory(expenses: seq<Expense>, user: UserId, periodStart: int)
    ensures MonthlySpend(expenses, user, periodStart) == SpentInCategories(expenses, user, periodStart, AllCategories)
  {
    MonthlySpendIsMonthTotal(expenses, user, periodStart);
    MonthTotalByCategory(expenses, user, periodStart);
  }

  lemma {:induction false} MonthTotalByCategory(expenses: seq<Expense>, user: UserId, periodStart: int)
    ensures Total(Filter(expenses, ThisMonthOf(user, periodStart)), BudgetPage.Amount)
         == SpentInCategories(expenses, user, periodStart, AllCategories)
  {
    if expenses == [] {
      SpentInCategoriesOfNone(user, periodStart, AllCategories);
    } else {
      var rest := expenses[..|expenses| - 1];
      var e := expenses[|expenses| - 1];
      assert expenses == rest + [e];
      MonthTotalByCategory(rest, user, periodStart);
      SpentInCategoriesSnoc(rest, e, user, periodStart, AllCategories);
      CategoryShareOfAll(e);
      MonthTotalSnoc(rest, e, user, periodStart);
    }
  }

  lemma MonthTotalSnoc(expenses: seq<Expense>, e: Expense, user: UserId, periodStart: int)
    ensures Total(Filter(expenses + [e], ThisMonthOf(user, periodStart)), BudgetPage.Amount)
         == Total(Filter(expenses, ThisMonthOf(user, periodStart)), BudgetPage.Amount)
            + (if e.user_id == user && e.date >= periodStart then e.amount else 0.0)
  {
    var p := ThisMonthOf(user, periodStart);
    FilterSnoc(expenses, e, p);
    if p(e) {
      TotalSnoc(Filter(expenses, p), e, BudgetPage.Amount);
    } else {
      assert Filter(expenses, p) + [] == Filter(expenses, p);
    }
  }

  /** The recent list is the first five of this month's expenses (all of
      them when there are fewer), so none left out is later than one shown. */
  lemma RecentExpensesAreLatest(expenses: seq<Expense>, user: UserId, periodStart: int)
    ensures var month := FetchMonthExpenses(expenses, user, periodStart);
            var recent := RecentExpenses(expenses, user, periodStart);
            && |recent| == (if |month| < 5 then |month| else 5)
            && recent == month[..|recent|]
            && (forall e :: e in recent ==> e in expenses && e.user_id == user && e.date >= periodStart)
            && (forall i, j :: 0 <= i < |recent| <= j < |month| ==> recent[i].date >= month[j].date)
  {
  }

  /** A user without a monthly budget has a total budget of 0, which the
      spending card shows as "No budget set". */
  lemma MonthlyBudgetOfNone(budgets: seq<Budget>, user: UserId, total: real)
    requires forall b :: b in budgets ==> b.user_id != user || b.period != Monthly
    ensures MonthlyBudget(budgets, user) == 0.0
    ensures SpendingNoteOf(total, MonthlyBudget(budgets, user)) == NoBudgetSet
  {
    FilterNone(budgets, BudgetPage.MonthlyBudgetOf(user));
  }

  /** Adding a budget adds its limit to the total, even when the user
      already has a budget for that category. */
  lemma MonthlyBudgetCountsEveryBudget(budgets: seq<Budget>, b: Budget, user: UserId)
    ensures MonthlyBudget(budgets + [b], user)
         == MonthlyBudget(budgets, user) + (if b.user_id == user && b.period == Monthly then b.limit_amount else 0.0)
  {
    var p := BudgetPage.MonthlyBudgetOf(user);
    FilterSnoc(budgets, b, p);
    if p(b) {
      TotalSnoc(Filter(budgets, p), b, Limit);
    } else {
      assert Filter(budgets, p) + [] == Filter(budgets, p);
    }
  }

  /** A goal's percentage as an exact number, 0 for a zero target. */
  function PercentValue(g: SavingsGoal): real
  {
    if g.target_amount != 0.0 then g.current_amount / g.target_amount * 100.0 else 0.0
  }

  lemma {:induction false} PercentSumFinite(goals: seq<SavingsGoal>)
    requires forall g :: g in goals ==> g.target_amount != 0.0
    ensures PercentSum(goals) == Finite(Total(goals, PercentValue))
  {
    if goals != [] {
      var rest := goals[..|goals| - 1];
      assert forall g :: g in rest ==> g in goals;
      assert goals[|goals| - 1] in goals;
      PercentSumFinite(rest);
    }
  }

  /** One goal whose percentage is NaN makes the whole sum NaN. */
  lemma {:induction false} PercentSumNaN(goals: seq<SavingsGoal>, k: nat)
    requires k < |goals| && SavingsPage.GoalPercent(goals[k]) == NaN
    ensures PercentSum(goals) == NaN
  {
    if k < |goals| - 1 {
      PercentSumNaN(goals[..|goals| - 1], k);
    }
  }

  /** The sum of percentages each in [0, 100) is in [0, 100 n). */
  lemma {:induction false} PercentSumBelow(goals: seq<SavingsGoal>)
    requires forall g :: g in goals ==> 0.0 <= g.current_amount < g.target_amount
    ensures PercentSum(goals).Finite?
    ensures 0.0 <= PercentSum(goals).value
    ensures goals != [] ==> PercentSum(goals).value < 100.0 * |goals| as real
  {
    if goals != [] {
      var rest := goals[..|goals| - 1];
      assert forall g :: g in rest ==> g in goals;
      assert goals[|goals| - 1] in goals;
      PercentSumBelow(rest);
    }
  }

  /** With positive targets, savings progress is the arithmetic mean of the
      open goals' uncapped percentages, and 0 when no goal is open. */
  lemma SavingsProgressIsMean(goals: seq<SavingsGoal>, user: UserId)
    requires forall g :: g in goals && g.user_id == user && !g.completed ==> g.target_amount > 0.0
    ensures var open := Filter(goals, OpenGoalOf(user));
            SavingsProgress(goals, user)
            == Finite(if |open| > 0 then Total(open, PercentValue) / |open| as real else 0.0)
  {
    PercentSumFinite(Filter(goals, OpenGoalOf(user)));
  }

  /** On a ledger kept consistent, savings progress is a finite number in
      [0, 100): an open goal is below its target, except a fresh goal with
      target 0, whose NaN turns the whole sum into 0 through `|| 0`. */
  lemma SavingsProgressInRange(goals: seq<SavingsGoal>, user: UserId)
    requires forall g :: g in goals ==> GoalConsistent(g)
    ensures SavingsProgress(goals, user).Finite?
    ensures 0.0 <= SavingsProgress(goals, user).value < 100.0
  {
    if g :| g in Filter(goals, OpenGoalOf(user)) && g.target_amount == 0.0 {
      ZeroTargetGoalHidesProgress(goals, user, g);
    } else {
      OpenGoalsBelowTarget(goals, user);
      ProgressBelowTargets(goals, user);
    }
  }

  lemma ProgressBelowTargets(goals: seq<SavingsGoal>, user: UserId)
    requires forall g :: g in Filter(goals, OpenGoalOf(user)) ==> 0.0 <= g.current_amount < g.target_amount
    ensures SavingsProgress(goals, user).Finite?
    ensures 0.0 <= SavingsProgress(goals, user).value < 100.0
  {
    var open := Filter(goals, OpenGoalOf(user));
    PercentSumBelow(open);
    if |open| > 0 {
      var s := PercentSum(open).value;
      assert SavingsProgress(goals, user) == Finite(s / |open| as real);
      MeanBelow(s, |open| as real);
    }
  }

  /** On a consistent ledger, an open goal with a positive target is below it. */
  lemma OpenGoalsBelowTarget(goals: seq<SavingsGoal>, user: UserId)
    requires forall g :: g in goals ==> GoalConsistent(g)
    requires forall g :: g in Filter(goals, OpenGoalOf(user)) ==> g.target_amount != 0.0
    ensures forall g :: g in Filter(goals, OpenGoalOf(user)) ==> 0.0 <= g.current_amount < g.target_amount
  {
  }

  lemma MeanBelow(s: real, n: real)
    requires n > 0.0 && s < 100.0 * n
    ensures s / n < 100.0
  {
    var q := s / n;
    assert q * n == s;
    if q >= 100.0 {
      assert false;
    }
  }

  /** A single fresh goal with target 0 among the open ones brings the
      displayed average to 0, whatever the other goals have saved. */
  lemma ZeroTargetGoalHidesProgress(goals: seq<SavingsGoal>, user: UserId, g: SavingsGoal)
    requires g in goals && g.user_id == user && !g.completed
    requires g.target_amount == 0.0 && g.current_amount == 0.0
    ensures SavingsProgress(goals, user) == Finite(0.0)
  {
    var open := Filter(goals, OpenGoalOf(user));
    assert g in open;
    var k :| 0 <= k < |open| && open[k] == g;
    assert SavingsPage.GoalPercent(g) == NaN;
    assert PercentSum(open) == NaN by { PercentSumNaN(open, k); }
    assert |open| > 0;
    assert SavingsProgress(goals, user) == Share(OrZero(NaN), |open| as real);
  }

  /** The dashboard reads only the user's own rows: it is the same when
      every row of another user, wherever it sits in any table, is dropped. */
  lemma DashboardIgnoresOtherUsers(expenses: seq<Expense>, budgets: seq<Budget>, goals: seq<SavingsGoal>,
                                   user: UserId, periodStart: int)
    ensures LoadDashboard(expenses, budgets, goals, user, periodStart)
         == LoadDashboard(Filter(expenses, ExpenseOwnedBy(user)), Filter(budgets, BudgetOwnedBy(user)),
                          Filter(goals, GoalOwnedBy(user)), user, periodStart)
  {
    FilterOfFilter(expenses, ExpenseOwnedBy(user), ThisMonthOf(user, periodStart));
    FilterOfFilter(budgets, BudgetOwnedBy(user), BudgetPage.MonthlyBudgetOf(user));
    FilterOfFilter(goals, GoalOwnedBy(user), OpenGoalOf(user));
  }
}
