/** Worked cases: a food budget with two expenses, and a goal filled by two
    deposits. */
module Scenarios {

  import opened Records
  import opened JsNumbers
  import BudgetPage
  import SavingsPage

  /** A limit of 100 with 50 and 30 spent this month: 80 spent, 80%, and
      neither label, since "Almost at limit" needs more than 80%. */
  lemma FoodBudgetAtEighty()
    ensures var b := Budget(1, 7, Food, 100.0, Monthly);
            var es := [Expense(2, 7, 50.0, Food, None, 3), Expense(3, 7, 30.0, Food, None, 20)];
            var r := BudgetPage.LoadBudgets([b], es, 7, 1);
            && r == [BudgetPage.BudgetStatus(b, 80.0, Finite(80.0))]
            && !BudgetPage.ShowsAlmostAtLimit(r[0].percentage)
            && !BudgetPage.ShowsOverBudget(r[0].percentage)
  {
    var b := Budget(1, 7, Food, 100.0, Monthly);
    var es := [Expense(2, 7, 50.0, Food, None, 3), Expense(3, 7, 30.0, Food, None, 20)];
    FoodSpending();
    OnlyBudgetFetched(b);
    var r := BudgetPage.LoadBudgets([b], es, 7, 1);
    assert r[0] == BudgetPage.BudgetStatus(b, 80.0, Percent(80.0, 100.0));
    assert Percent(80.0, 100.0) == Finite(80.0);
  }

  lemma FoodSpending()
    ensures BudgetPage.Spent([Expense(2, 7, 50.0, Food, None, 3), Expense(3, 7, 30.0, Food, None, 20)], 7, Food, 1)
         == 80.0
  {
    var e1 := Expense(2, 7, 50.0, Food, None, 3);
    var e2 := Expense(3, 7, 30.0, Food, None, 20);
    FirstFoodExpense();
    BudgetPage.SpentAfterExpense([e1], e2, 7, Food, 1);
    assert [e1] + [e2] == [e1, e2];
  }

  lemma FirstFoodExpense()
    ensures BudgetPage.Spent([Expense(2, 7, 50.0, Food, None, 3)], 7, Food, 1) == 50.0
  {
    var e1 := Expense(2, 7, 50.0, Food, None, 3);
    BudgetPage.NothingSpent([], 7, Food, 1);
    BudgetPage.SpentAfterExpense([], e1, 7, Food, 1);
    assert [] + [e1] == [e1];
  }

  lemma OnlyBudgetFetched(b: Budget)
    requires b.user_id == 7 && b.period == Monthly
    ensures BudgetPage.FetchBudgets([b], 7) == [b]
  {
    var r := BudgetPage.FetchBudgets([b], 7);
    assert b in r;
  }

  /** A goal of 1000 holding 400: a deposit of 300 leaves it active at 70%,
      a second one completes it at 100%. */
  lemma TwoDepositsFillGoal()
    ensures var g := SavingsGoal(5, 7, "Laptop", 1000.0, 400.0, None, false, 0);
            var once := SavingsPage.Deposit([g], 7, 5, 300.0);
            var twice := SavingsPage.Deposit(once, 7, 5, 300.0);
            && once == [g.(current_amount := 700.0)]
            && SavingsPage.GoalPercent(once[0]) == Finite(70.0)
            && twice == [g.(current_amount := 1000.0, completed := true)]
            && SavingsPage.GoalPercent(twice[0]) == Finite(100.0)
  {
    var g := SavingsGoal(5, 7, "Laptop", 1000.0, 400.0, None, false, 0);
    assert KeysBelow([g], GoalId, 6);
    SavingsPage.DepositCredits([g], 7, 5, 300.0, 6, 0);
    var once := SavingsPage.Deposit([g], 7, 5, 300.0);
    SavingsPage.DepositTouchesOnlyThatGoal([g], 7, 5, 300.0);
    assert once == [g.(current_amount := 700.0)];
    assert KeysBelow(once, GoalId, 6);
    SavingsPage.DepositCredits(once, 7, 5, 300.0, 6, 0);
    SavingsPage.DepositTouchesOnlyThatGoal(once, 7, 5, 300.0);
  }

  /** A completed goal stays completed after a further deposit. */
  lemma CompletedGoalStaysCompleted()
    ensures var g := SavingsGoal(5, 7, "Trip", 500.0, 500.0, None, true, 0);
            SavingsPage.Deposit([g], 7, 5, 50.0) == [g.(current_amount := 550.0)]
  {
    var g := SavingsGoal(5, 7, "Trip", 500.0, 500.0, None, true, 0);
    assert KeysBelow([g], GoalId, 6);
    SavingsPage.DepositCredits([g], 7, 5, 50.0, 6, 0);
    SavingsPage.DepositTouchesOnlyThatGoal([g], 7, 5, 50.0);
  }
}
