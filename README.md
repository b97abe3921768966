# Budget, dashboard and savings engine of a student finance tracker

This project models the aggregation logic behind three pages of a student
finance tracker: the budget page, the dashboard and the savings page.

- Budget page: lists the user's monthly budgets by category. Each one shows
  what was spent in its category since the start of the month, the
  percentage of the limit used, a progress bar and the "Over budget!" and
  "Almost at limit" labels. The page adds and deletes budgets.
- Dashboard: sums this month's spending, shows the five latest expenses,
  sums the monthly budget limits and averages the progress of the open
  savings goals. It derives the "% of budget", "remaining" and
  "Over budget" texts and the colour of the spending card.
- Savings page: lists the user's goals newest first with their progress
  percentage. It creates goals, deposits money into them (a goal is
  completed once a deposit reaches its target) and deletes them.

The three remote tables (`expenses`, `budgets`, `savings_goals`) are the
sequence fields of the class `Records.Database`; its `nextId` field stands
for the ids the store generates. The operations that write to the store are
module-level methods that take the `Database` and modify it. The queries and
the derived values are functions over the table contents.

Amounts are exact reals. Every division the pages perform without checking
the divisor (a budget limit of 0, a goal target of 0) is modelled with its
JavaScript outcome in `JsNumbers.Number`: a finite value, `Infinity`,
`-Infinity` or `NaN`. The comparisons, `Math.min` and `|| 0` applied to
those outcomes are modelled too.

Modules:
- `seq_util.dfy`: filtering, summing and a stable sort by key.
- `js_numbers.dfy`: JavaScript number outcomes and the shared percentage.
- `records.dfy`: rows, categories and the store.
- `budget.dfy`, `dashboard.dfy`, `savings.dfy`: the three pages.
- `scenarios.dfy`: worked cases.

Behaviours of the code that the model keeps as written:
- A percentage over a zero limit or a zero target is `Infinity` or `NaN`, not 0.
- "Almost at limit" needs strictly more than 80%, so a budget used to exactly 80% shows no label (`Scenarios.FoodBudgetAtEighty`).
- When spending equals the budget, the dashboard's budget card already reads "Over budget" while the spending card is not coloured as over (`DashboardPage.CardsDisagreeOnlyAtEquality`).
- A fresh goal with target 0 has reached its target but is not completed (taking the table's default for `completed` to be false). `Records.GoalConsistent` states the invariant the savings page does keep: completed exactly when the saved amount is positive and at least the target.
- Duplicate budgets for one category are allowed. Each one is listed, and each one adds its limit to the dashboard total.

## Model

| member | source | states |
|---|---|---|
| Records.CategoryRank | src/pages/Budget.tsx:22-31 | every category has one position in the declared order, and the sort by category follows it |
| BudgetPage.FetchBudgets | src/pages/Budget.tsx:50-55 | exactly the user's monthly budgets, each as often as in the table, ordered by category |
| BudgetPage.LoadBudgets | src/pages/Budget.tsx:64-81 | one status per fetched budget in fetched order, with the budget row unchanged, the category's spending since the period start, and spent / limit * 100 |
| BudgetPage.LoadBudgetsMembers | src/pages/Budget.tsx:64-81 | a status is listed exactly when its budget is fetched and it carries that budget's spending and percentage |
| BudgetPage.NothingSpent | src/pages/Budget.tsx:66-73 | with no expense of the user in the category since the period start, spent is 0 |
| BudgetPage.SpentAfterExpense | src/pages/Budget.tsx:66-73 | a new expense adds its amount to its own user's and category's spending when dated in the period, and changes no other |
| BudgetPage.Spent | src/pages/Budget.tsx:66-73 | what the user spent in a category since the period start; its contract is stated by `NothingSpent` and `SpentAfterExpense` |
| BudgetPage.SpentNonnegative | src/pages/Budget.tsx:73 | with non-negative expense amounts, spent is non-negative |
| JsNumbers.Percent | src/pages/Budget.tsx:78 | a non-zero limit gives a finite percent with percent * limit = spent * 100; a zero limit gives NaN for 0 spent, Infinity for positive and -Infinity for negative spending; below the limit it lies in [0, 100) |
| JsNumbers.PercentAbove | src/pages/Budget.tsx:235 | with a positive limit, percentage > c exactly when spent * 100 > c * limit |
| JsNumbers.PercentAtMost | src/pages/Budget.tsx:238 | with a positive limit, percentage <= c exactly when spent * 100 <= c * limit |
| BudgetPage.ShowsOverBudget | src/pages/Budget.tsx:235 | the "Over budget!" test on a percentage; `BudgetLabels` states when it holds |
| BudgetPage.ShowsAlmostAtLimit | src/pages/Budget.tsx:238 | the "Almost at limit" test on a percentage; `BudgetLabels` states when it holds |
| BudgetPage.BudgetLabels | src/pages/Budget.tsx:235-240 | for a limit >= 0, "Over budget!" shows exactly when spent > limit, and "Almost at limit" exactly when 0.8 * limit < spent <= limit; the two labels never show together |
| JsNumbers.ProgressBarValue | src/pages/Budget.tsx:232 | the bar value is never Infinity and at most 100; it equals the percentage up to 100 and is 100 above it; NaN stays NaN |
| BudgetPage.HandleAddBudget | src/pages/Budget.tsx:97-102 | appends one monthly budget of the user with the chosen category, the entered limit and a fresh id; the other tables are unchanged and the store stays valid |
| BudgetPage.AddedBudgetIsListed | src/pages/Budget.tsx:97-102 | after an insert the page lists one budget more: the new one with its category's spending, next to every budget listed before, including one for the same category |
| BudgetPage.HandleDeleteBudget | src/pages/Budget.tsx:118 | removes exactly the budget rows with that id; the other tables are unchanged |
| BudgetPage.DeletedBudgetNotListed | src/pages/Budget.tsx:118 | after a delete no listed budget has that id, and every other listed status is still listed |
| BudgetPage.BudgetsIgnoreOtherUsers | src/pages/Budget.tsx:50-71 | the page is the same when every row of another user, wherever it sits in either table, is dropped |
| DashboardPage.FetchMonthExpenses | src/pages/Dashboard.tsx:42-47 | exactly the user's expenses dated from the period start, each as often as in the table, latest first |
| DashboardPage.MonthlySpend | src/pages/Dashboard.tsx:49 | the total of the fetched expenses; `MonthlySpendIsMonthTotal` and `MonthlySpendByCategory` state its value |
| DashboardPage.RecentExpenses | src/pages/Dashboard.tsx:51 | the expenses shown as recent; `RecentExpensesAreLatest` states which |
| DashboardPage.MonthlySpendIsMonthTotal | src/pages/Dashboard.tsx:49 | monthly spending is the sum of this month's expenses whatever their fetched order, and 0 when there are none |
| DashboardPage.MonthlySpendByCategory | src/pages/Dashboard.tsx:42-49 | monthly spending equals the budget page's per-category spending added up over the eight categories |
| DashboardPage.RecentExpensesAreLatest | src/pages/Dashboard.tsx:51 | the recent list is the first min(5, n) of this month's expenses, all the user's, none earlier than one left out |
| DashboardPage.MonthlyBudget | src/pages/Dashboard.tsx:54-60 | the sum of the monthly limits; `MonthlyBudgetOfNone` states it is 0 without a monthly budget and `MonthlyBudgetCountsEveryBudget` states what each budget adds |
| DashboardPage.MonthlyBudgetOfNone | src/pages/Dashboard.tsx:54-61 | a user with no monthly budget has a total of 0, so the spending card reads "No budget set" whatever was spent |
| DashboardPage.MonthlyBudgetCountsEveryBudget | src/pages/Dashboard.tsx:54-60 | each monthly budget of the user adds its limit to the total, duplicates included; other rows add nothing |
| DashboardPage.PercentSumFinite | src/pages/Dashboard.tsx:70-73 | with non-zero targets the sum of goal percentages is the finite sum of current / target * 100 |
| DashboardPage.PercentSumNaN | src/pages/Dashboard.tsx:70-73 | one NaN percentage makes the whole sum NaN |
| DashboardPage.PercentSumBelow | src/pages/Dashboard.tsx:70-73 | goals each below a positive target give a finite sum in [0, 100 n) |
| DashboardPage.SavingsProgress | src/pages/Dashboard.tsx:64-75 | the average progress of the open goals; `SavingsProgressIsMean`, `SavingsProgressInRange` and `ZeroTargetGoalHidesProgress` state its value |
| DashboardPage.SavingsProgressIsMean | src/pages/Dashboard.tsx:70-75 | with positive targets, savings progress is the mean of the open goals' percentages, and 0 with no open goal |
| DashboardPage.SavingsProgressInRange | src/pages/Dashboard.tsx:64-75 | on consistent goals savings progress is finite and in [0, 100) |
| DashboardPage.ZeroTargetGoalHidesProgress | src/pages/Dashboard.tsx:70-75 | one fresh open goal with target 0 turns the sum into NaN, which the fallback to 0 replaces, so the average shows 0 |
| DashboardPage.SpendingNoteOf | src/pages/Dashboard.tsx:87 | "% of budget" exactly when the budget is positive, with percent * budget = total * 100; otherwise "No budget set" |
| DashboardPage.BudgetNoteOf | src/pages/Dashboard.tsx:94 | "remaining" exactly when the budget exceeds the total, with a positive remainder that adds up to the budget; otherwise "Over budget" |
| DashboardPage.SpendingTone | src/pages/Dashboard.tsx:89 | the spending card's colour; `CardsDisagreeOnlyAtEquality` relates it to the budget card's note |
| DashboardPage.CardsDisagreeOnlyAtEquality | src/pages/Dashboard.tsx:89-94 | the spending card's colour and the budget card's note agree on "over budget" except when spending equals the budget |
| DashboardPage.LoadDashboard | src/pages/Dashboard.tsx:32-81 | the four values the dashboard loads; `DashboardIgnoresOtherUsers` states that they depend only on the user's rows, and the rows above state each value |
| DashboardPage.DashboardIgnoresOtherUsers | src/pages/Dashboard.tsx:42-68 | the whole dashboard is the same when every row of another user, wherever it sits in any table, is dropped |
| SavingsPage.FetchGoals | src/pages/Savings.tsx:42-46 | exactly the user's goals, each as often as in the table, newest created first |
| SavingsPage.GoalPercent | src/pages/Savings.tsx:52 | a goal's uncapped percentage; `JsNumbers.Percent` states its value and `GoalProgressBar` the bar it gives |
| SavingsPage.LoadGoals | src/pages/Savings.tsx:50-53 | one view per fetched goal in fetched order, with the row unchanged and current / target * 100 not capped |
| SavingsPage.FindGoal | src/pages/Savings.tsx:92-93 | the first listed goal with that id, or none exactly when no listed goal has it |
| SavingsPage.UpdateGoal | src/pages/Savings.tsx:97-103 | the update by id; `DepositTouchesOnlyThatGoal` states what it changes |
| SavingsPage.Deposit | src/pages/Savings.tsx:92-103 | the goals table after a deposit; `DepositCredits`, `DepositUnknownGoal` and `DepositKeepsLedger` state it |
| SavingsPage.FoundGoal | src/pages/Savings.tsx:92-93 | the goal a deposit reads is found exactly when the user has a goal with that id, and it is that row |
| SavingsPage.DepositUnknownGoal | src/pages/Savings.tsx:93 | a deposit into an id the user has no goal under changes nothing |
| SavingsPage.DepositTouchesOnlyThatGoal | src/pages/Savings.tsx:97-103 | the update keeps the row count and every other goal, and on the target goal changes only the amount and the completed flag |
| SavingsPage.DepositCredits | src/pages/Savings.tsx:95-103 | with distinct ids the goal's amount grows by the deposit with no cap, and it is completed exactly when the new amount reaches the target |
| SavingsPage.ExactDepositCompletes | src/pages/Savings.tsx:95-101 | depositing exactly what is missing completes the goal at its target |
| SavingsPage.DepositKeepsLedger | src/pages/Savings.tsx:95-103 | a positive deposit keeps ids distinct and every goal consistent; no amount goes down and no completed goal becomes active again |
| SavingsPage.HandleAddGoal | src/pages/Savings.tsx:69-75 | appends one goal of the user with nothing saved, not completed, the entered target, no date when the field is empty, and a fresh id |
| SavingsPage.DepositDisabled | src/pages/Savings.tsx:265 | the "Add" button's guard; `HandleDeposit` requires it to be off |
| SavingsPage.HandleDeposit | src/pages/Savings.tsx:90-114 | with the "Add" button enabled, the goals table becomes the deposit's result; amounts never decrease, completed goals stay completed, and the store stays valid |
| SavingsPage.HandleDeleteGoal | src/pages/Savings.tsx:118 | removes exactly the goal rows with that id; the other tables are unchanged |
| SavingsPage.DeletedGoalGone | src/pages/Savings.tsx:118 | after a delete, a goal remains exactly when it was there with another id, and with distinct ids exactly one row goes when one matched |
| SavingsPage.DeletedGoalCount | src/pages/Savings.tsx:118 | with distinct ids the table shrinks by one exactly when a goal had that id |
| SavingsPage.AddMoneyEnabled | src/pages/Savings.tsx:278 | on a consistent goal, "Add Money" is enabled exactly while the goal is below its target or nothing has been saved |
| SavingsPage.GoalProgressBar | src/pages/Savings.tsx:247 | a completed goal with a positive target shows a full bar; a goal below its target shows its own percentage |
| Scenarios.FoodBudgetAtEighty | src/pages/Budget.tsx:64-81 | a food limit of 100 with 50 and 30 spent this month lists spent 80 at 80%, with neither label |
| Scenarios.TwoDepositsFillGoal | src/pages/Savings.tsx:95-103 | a goal of 1000 holding 400 is active at 70% after one deposit of 300 and completed at 100% after a second |
| Scenarios.CompletedGoalStaysCompleted | src/pages/Savings.tsx:95-103 | a further deposit into a completed goal adds the amount and leaves it completed |

## Left out

- Remote store calls, authentication, navigation, toasts, the loading flag and the rendered markup: the store is the in-memory `Records.Database`, and the signed-in user and the start of the month are parameters. The `now` argument of `SavingsPage.HandleAddGoal` stands for the table's `created_at` default, and `Records.Database.nextId` for generated ids.
- Clock order: nothing orders `now` after the `created_at` of earlier goals, so the model does not promise that a new goal is listed first.
- Store errors: a failed insert, update, delete or query is not modelled. The dashboard ignores query errors, and the model assumes every query succeeds.
- Concurrency: the budget page's parallel per-budget queries are modelled as one pass. Two deposits racing on stale amounts are not modelled.
- Text formatting: `parseFloat` of stored amounts, `toFixed` rounding and the time zone of the start of the month are not modelled. Dates are day numbers.
- Floating point: amounts are exact reals, so binary floating-point addition and division are not modelled. `SavingsPage.DepositCredits` and `SavingsPage.ExactDepositCompletes` hold only in exact arithmetic: in JavaScript `0.1 + 0.7` is `0.7999999999999999`, so a goal with target 0.8 holding 0.1 stays active after a deposit of 0.7.
- Ties in `order(...)`: the store promises no order among equal keys. The model keeps table order.
- The category sort order is taken to be the order of the category list on the budget page.
- The expense form and the other pages are not part of this model. Expense amounts can therefore be any real, and non-negativity is a hypothesis where it is needed.
- SavingsPage.HandleDeposit: the "Add Money" button of a completed goal is disabled, but the deposit itself does not check this. The model has no such precondition, and `Scenarios.CompletedGoalStaysCompleted` covers that case.
- SavingsPage.Deposit: the goal is looked up in the freshly loaded list rather than in the page state the user last saw.
- SavingsPage.HandleAddGoal: the insert sends no `completed` value, so the table's default decides it. The model takes that default to be false. `Records.GoalConsistent`, `DepositKeepsLedger`, `SavingsProgressInRange` and `ZeroTargetGoalHidesProgress` rest on it. With a null default, the dashboard's `completed = false` filter would skip fresh goals.
