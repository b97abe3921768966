/** The rows of the three tables the pages read and write (`expenses`,
    `budgets`, `savings_goals`) and an in-memory stand-in for the remote
    store that holds them. */
module Records {

  import opened SeqUtil

  datatype Option<T> = None | Some(value: T)

  type Id = nat
  type UserId = nat

  /** The expense categories, in the order the budget form lists them. */
  datatype Category = Tuition | Books | Food | Travel | Leisure | Rent | Utilities | Other

  const AllCategories: seq<Category> := [Tuition, Books, Food, Travel, Leisure, Rent, Utilities, Other]

  /** Position of a category in the enumeration: the order `order("category")` sorts by. */
  function CategoryRank(c: Category): (r: nat)
    ensures r < |AllCategories| && AllCategories[r] == c
  {
    match c
    case Tuition => 0
    case Books => 1
    case Food => 2
    case Travel => 3
    case Leisure => 4
    case Rent => 5
    case Utilities => 6
    case Other => 7
  }

  /** The only period the pages create and read. */
  const Monthly: string := "monthly"

  /** `date` is a day number; `amount` is whatever the expense form accepted. */
  datatype Expense = Expense(
    id: Id,
    user_id: UserId,
    amount: real,
    category: Category,
    description: Option<string>,
    date: int)

  datatype Budget = Budget(
    id: Id,
    user_id: UserId,
    category: Category,
    limit_amount: real,
    period: string)

  /** `target_date` is the text of the date field; `created_at` a timestamp. */
  datatype SavingsGoal = SavingsGoal(
    id: Id,
    user_id: UserId,
    title: string,
    target_amount: real,
    current_amount: real,
    target_date: Option<string>,
    completed: bool,
    created_at: int)

  function ExpenseId(e: Expense): Id { e.id }
  function BudgetId(b: Budget): Id { b.id }
  function GoalId(g: SavingsGoal): Id { g.id }

  /** The rows of one user: what `.eq("user_id", user.id)` keeps. */
  function ExpenseOwnedBy(user: UserId): Expense -> bool
  {
    (e: Expense) => e.user_id == user
  }

  function BudgetOwnedBy(user: UserId): Budget -> bool
  {
    (b: Budget) => b.user_id == user
  }

  function GoalOwnedBy(user: UserId): SavingsGoal -> bool
  {
    (g: SavingsGoal) => g.user_id == user
  }

  /** Row keys are pairwise distinct and below the next key to be handed out. */
  ghost predicate KeysBelow<T>(rows: seq<T>, key: T -> Id, next: nat)
  {
    && (forall i, j :: 0 <= i < j < |rows| ==> key(rows[i]) != key(rows[j]))
    && (forall i :: 0 <= i < |rows| ==> key(rows[i]) < next)
  }

  /** Appending a row with the next key keeps the keys distinct. */
  lemma KeysBelowAppend<T>(rows: seq<T>, key: T -> Id, next: nat, row: T)
    requires KeysBelow(rows, key, next)
    requires key(row) == next
    ensures KeysBelow(rows + [row], key, next + 1)
  {
  }

  /** Deleting rows keeps the keys distinct. */
  lemma {:induction false} FilterKeysBelow<T(!new)>(rows: seq<T>, key: T -> Id, next: nat, keep: T -> bool)
    requires KeysBelow(rows, key, next)
    ensures KeysBelow(Filter(rows, keep), key, next)
  {
    if rows != [] {
      var rest := rows[..|rows| - 1];
      var last := rows[|rows| - 1];
      FilterKeysBelow(rest, key, next, keep);
      var kept := Filter(rest, keep);
      forall i | 0 <= i < |kept|
        ensures key(kept[i]) != key(last)
      {
        assert kept[i] in rest;
        var k :| 0 <= k < |rest| && rest[k] == kept[i];
        assert rows[k] == kept[i];
      }
    }
  }

  /** What the savings page keeps true of every goal: amounts are not
      negative, and a goal is completed exactly when a deposit has brought
      it to its target.  A fresh goal with target 0 is the one goal that has
      reached its target without being completed. */
  ghost predicate GoalConsistent(g: SavingsGoal)
  {
    && g.current_amount >= 0.0
    && g.target_amount >= 0.0
    && (g.completed <==> g.current_amount >= g.target_amount && g.current_amount > 0.0)
  }

  /** The remote store: one sequence of rows per table, and the generator of
      row ids. */
  class Database {
    var expenses: seq<Expense>
    var budgets: seq<Budget>
    var goals: seq<SavingsGoal>
    var nextId: nat

    ghost predicate Valid()
      reads this
    {
      && KeysBelow(expenses, ExpenseId, nextId)
      && KeysBelow(budgets, BudgetId, nextId)
      && KeysBelow(goals, GoalId, nextId)
      && (forall b :: b in budgets ==> b.limit_amount >= 0.0)
      && (forall g :: g in goals ==> GoalConsistent(g))
    }

    constructor ()
      ensures Valid()
      ensures expenses == [] && budgets == [] && goals == []
    {
      expenses, budgets, goals := [], [], [];
      nextId := 0;
    }
  }
}
