/** The budget page: each monthly budget with what has been spent against
    it since the start of the month, the labels and progress bar derived
    from that, and the two actions that change the budgets table. */
module BudgetPage {

  import opened Records
  import opened SeqUtil
  import opened JsNumbers

  /** A budget row as the page lists it, with `spent` and `percentage` added. */
  datatype BudgetStatus = BudgetStatus(budget: Budget, spent: real, percentage: Number)

  /** Row filter of the budgets query. */
  function MonthlyBudgetOf(user: UserId): Budget -> bool
  {
    (b: Budget) => b.user_id == user && b.period == Monthly
  }

  function ByCategory(b: Budget): int
  {
    CategoryRank(b.category)
  }

  /** The budgets query: the user's monthly budgets, ordered by category. */
  function FetchBudgets(budgets: seq<Budget>, user: UserId): (r: seq<Budget>)
    ensures forall b :: b in r <==> b in budgets && b.user_id == user && b.period == Monthly
    ensures |r| == |Filter(budgets, MonthlyBudgetOf(user))|
    ensures multiset(r) == multiset(Filter(budgets, MonthlyBudgetOf(user)))
    ensures forall i, j :: 0 <= i < j < |r| ==> CategoryRank(r[i].category) <= CategoryRank(r[j].category)
  {
    var mine := Filter(budgets, MonthlyBudgetOf(user));
    var r := SortBy(mine, ByCategory);
    assert |r| == |mine| by { SortByLength(mine, ByCategory); }
    assert forall b :: b in r <==> b in mine by { SortByMembers(mine, ByCategory); }
    assert forall i, j :: 0 <= i < j < |r| ==> ByCategory(r[i]) <= ByCategory(r[j]);
    r
  }

  /** Row filter of the expenses query issued for one budget. */
  function CountsAgainst(user: UserId, category: Category, periodStart: int): Expense -> bool
  {
    (e: Expense) => e.user_id == user && e.category == category && e.date >= periodStart
  }

  function Amount(e: Expense): real
  {
    e.amount
  }

  /** What the user has spent in `category` since `periodStart`. */
  function Spent(expenses: seq<Expense>, user: UserId, category: Category, periodStart: int): real
  {
    Total(Filter(expenses, CountsAgainst(user, category, periodStart)), Amount)
  }

  function StatusOf(b: Budget, expenses: seq<Expense>, user: UserId, periodStart: int): BudgetStatus
  {
    var spent := Spent(expenses, user, b.category, periodStart);
    BudgetStatus(b, spent, Percent(spent, b.limit_amount))
  }

  /** `loadBudgets`: one status per fetched budget, in the fetched order,
      each keeping the budget row as it is. */
  function LoadBudgets(budgets: seq<Budget>, expenses: seq<Expense>, user: UserId, periodStart: int)
    : (r: seq<BudgetStatus>)
    ensures |r| == |FetchBudgets(budgets, user)|
    ensures forall i :: 0 <= i < |r| ==> r[i].budget == FetchBudgets(budgets, user)[i]
    ensures forall i :: 0 <= i < |r| ==>
              r[i].spent == Spent(expenses, user, r[i].budget.category, periodStart)
              && r[i].percentage == Percent(r[i].spent, r[i].budget.limit_amount)
  {
    var fetched := FetchBudgets(budgets, user);
    seq(|fetched|, i requires 0 <= i < |fetched| => StatusOf(fetched[i], expenses, user, periodStart))
  }

  /** With no expense of the user in the category since the start of the
      period, nothing has been spent. */
  lemma NothingSpent(expenses: seq<Expense>, user: UserId, category: Category, periodStart: int)
    requires forall e :: e in expenses ==>
               e.user_id != user || e.category != category || e.date < periodStart
    ensures Spent(expenses, user, category, periodStart) == 0.0
  {
    FilterNone(expenses, CountsAgainst(user, category, periodStart));
  }

  /** A new expense adds its amount to the spending of its own category, for
      its own user, from a date on or after the period start, and to no other. */
  lemma SpentAfterExpense(expenses: seq<Expense>, e: Expense, user: UserId, category: Category, periodStart: int)
    ensures Spent(expenses + [e], user, category, periodStart)
         == Spent(expenses, user, category, periodStart)
            + (if e.user_id == user && e.category == category && e.date >= periodStart then e.amount else 0.0)
  {
    var p := CountsAgainst(user, category, periodStart);
    FilterSnoc(expenses, e, p);
    if p(e) {
      TotalSnoc(Filter(expenses, p), e, Amount);
    } else {
      assert Filter(expenses, p) + [] == Filter(expenses, p);
    }
  }

  lemma SpentNonnegative(expenses: seq<Expense>, user: UserId, category: Category, periodStart: int)
    requires forall e :: e in expenses ==> e.amount >= 0.0
    ensures Spent(expenses, user, category, periodStart) >= 0.0
  {
    TotalNonnegative(Filter(expenses, CountsAgainst(user, category, periodStart)), Amount);
  }

  /** The "Over budget!" label. */
  predicate ShowsOverBudget(p: Number)
  {
    Above(p, 100.0)
  }

  /** The "Almost at limit" label. */
  predicate ShowsAlmostAtLimit(p: Number)
  {
    Above(p, 80.0) && AtMost(p, 100.0)
  }

  /** For any limit the form can store (`min="0"`), the labels compare what
      was spent with the limit itself: "Over budget!" exactly when more than
      the limit was spent, "Almost at limit" exactly when more than 80% and
      at most all of it was, and never both.  A zero limit shows "Over
      budget!" as soon as anything is spent and never "Almost at limit". */
  lemma {:induction false} BudgetLabels(spent: real, limit: real)
    requires limit >= 0.0
    ensures ShowsOverBudget(Percent(spent, limit)) <==> spent > limit
    ensures ShowsAlmostAtLimit(Percent(spent, limit)) <==> 0.8 * limit < spent <= limit
    ensures !(ShowsOverBudget(Percent(spent, limit)) && ShowsAlmostAtLimit(Percent(spent, limit)))
  {
    if limit > 0.0 {
      PercentAbove(spent, limit, 100.0);
      PercentAbove(spent, limit, 80.0);
      PercentAtMost(spent, limit, 100.0);
    }
  }

  /** `handleAddBudget`: inserts the chosen category and the entered limit as
      a monthly budget of the user; an existing budget for the same category
      stays. */
  method HandleAddBudget(db: Database, user: UserId, category: Category, amount: real) returns (id: Id)
    requires db.Valid()
    requires amount >= 0.0
    modifies db
    ensures db.Valid()
    ensures id == old(db.nextId)
    ensures db.budgets == old(db.budgets) + [Budget(id, user, category, amount, Monthly)]
    ensures db.expenses == old(db.expenses) && db.goals == old(db.goals)
  {
    id := db.nextId;
    KeysBelowAppend(db.budgets, BudgetId, db.nextId, Budget(id, user, category, amount, Monthly));
    db.budgets := db.budgets + [Budget(id, user, category, amount, Monthly)];
    db.nextId := db.nextId + 1;
  }

  /** Row filter of a delete by id. */
  function NotBudget(id: Id): Budget -> bool
  {
    (b: Budget) => b.id != id
  }

  /** `handleDeleteBudget`: removes the budget rows with that id. */
  method HandleDeleteBudget(db: Database, id: Id)
    requires db.Valid()
    modifies db
    ensures db.Valid()
    ensures db.budgets == Filter(old(db.budgets), NotBudget(id))
    ensures db.expenses == old(db.expenses) && db.goals == old(db.goals) && db.nextId == old(db.nextId)
  {
    FilterKeysBelow(db.budgets, BudgetId, db.nextId, NotBudget(id));
    db.budgets := Filter(db.budgets, NotBudget(id));
  }

  /** The statuses are exactly those of the fetched budgets. */
  lemma LoadBudgetsMembers(budgets: seq<Budget>, expenses: seq<Expense>, user: UserId, periodStart: int)
    ensures forall s :: s in LoadBudgets(budgets, expenses, user, periodStart) <==>
              s.budget in FetchBudgets(budgets, user) && s == StatusOf(s.budget, expenses, user, periodStart)
  {
    var r := LoadBudgets(budgets, expenses, user, periodStart);
    var fetched := FetchBudgets(budgets, user);
    forall s: BudgetStatus | s.budget in fetched && s == StatusOf(s.budget, expenses, user, periodStart)
      ensures s in r
    {
      var k :| 0 <= k < |fetched| && fetched[k] == s.budget;
      assert r[k] == s;
    }
  }

  /** After a budget is added, the page lists one budget more: the new one,
      with the spending of its category, next to every budget listed before,
      including any other budget for the same category. */
  lemma AddedBudgetIsListed(budgets: seq<Budget>, expenses: seq<Expense>, user: UserId,
                            category: Category, amount: real, id: Id, periodStart: int)
    requires forall b :: b in budgets ==> b.id != id
    ensures var after := LoadBudgets(budgets + [Budget(id, user, category, amount, Monthly)], expenses, user, periodStart);
            var before := LoadBudgets(budgets, expenses, user, periodStart);
            && |after| == |before| + 1
            && BudgetStatus(Budget(id, user, category, amount, Monthly),
                            Spent(expenses, user, category, periodStart),
                            Percent(Spent(expenses, user, category, periodStart), amount)) in after
            && (forall s :: s in before ==> s in after)
  {
    var nb := Budget(id, user, category, amount, Monthly);
    var p := MonthlyBudgetOf(user);
    FilterAppend(budgets, [nb], p);
    assert Filter([nb], p) == Filter([nb][..0], p) + [nb];
    assert [nb][..0] == [];
    LoadBudgetsMembers(budgets, expenses, user, periodStart);
    LoadBudgetsMembers(budgets + [nb], expenses, user, periodStart);
  }

  /** After a delete, no listed budget has that id, and every other budget
      is listed with the same status as before. */
  lemma DeletedBudgetNotListed(budgets: seq<Budget>, expenses: seq<Expense>, user: UserId, id: Id, periodStart: int)
    ensures var after := LoadBudgets(Filter(budgets, NotBudget(id)), expenses, user, periodStart);
            var before := LoadBudgets(budgets, expenses, user, periodStart);
            && (forall s :: s in after ==> s.budget.id != id && s in before)
            && (forall s :: s in before && s.budget.id != id ==> s in after)
  {
    LoadBudgetsMembers(budgets, expenses, user, periodStart);
    LoadBudgetsMembers(Filter(budgets, NotBudget(id)), expenses, user, periodStart);
  }

  /** The page reads only the user's own rows: it is the same when every
      row of another user, wherever it sits in either table, is dropped. */
  lemma BudgetsIgnoreOtherUsers(budgets: seq<Budget>, expenses: seq<Expense>, user: UserId, periodStart: int)
    ensures LoadBudgets(budgets, expenses, user, periodStart)
         == LoadBudgets(Filter(budgets, BudgetOwnedBy(user)), Filter(expenses, ExpenseOwnedBy(user)), user, periodStart)
  {
    FilterOfFilter(budgets, BudgetOwnedBy(user), MonthlyBudgetOf(user));
    forall c: Category
      ensures Spent(Filter(expenses, ExpenseOwnedBy(user)), user, c, periodStart) == Spent(expenses, user, c, periodStart)
    {
      FilterOfFilter(expenses, ExpenseOwnedBy(user), CountsAgainst(user, c, periodStart));
    }
  }
}
