/** `src/routes/expense.js`: the daily-expense routes over the shared store.
    What each write does to the `daily_expenses` table is stated by the
    table functions of the Recurrence module. */
module ExpenseRoutes {
  import opened Calendar
  import opened Records
  import opened Ordering
  import opened Recurrence
  import opened Store

  /** GET /expenses/month/:monthId: the month's rows in date order, once
      the month is known to be the user's. */
  method ListMonthExpenses(db: Store, user: UserId, monthId: Id) returns (r: Response<seq<Expense>>)
    requires db.Valid()
    ensures !r.Rejected?
    ensures r.NotFound? <==> !OwnsMonth(db.months, user, monthId)
    ensures r.Ok? ==> && IsListing(r.value, db.expenses, MonthExpenseIds(db.expenses, user, monthId), ExpenseIdOf)
                      && (forall i, j :: 0 <= i < j < |r.value| ==> Before(r.value[i].date, r.value[j].date))
  {
    if !OwnsMonth(db.months, user, monthId) {
      return NotFound;
    }
    var rows := Select(db.expenses, MonthExpenseIds(db.expenses, user, monthId), ExpenseIdOf, DateKey);
    forall i, j | 0 <= i < j < |rows|
      ensures Before(rows[i].date, rows[j].date)
    {
      assert rows[i].id != rows[j].id;
      assert db.expenses[rows[i].id] == rows[i] && db.expenses[rows[j].id] == rows[j];
      assert rows[i].user == user == rows[j].user;
      DateKeyOrder(rows[i], rows[j]);
    }
    r := Ok(rows);
  }

  /** GET /expenses/date/:date: the user's row for that date. */
  method GetExpenseOnDate(db: Store, user: UserId, date: Date) returns (r: Response<Expense>)
    requires db.Valid()
    ensures !r.Rejected?
    ensures r.NotFound? <==> DayId(db.expenses, user, date).None?
    ensures r.Ok? ==> && DayId(db.expenses, user, date) == Some(r.value.id)
                      && r.value == db.expenses[r.value.id] && OnDay(r.value, user, date)
  {
    if !exists id :: id in db.expenses && OnDay(db.expenses[id], user, date) {
      return NotFound;
    }
    var id :| id in db.expenses && OnDay(db.expenses[id], user, date);
    DayIdOfRow(db.expenses, id);
    r := Ok(db.expenses[id]);
  }

  /** The lookup of the row on the day before `date`: its `remaining`, or 0
      when there is none. */
  method PreviousRemaining(expenses: map<Id, Expense>, user: UserId, date: Date) returns (carried: real)
    requires UniqueDays(expenses) && ValidDate(date)
    ensures carried == CarriedSavings(expenses, user, date)
  {
    carried := 0.0;
    if exists p :: p in expenses && OnDay(expenses[p], user, PrevDay(date)) {
      var p :| p in expenses && OnDay(expenses[p], user, PrevDay(date));
      DayIdOfRow(expenses, p);
      carried := expenses[p].remaining;
    }
  }

  /** POST /expenses: validation (400), ownership of the month (404), then
      the write `AfterPost` describes, with the month's daily allocation. */
  method RecordExpense(db: Store, user: UserId, monthId: Id, date: Date, amount: real, now: nat)
    returns (r: Response<Expense>)
    requires db.Valid()
    modifies db
    ensures db.Valid()
    ensures r.Rejected? <==> !ValidAmount(amount) || !ValidDate(date)
    ensures r.NotFound? <==> ValidAmount(amount) && ValidDate(date) && !OwnsMonth(old(db.months), user, monthId)
    ensures !r.Ok? ==> db.expenses == old(db.expenses) && db.nextId == old(db.nextId)
    ensures r.Ok? ==>
      && db.expenses == AfterPost(old(db.expenses), old(db.nextId), user, monthId, date, amount,
                                  old(db.months)[monthId].dailyAllocation, now)
      && r.value.id in db.expenses && db.expenses[r.value.id] == r.value
      && OnDay(r.value, user, date) && r.value.amountSpent == amount
    ensures r.Ok? && DayId(old(db.expenses), user, date).None? ==>
      && r.value.id == old(db.nextId) && db.nextId == old(db.nextId) + 1
      && r.value.cumulativeSavings == CarriedSavings(old(db.expenses), user, date)
      && Balanced(r.value)
    ensures r.Ok? && DayId(old(db.expenses), user, date).Some? ==>
      r.value.id == DayId(old(db.expenses), user, date).value && db.nextId == old(db.nextId)
    ensures db.months == old(db.months) && db.categories == old(db.categories)
  {
    if !ValidAmount(amount) || !ValidDate(date) {
      return Rejected;
    }
    if !OwnsMonth(db.months, user, monthId) {
      return NotFound;
    }
    var allocation := db.months[monthId].dailyAllocation;
    var e;
    if exists id :: id in db.expenses && OnDay(db.expenses[id], user, date) {
      e := RepostDay(db, user, monthId, date, amount, allocation, now);
    } else {
      e := OpenNewDay(db, user, monthId, date, amount, allocation, now);
    }
    r := Ok(e);
  }

  /** POST on a date that already has the user's row: the row's
      `amount_spent` and timestamp are updated. */
  method RepostDay(db: Store, user: UserId, monthId: Id, date: Date, amount: real, allocation: real, now: nat)
    returns (e: Expense)
    requires db.Valid() && ValidDate(date) && ValidAmount(amount) && OwnsMonth(db.months, user, monthId)
    requires DayId(db.expenses, user, date).Some?
    modifies db
    ensures db.Valid()
    ensures db.expenses == AfterPost(old(db.expenses), old(db.nextId), user, monthId, date, amount, allocation, now)
    ensures e.id == DayId(old(db.expenses), user, date).value && db.expenses[e.id] == e
    ensures OnDay(e, user, date) && e.amountSpent == amount
    ensures db.nextId == old(db.nextId) && db.months == old(db.months) && db.categories == old(db.categories)
  {
    PostKeepsTablesValid(db.months, db.categories, db.expenses, db.nextId, user, monthId, date, amount, allocation, now);
    var id :| id in db.expenses && OnDay(db.expenses[id], user, date);
    DayIdOfRow(db.expenses, id);
    e := Repost(db.expenses[id], amount, now);
    db.expenses := db.expenses[id := e];
  }

  /** POST on a date without the user's row: a new row under the next id,
      with the month's allocation and the previous day's `remaining`. */
  method OpenNewDay(db: Store, user: UserId, monthId: Id, date: Date, amount: real, allocation: real, now: nat)
    returns (e: Expense)
    requires db.Valid() && ValidDate(date) && ValidAmount(amount) && OwnsMonth(db.months, user, monthId)
    requires DayId(db.expenses, user, date).None?
    modifies db
    ensures db.Valid()
    ensures db.expenses == AfterPost(old(db.expenses), old(db.nextId), user, monthId, date, amount, allocation, now)
    ensures e.id == old(db.nextId) && db.expenses[e.id] == e && db.nextId == old(db.nextId) + 1
    ensures OnDay(e, user, date) && e.amountSpent == amount && Balanced(e)
    ensures e.cumulativeSavings == CarriedSavings(old(db.expenses), user, date)
    ensures db.months == old(db.months) && db.categories == old(db.categories)
  {
    PostKeepsTablesValid(db.months, db.categories, db.expenses, db.nextId, user, monthId, date, amount, allocation, now);
    var carried := PreviousRemaining(db.expenses, user, date);
    e := OpenDay(db.nextId, user, monthId, date, amount, allocation, carried, now);
    db.expenses := db.expenses[e.id := e];
    db.nextId := db.nextId + 1;
  }

  /** The lookup of the row on the day after `date` and its timestamp
      update, as both PUT and DELETE do it. */
  method TouchFollowingDay(expenses: map<Id, Expense>, user: UserId, date: Date, now: nat)
    returns (after: map<Id, Expense>)
    requires UniqueDays(expenses) && ValidDate(date)
    ensures after == TouchNextDay(expenses, user, date, now)
  {
    after := expenses;
    var next := NextDay(date);
    if exists n :: n in expenses && OnDay(expenses[n], user, next) {
      var n :| n in expenses && OnDay(expenses[n], user, next);
      DayIdOfRow(expenses, n);
      after := expenses[n := Touch(expenses[n], now)];
    }
  }

  predicate OwnsExpense(expenses: map<Id, Expense>, user: UserId, id: Id) {
    id in expenses && expenses[id].user == user
  }

  /** PUT /expenses/:id: validation (400), ownership (404), then the write
      `AfterPut` describes: the row is revised and the next day's row is
      touched. */
  method UpdateExpense(db: Store, user: UserId, id: Id, amount: real, now: nat)
    returns (r: Response<Expense>)
    requires db.Valid()
    modifies db
    ensures db.Valid()
    ensures r.Rejected? <==> !ValidAmount(amount)
    ensures r.NotFound? <==> ValidAmount(amount) && !OwnsExpense(old(db.expenses), user, id)
    ensures !r.Ok? ==> db.expenses == old(db.expenses)
    ensures r.Ok? ==> && db.expenses == AfterPut(old(db.expenses), id, amount, now)
                      && r.value == Revise(old(db.expenses)[id], amount, now)
                      && r.value == db.expenses[id]
    ensures db.months == old(db.months) && db.categories == old(db.categories) && db.nextId == old(db.nextId)
  {
    if !ValidAmount(amount) {
      return Rejected;
    }
    if !OwnsExpense(db.expenses, user, id) {
      return NotFound;
    }
    PutKeepsTablesValid(db.months, db.categories, db.expenses, db.nextId, id, amount, now);
    var e := db.expenses[id];
    var revised := Revise(e, amount, now);
    var mid := db.expenses[id := revised];
    assert UniqueDays(mid);
    db.expenses := TouchFollowingDay(mid, e.user, e.date, now);
    r := Ok(revised);
  }

  /** DELETE /expenses/:id: ownership (404), then the write `AfterDelete`
      describes: the row is removed and the next day's row is touched. */
  method DeleteExpense(db: Store, user: UserId, id: Id, now: nat) returns (r: Response<()>)
    requires db.Valid()
    modifies db
    ensures db.Valid()
    ensures !r.Rejected?
    ensures r.NotFound? <==> !OwnsExpense(old(db.expenses), user, id)
    ensures r.NotFound? ==> db.expenses == old(db.expenses)
    ensures r.Ok? ==> db.expenses == AfterDelete(old(db.expenses), id, now) && id !in db.expenses
    ensures db.months == old(db.months) && db.categories == old(db.categories) && db.nextId == old(db.nextId)
  {
    if !OwnsExpense(db.expenses, user, id) {
      return NotFound;
    }
    DeleteKeepsTablesValid(db.months, db.categories, db.expenses, db.nextId, id, now);
    var e := db.expenses[id];
    var mid := db.expenses - {id};
    assert UniqueDays(mid);
    db.expenses := TouchFollowingDay(mid, e.user, e.date, now);
    r := Ok(());
  }
}
