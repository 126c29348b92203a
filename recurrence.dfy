/** The daily-expense recurrence of `src/routes/expense.js`, stated on the
    `daily_expenses` table as a value: what POST, PUT and DELETE write, the
    carry-over of the previous day's `remaining`, and the single-hop "touch"
    of the next day's row. */
module Recurrence {
  import opened Calendar
  import opened Records

  /** A row whose `remaining` agrees with its budget and spending. */
  predicate Balanced(e: Expense) {
    e.remaining == e.cumulativeBudget - e.amountSpent
  }

  ghost predicate AllBalanced(expenses: map<Id, Expense>) {
    forall id :: id in expenses ==> Balanced(expenses[id])
  }

  predicate OnDay(e: Expense, user: UserId, date: Date) {
    e.user == user && e.date == date
  }

  /** The unique constraint on (user_id, date). */
  ghost predicate UniqueDays(expenses: map<Id, Expense>) {
    forall a, b ::
      a in expenses && b in expenses && expenses[a].user == expenses[b].user && expenses[a].date == expenses[b].date
      ==> a == b
  }

  /** The id of the user's row for `date`, if there is one. */
  ghost function DayId(expenses: map<Id, Expense>, user: UserId, date: Date): (r: Option<Id>)
    ensures r.Some? ==> r.value in expenses && OnDay(expenses[r.value], user, date)
    ensures r.None? ==> forall id :: id in expenses ==> !OnDay(expenses[id], user, date)
  {
    if exists id :: id in expenses && OnDay(expenses[id], user, date) then
      var id :| id in expenses && OnDay(expenses[id], user, date);
      Some(id)
    else
      None
  }

  /** Under the unique constraint, a row is the one DayId finds for its
      own user and date. */
  lemma DayIdOfRow(expenses: map<Id, Expense>, id: Id)
    requires UniqueDays(expenses)
    requires id in expenses
    ensures DayId(expenses, expenses[id].user, expenses[id].date) == Some(id)
  {
  }

  /** `cumulative_savings` of a new row for `date`: the `remaining` of the
      user's row for the previous calendar day, or 0 when there is none. */
  ghost function CarriedSavings(expenses: map<Id, Expense>, user: UserId, date: Date): (r: real)
    requires ValidDate(date)
    ensures (forall p :: p in expenses ==> !OnDay(expenses[p], user, PrevDay(date))) ==> r == 0.0
    ensures UniqueDays(expenses) ==>
      forall p :: p in expenses && OnDay(expenses[p], user, PrevDay(date)) ==> r == expenses[p].remaining
  {
    match DayId(expenses, user, PrevDay(date))
    case Some(p) => expenses[p].remaining
    case None => 0.0
  }

  /** The row inserted for a day that has none yet. */
  function OpenDay(id: Id, user: UserId, monthId: Id, date: Date, amount: real,
                   allocation: real, carried: real, now: nat): (e: Expense)
    ensures Balanced(e)
    ensures e.allocatedBudget == allocation && e.cumulativeSavings == carried
    ensures e.cumulativeBudget == e.allocatedBudget + e.cumulativeSavings
    ensures e.id == id && OnDay(e, user, date) && e.monthId == monthId && e.amountSpent == amount
  {
    var budget := allocation + carried;
    Expense(id, user, monthId, date, amount, allocation, carried, budget, budget - amount, now)
  }

  /** POST on a day that already has a row: only `amount_spent` (and the
      timestamp) is written. */
  function Repost(e: Expense, amount: real, now: nat): (r: Expense)
    ensures r.amountSpent == amount && r.updatedAt == now
    ensures r.(amountSpent := e.amountSpent, updatedAt := e.updatedAt) == e
  {
    e.(amountSpent := amount, updatedAt := now)
  }

  /** PUT: `remaining` is recomputed from the stored `cumulative_budget`. */
  function Revise(e: Expense, amount: real, now: nat): (r: Expense)
    ensures Balanced(r)
    ensures r.amountSpent == amount && r.updatedAt == now
    ensures r.(amountSpent := e.amountSpent, remaining := e.remaining, updatedAt := e.updatedAt) == e
  {
    e.(amountSpent := amount, remaining := e.cumulativeBudget - amount, updatedAt := now)
  }

  /** `update({ updated_at: new Date() })`. */
  function Touch(e: Expense, now: nat): (r: Expense)
    ensures r.updatedAt == now && r.(updatedAt := e.updatedAt) == e
  {
    e.(updatedAt := now)
  }

  /** The table after POST / for (user, date). */
  ghost function AfterPost(expenses: map<Id, Expense>, freshId: Id, user: UserId, monthId: Id,
                           date: Date, amount: real, allocation: real, now: nat): (after: map<Id, Expense>)
    requires ValidDate(date)
    ensures DayId(expenses, user, date).Some? ==> after.Keys == expenses.Keys
    ensures DayId(expenses, user, date).None? ==> after.Keys == expenses.Keys + {freshId}
    ensures forall k :: k in expenses && k != freshId && !OnDay(expenses[k], user, date) ==> after[k] == expenses[k]
  {
    match DayId(expenses, user, date)
    case Some(id) => expenses[id := Repost(expenses[id], amount, now)]
    case None =>
      expenses[freshId := OpenDay(freshId, user, monthId, date, amount, allocation,
                                  CarriedSavings(expenses, user, date), now)]
  }

  /** Touch the user's row for the day after `date`, if there is one. */
  ghost function TouchNextDay(expenses: map<Id, Expense>, user: UserId, date: Date, now: nat): (after: map<Id, Expense>)
    requires ValidDate(date)
    ensures after.Keys == expenses.Keys
    ensures forall k :: k in expenses ==>
      after[k] == expenses[k] || (OnDay(expenses[k], user, NextDay(date)) && after[k] == Touch(expenses[k], now))
  {
    match DayId(expenses, user, NextDay(date))
    case Some(n) => expenses[n := Touch(expenses[n], now)]
    case None => expenses
  }

  /** The table after PUT /:id. */
  ghost function AfterPut(expenses: map<Id, Expense>, id: Id, amount: real, now: nat): (after: map<Id, Expense>)
    requires id in expenses && ValidDate(expenses[id].date)
    ensures after.Keys == expenses.Keys
    ensures after[id] == Revise(expenses[id], amount, now)
    ensures forall k :: k in expenses && k != id ==> after[k] == expenses[k] || after[k] == Touch(expenses[k], now)
  {
    var e := expenses[id];
    NextDayIsSuccessor(e.date, e.date);
    TouchNextDay(expenses[id := Revise(e, amount, now)], e.user, e.date, now)
  }

  /** The table after DELETE /:id. */
  ghost function AfterDelete(expenses: map<Id, Expense>, id: Id, now: nat): (after: map<Id, Expense>)
    requires id in expenses && ValidDate(expenses[id].date)
    ensures after.Keys == expenses.Keys - {id}
    ensures forall k :: k in after ==> after[k] == expenses[k] || after[k] == Touch(expenses[k], now)
  {
    var e := expenses[id];
    TouchNextDay(expenses - {id}, e.user, e.date, now)
  }

  // ---------------------------------------------------------------------
  // POST

  /** Inserting a new day: one new row, carrying over the previous calendar
      day's `remaining` (0 without one), all other rows unchanged. */
  lemma PostInsertsNewDay(expenses: map<Id, Expense>, freshId: Id, user: UserId, monthId: Id,
                          date: Date, amount: real, allocation: real, now: nat)
    requires ValidDate(date) && freshId !in expenses
    requires DayId(expenses, user, date).None?
    ensures var after := AfterPost(expenses, freshId, user, monthId, date, amount, allocation, now);
      && after.Keys == expenses.Keys + {freshId}
      && (forall id :: id in expenses ==> after[id] == expenses[id])
      && OnDay(after[freshId], user, date)
      && after[freshId].cumulativeSavings == CarriedSavings(expenses, user, date)
      && after[freshId].allocatedBudget == allocation
      && Balanced(after[freshId])
  {
  }

  /** POST on a day that has a row creates no second row and changes only
      `amount_spent` and the timestamp of that row. */
  lemma PostOnExistingDay(expenses: map<Id, Expense>, freshId: Id, user: UserId, monthId: Id,
                          date: Date, amount: real, allocation: real, now: nat)
    requires ValidDate(date)
    requires DayId(expenses, user, date).Some?
    ensures var id := DayId(expenses, user, date).value;
      var after := AfterPost(expenses, freshId, user, monthId, date, amount, allocation, now);
      && after.Keys == expenses.Keys
      && (forall k :: k in expenses && k != id ==> after[k] == expenses[k])
      && after[id] == expenses[id].(amountSpent := amount, updatedAt := now)
  {
  }

  /** POST keeps the (user_id, date) constraint. */
  lemma PostKeepsUniqueDays(expenses: map<Id, Expense>, freshId: Id, user: UserId, monthId: Id,
                            date: Date, amount: real, allocation: real, now: nat)
    requires ValidDate(date) && freshId !in expenses
    requires UniqueDays(expenses)
    ensures UniqueDays(AfterPost(expenses, freshId, user, monthId, date, amount, allocation, now))
  {
  }

  /** Chaining: insert day d, then insert the day after it; the second row's
      `cumulative_savings` is the first row's `remaining`. */
  lemma {:induction false} ChainConsecutiveDays(expenses: map<Id, Expense>, user: UserId,
                                                id1: Id, monthId1: Id, date: Date, amount1: real, alloc1: real, now1: nat,
                                                id2: Id, monthId2: Id, amount2: real, alloc2: real, now2: nat)
    requires ValidDate(date) && UniqueDays(expenses)
    requires id1 !in expenses && id2 !in expenses && id1 != id2
    requires DayId(expenses, user, date).None?
    requires DayId(expenses, user, NextDay(date)).None?
    ensures var first := AfterPost(expenses, id1, user, monthId1, date, amount1, alloc1, now1);
      var second := AfterPost(first, id2, user, monthId2, NextDay(date), amount2, alloc2, now2);
      && id1 in second && id2 in second
      && second[id2].cumulativeSavings == second[id1].remaining
      && second[id1].remaining == alloc1 + CarriedSavings(expenses, user, date) - amount1
  {
    var first := AfterPost(expenses, id1, user, monthId1, date, amount1, alloc1, now1);
    PostInsertsNewDay(expenses, id1, user, monthId1, date, amount1, alloc1, now1);
    PostKeepsUniqueDays(expenses, id1, user, monthId1, date, amount1, alloc1, now1);
    NextDayIsSuccessor(date, date);
    assert DayId(first, user, NextDay(date)).None? by {
      forall k | k in first
        ensures !OnDay(first[k], user, NextDay(date))
      {
        if k != id1 {
          assert first[k] == expenses[k];
        }
      }
    }
    PrevNextInverse(date);
    DayIdOfRow(first, id1);
    assert DayId(first, user, PrevDay(NextDay(date))) == Some(id1);
    PostInsertsNewDay(first, id2, user, monthId2, NextDay(date), amount2, alloc2, now2);
  }

  /** A POST that changes the amount of an existing balanced row leaves its
      `remaining` stale: the handler itself does not recompute it. */
  lemma RepostLeavesRemainingStale(e: Expense, amount: real, now: nat)
    requires Balanced(e) && amount != e.amountSpent
    ensures !Balanced(Repost(e, amount, now))
  {
  }

  /** Inserting a new day keeps every row balanced. */
  lemma PostNewDayKeepsBalance(expenses: map<Id, Expense>, freshId: Id, user: UserId, monthId: Id,
                               date: Date, amount: real, allocation: real, now: nat)
    requires ValidDate(date) && AllBalanced(expenses)
    requires DayId(expenses, user, date).None?
    ensures AllBalanced(AfterPost(expenses, freshId, user, monthId, date, amount, allocation, now))
  {
  }

  // ---------------------------------------------------------------------
  // PUT and DELETE

  /** Touching the next day changes at most that row, and in it only the
      timestamp. */
  lemma TouchNextDayFrame(expenses: map<Id, Expense>, user: UserId, date: Date, now: nat)
    requires ValidDate(date)
    ensures var after := TouchNextDay(expenses, user, date, now);
      && after.Keys == expenses.Keys
      && (forall k :: k in expenses && !OnDay(expenses[k], user, NextDay(date)) ==> after[k] == expenses[k])
      && (forall k :: k in expenses && OnDay(expenses[k], user, NextDay(date)) && UniqueDays(expenses)
            ==> after[k] == Touch(expenses[k], now))
  {
  }

  /** PUT on day d: the row of d gets the new amount and a recomputed
      `remaining`, the row of d+1 (if any) only a new timestamp, and every
      other row, d+2 onwards included, is unchanged. */
  lemma PutFrame(expenses: map<Id, Expense>, id: Id, amount: real, now: nat)
    requires id in expenses && ValidDate(expenses[id].date) && UniqueDays(expenses)
    ensures var e := expenses[id];
      var after := AfterPut(expenses, id, amount, now);
      && after.Keys == expenses.Keys
      && after[id] == Revise(e, amount, now)
      && Balanced(after[id])
      && (forall k :: k in expenses && k != id && !OnDay(expenses[k], e.user, NextDay(e.date))
            ==> after[k] == expenses[k])
      && (forall k :: k in expenses && OnDay(expenses[k], e.user, NextDay(e.date))
            ==> after[k] == Touch(expenses[k], now))
  {
    var e := expenses[id];
    var mid := expenses[id := Revise(e, amount, now)];
    NextDayIsSuccessor(e.date, e.date);
    assert !OnDay(mid[id], e.user, NextDay(e.date));
    assert UniqueDays(mid);
    TouchNextDayFrame(mid, e.user, e.date, now);
  }

  /** DELETE on day d removes exactly that row; the row of d+1 (if any) gets
      only a new timestamp, every other row is unchanged. */
  lemma DeleteFrame(expenses: map<Id, Expense>, id: Id, now: nat)
    requires id in expenses && ValidDate(expenses[id].date) && UniqueDays(expenses)
    ensures var e := expenses[id];
      var after := AfterDelete(expenses, id, now);
      && after.Keys == expenses.Keys - {id}
      && (forall k :: k in after && !OnDay(expenses[k], e.user, NextDay(e.date)) ==> after[k] == expenses[k])
      && (forall k :: k in after && OnDay(expenses[k], e.user, NextDay(e.date)) ==> after[k] == Touch(expenses[k], now))
  {
    var e := expenses[id];
    var mid := expenses - {id};
    assert UniqueDays(mid);
    TouchNextDayFrame(mid, e.user, e.date, now);
  }

  /** PUT keeps the (user_id, date) constraint and keeps every row balanced. */
  lemma PutKeepsInvariants(expenses: map<Id, Expense>, id: Id, amount: real, now: nat)
    requires id in expenses && ValidDate(expenses[id].date) && UniqueDays(expenses)
    ensures UniqueDays(AfterPut(expenses, id, amount, now))
    ensures AllBalanced(expenses) ==> AllBalanced(AfterPut(expenses, id, amount, now))
  {
    PutFrame(expenses, id, amount, now);
  }

  /** DELETE keeps the (user_id, date) constraint and keeps every row
      balanced. */
  lemma DeleteKeepsInvariants(expenses: map<Id, Expense>, id: Id, now: nat)
    requires id in expenses && ValidDate(expenses[id].date) && UniqueDays(expenses)
    ensures UniqueDays(AfterDelete(expenses, id, now))
    ensures AllBalanced(expenses) ==> AllBalanced(AfterDelete(expenses, id, now))
  {
    DeleteFrame(expenses, id, now);
  }

  /** The touch is single-hop and recomputes nothing: when a PUT changes the
      remaining of day d, the next day's `cumulative_savings` keeps the old
      carry-over and no longer equals the new `remaining` of d. */
  lemma PutLeavesNextDayCarryStale(expenses: map<Id, Expense>, id: Id, n: Id, amount: real, now: nat)
    requires id in expenses && ValidDate(expenses[id].date) && UniqueDays(expenses)
    requires n in expenses && OnDay(expenses[n], expenses[id].user, NextDay(expenses[id].date))
    requires expenses[n].cumulativeSavings == expenses[id].remaining
    requires Balanced(expenses[id]) && amount != expenses[id].amountSpent
    ensures var after := AfterPut(expenses, id, amount, now);
      after[n].cumulativeSavings == expenses[n].cumulativeSavings
      && after[n].cumulativeSavings != after[id].remaining
  {
    PutFrame(expenses, id, amount, now);
  }
}
