/** The `months` table as a value: lookup by (user, month, year) and the
    upsert shared by `src/routes/income.js` and `src/routes/finance.js`. */
module Months {
  import opened Calendar
  import opened Records

  predicate IsPeriod(m: MonthRecord, user: UserId, month: int, year: int) {
    m.user == user && m.month == month && m.year == year
  }

  /** The unique constraint on (user_id, month, year). */
  ghost predicate UniquePeriods(months: map<Id, MonthRecord>) {
    forall a, b ::
      a in months && b in months && IsPeriod(months[b], months[a].user, months[a].month, months[a].year)
      ==> a == b
  }

  /** The id of the user's record for (month, year), if there is one. */
  ghost function PeriodId(months: map<Id, MonthRecord>, user: UserId, month: int, year: int): (r: Option<Id>)
    ensures r.Some? ==> r.value in months && IsPeriod(months[r.value], user, month, year)
    ensures r.None? ==> forall id :: id in months ==> !IsPeriod(months[id], user, month, year)
  {
    if exists id :: id in months && IsPeriod(months[id], user, month, year) then
      var id :| id in months && IsPeriod(months[id], user, month, year);
      Some(id)
    else
      None
  }

  /** The record a first income post creates. */
  function NewMonth(id: Id, user: UserId, month: int, year: int, income: real, now: nat): (m: MonthRecord)
    requires 1 <= month <= 12
    ensures IsPeriod(m, user, month, year) && m.id == id && m.income == income
    ensures m.daysInMonth == DaysInMonth(month, year)
    ensures m.dailyAllocation == 0.0 && m.totalBudgeted == 0.0 && m.balanceAmount == income
  {
    MonthRecord(id, user, month, year, income, MonthLength(month, year), 0.0, 0.0, income, now)
  }

  /** A later income post: `update({ income, updated_at })`. */
  function SetIncome(m: MonthRecord, income: real, now: nat): (r: MonthRecord)
    ensures r.income == income && r.updatedAt == now
    ensures r.(income := m.income, updatedAt := m.updatedAt) == m
  {
    m.(income := income, updatedAt := now)
  }

  /** The table after an income upsert for (user, month, year). */
  ghost function UpsertMonth(months: map<Id, MonthRecord>, freshId: Id, user: UserId,
                             month: int, year: int, income: real, now: nat): (after: map<Id, MonthRecord>)
    requires 1 <= month <= 12
    ensures var id := UpsertedId(months, freshId, user, month, year);
      && after.Keys == months.Keys + {id}
      && IsPeriod(after[id], user, month, year) && after[id].income == income
      && (forall k :: k in months && k != id ==> after[k] == months[k])
  {
    match PeriodId(months, user, month, year)
    case Some(id) => months[id := SetIncome(months[id], income, now)]
    case None => months[freshId := NewMonth(freshId, user, month, year, income, now)]
  }

  /** The id of the record the upsert writes. */
  ghost function UpsertedId(months: map<Id, MonthRecord>, freshId: Id, user: UserId, month: int, year: int): Id {
    match PeriodId(months, user, month, year)
    case Some(id) => id
    case None => freshId
  }

  /** The upsert writes exactly one record, the one for (user, month, year):
      an existing record gets only the new income and timestamp, otherwise a
      new record with the initial derived fields is added; every other
      record is unchanged. */
  lemma UpsertFrame(months: map<Id, MonthRecord>, freshId: Id, user: UserId,
                    month: int, year: int, income: real, now: nat)
    requires 1 <= month <= 12 && freshId !in months
    ensures var after := UpsertMonth(months, freshId, user, month, year, income, now);
      var id := UpsertedId(months, freshId, user, month, year);
      && after.Keys == months.Keys + {id}
      && (forall k :: k in months && k != id ==> after[k] == months[k])
      && IsPeriod(after[id], user, month, year)
      && after[id].income == income
      && (id in months ==> after[id] == SetIncome(months[id], income, now))
      && (id !in months ==> after[id] == NewMonth(freshId, user, month, year, income, now))
  {
  }

  /** The upsert never creates a second record for a period. */
  lemma UpsertKeepsUniquePeriods(months: map<Id, MonthRecord>, freshId: Id, user: UserId,
                                 month: int, year: int, income: real, now: nat)
    requires 1 <= month <= 12 && freshId !in months
    requires UniquePeriods(months)
    ensures UniquePeriods(UpsertMonth(months, freshId, user, month, year, income, now))
  {
  }

  /** After the upsert, the period's record is the one written. */
  lemma UpsertedIsFound(months: map<Id, MonthRecord>, freshId: Id, user: UserId,
                        month: int, year: int, income: real, now: nat)
    requires 1 <= month <= 12 && freshId !in months
    requires UniquePeriods(months)
    ensures var after := UpsertMonth(months, freshId, user, month, year, income, now);
      PeriodId(after, user, month, year) == Some(UpsertedId(months, freshId, user, month, year))
  {
    UpsertFrame(months, freshId, user, month, year, income, now);
    UpsertKeepsUniquePeriods(months, freshId, user, month, year, income, now);
  }

  /** Posting the same income twice is idempotent up to the timestamp: the
      second upsert, at any later instant, finds the first one's record and
      only moves its `updated_at`; the table keeps one record for the period,
      with the same income. */
  lemma {:induction false} UpsertIdempotent(months: map<Id, MonthRecord>, freshId: Id, freshId2: Id,
                                            user: UserId, month: int, year: int, income: real,
                                            now: nat, now2: nat)
    requires 1 <= month <= 12 && freshId !in months
    requires UniquePeriods(months)
    ensures var once := UpsertMonth(months, freshId, user, month, year, income, now);
      var id := UpsertedId(months, freshId, user, month, year);
      UpsertMonth(once, freshId2, user, month, year, income, now2) == once[id := once[id].(updatedAt := now2)]
  {
    var once := UpsertMonth(months, freshId, user, month, year, income, now);
    var id := UpsertedId(months, freshId, user, month, year);
    UpsertedIsFound(months, freshId, user, month, year, income, now);
    UpsertFrame(months, freshId, user, month, year, income, now);
    assert once[id].income == income;
    assert SetIncome(once[id], income, now2) == once[id].(updatedAt := now2);
  }
}
