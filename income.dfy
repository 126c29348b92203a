/** `src/routes/income.js`: the income upsert of a month record and the
    listing of a user's months. */
module IncomeRoutes {
  import opened Calendar
  import opened Records
  import opened Ordering
  import opened Months
  import opened Store

  /** Writes the month record for (user, month, year): updates the income of
      the existing record, or inserts a new one.  Shared by POST /income and
      POST /finance. */
  method UpsertMonthRecord(db: Store, user: UserId, month: int, year: int, income: real, now: nat)
    returns (m: MonthRecord)
    requires db.Valid() && ValidPeriod(month, year) && ValidAmount(income)
    modifies db
    ensures db.Valid()
    ensures db.months == UpsertMonth(old(db.months), old(db.nextId), user, month, year, income, now)
    ensures m.id == UpsertedId(old(db.months), old(db.nextId), user, month, year)
    ensures m.id in db.months && db.months[m.id] == m
    ensures PeriodId(db.months, user, month, year) == Some(m.id)
    ensures db.categories == old(db.categories) && db.expenses == old(db.expenses)
    ensures db.nextId == old(db.nextId) + (if PeriodId(old(db.months), user, month, year).Some? then 0 else 1)
  {
    UpsertFrame(db.months, db.nextId, user, month, year, income, now);
    UpsertKeepsTablesValid(db.months, db.categories, db.expenses, db.nextId, user, month, year, income, now);
    UpsertedIsFound(db.months, db.nextId, user, month, year, income, now);
    if exists id :: id in db.months && IsPeriod(db.months[id], user, month, year) {
      var id :| id in db.months && IsPeriod(db.months[id], user, month, year);
      assert PeriodId(db.months, user, month, year) == Some(id);
      m := SetIncome(db.months[id], income, now);
      db.months := db.months[id := m];
    } else {
      m := NewMonth(db.nextId, user, month, year, income, now);
      db.months := db.months[db.nextId := m];
      db.nextId := db.nextId + 1;
    }
  }

  /** POST /income: validation, then the upsert. */
  method PostIncome(db: Store, user: UserId, month: int, year: int, income: real, now: nat)
    returns (r: Response<MonthRecord>)
    requires db.Valid()
    modifies db
    ensures db.Valid()
    ensures r.Rejected? <==> !ValidPeriod(month, year) || !ValidAmount(income)
    ensures !r.NotFound?
    ensures r.Rejected? ==> db.months == old(db.months) && db.nextId == old(db.nextId)
    ensures r.Ok? ==> && db.months == UpsertMonth(old(db.months), old(db.nextId), user, month, year, income, now)
                      && r.value == db.months[UpsertedId(old(db.months), old(db.nextId), user, month, year)]
                      && r.value.income == income
                      && db.nextId == old(db.nextId) + (if PeriodId(old(db.months), user, month, year).Some? then 0 else 1)
    ensures db.categories == old(db.categories) && db.expenses == old(db.expenses)
  {
    if !ValidPeriod(month, year) || !ValidAmount(income) {
      return Rejected;
    }
    var m := UpsertMonthRecord(db, user, month, year, income, now);
    UpsertFrame(old(db.months), old(db.nextId), user, month, year, income, now);
    r := Ok(m);
  }

  /** GET /income: the user's months, latest period first. */
  method ListMonths(db: Store, user: UserId) returns (rows: seq<MonthRecord>)
    requires db.Valid()
    ensures IsListing(rows, db.months, UserMonthIds(db.months, user), MonthIdOf)
    ensures forall k :: 0 <= k < |rows| ==> rows[k].user == user
    ensures forall i, j :: 0 <= i < j < |rows| ==>
      rows[i].year > rows[j].year || (rows[i].year == rows[j].year && rows[i].month > rows[j].month)
  {
    rows := Select(db.months, UserMonthIds(db.months, user), MonthIdOf, PeriodDescKey);
    forall i, j | 0 <= i < j < |rows|
      ensures rows[i].year > rows[j].year || (rows[i].year == rows[j].year && rows[i].month > rows[j].month)
    {
      assert rows[i].id != rows[j].id;
      assert db.months[rows[i].id] == rows[i] && db.months[rows[j].id] == rows[j];
      PeriodDescKeyOrder(rows[i], rows[j]);
    }
  }
}
