/** `src/routes/finance.js`: the combined view of a month (income, saving
    goal, categories and their totals) and the combined post of an income
    with a batch of budget categories. */
module FinanceRoutes {
  import opened Records
  import opened Ordering
  import opened Totals
  import opened Months
  import opened Store
  import opened IncomeRoutes
  import opened BudgetRoutes

  /** The body of GET /finance/:month/:year. */
  datatype FinanceView = FinanceView(
    month: MonthRecord,
    savingGoal: real,
    categories: seq<Category>,
    spent: real,
    savings: real,
    total: real)

  /** The saving goal is a quarter of the income. */
  function SavingGoal(income: real): (goal: real)
    ensures income >= 0.0 ==> 0.0 <= goal <= income
    ensures goal * 4.0 == income
  {
    income * 0.25
  }

  /** GET /finance/:month/:year: validation (400), the user's record for the
      period (404 when there is none), its categories ordered by name, and
      the per-type totals and their sum. */
  method GetFinance(db: Store, user: UserId, month: int, year: int) returns (r: Response<FinanceView>)
    requires db.Valid()
    ensures r.Rejected? <==> !ValidPeriod(month, year)
    ensures r.NotFound? <==> ValidPeriod(month, year) && PeriodId(db.months, user, month, year).None?
    ensures r.Ok? ==> var v := r.value;
      && PeriodId(db.months, user, month, year) == Some(v.month.id)
      && db.months[v.month.id] == v.month
      && v.savingGoal == SavingGoal(v.month.income)
      && IsListing(v.categories, db.categories, MonthCategoryIds(db.categories, user, v.month.id), CategoryIdOf)
      && SortedBy(v.categories, NameKey)
      && v.spent == Total(OfType(v.categories, Spent))
      && v.savings == Total(OfType(v.categories, Savings))
      && v.total == Total(v.categories)
  {
    if !ValidPeriod(month, year) {
      return Rejected;
    }
    if !exists id :: id in db.months && IsPeriod(db.months[id], user, month, year) {
      return NotFound;
    }
    var id :| id in db.months && IsPeriod(db.months[id], user, month, year);
    assert PeriodId(db.months, user, month, year) == Some(id);
    var m := db.months[id];
    var rows := Select(db.categories, MonthCategoryIds(db.categories, user, m.id), CategoryIdOf, NameKey);
    var spent := Total(OfType(rows, Spent));
    var savings := Total(OfType(rows, Savings));
    PartitionTotal(rows);
    r := Ok(FinanceView(m, SavingGoal(m.income), rows, spent, savings, spent + savings));
  }

  /** One element of the `budgets` array of POST /finance. */
  datatype BudgetEntry = BudgetEntry(name: string, amount: real, kind: string)

  predicate ValidEntries(entries: seq<BudgetEntry>)
    ensures ValidEntries(entries) <==> forall j :: 0 <= j < |entries| ==>
      |entries[j].name| > 0 && entries[j].amount >= 0.0 && (entries[j].kind == "Spent" || entries[j].kind == "Savings")
  {
    forall j :: 0 <= j < |entries| ==> ValidCategoryInput(entries[j].name, entries[j].amount, entries[j].kind)
  }

  /** The rows `budgets.map(...)` prepares, numbered from `firstId`. */
  function EntryRows(firstId: Id, user: UserId, monthId: Id, entries: seq<BudgetEntry>, now: nat): (rows: seq<Category>)
    requires ValidEntries(entries)
    ensures |rows| == |entries|
    ensures forall j :: 0 <= j < |rows| ==>
      && rows[j].id == firstId + j && rows[j].user == user && rows[j].monthId == monthId
      && rows[j].name == entries[j].name && rows[j].amount == entries[j].amount
      && TypeName(rows[j].kind) == entries[j].kind
      && ValidCategory(rows[j])
    decreases |entries|
  {
    if entries == [] then []
    else
      var e := entries[0];
      [Category(firstId, user, monthId, e.name, e.amount, ParseCategoryType(e.kind).value, now)]
        + EntryRows(firstId + 1, user, monthId, entries[1..], now)
  }

  /** The rows keyed by their (distinct) ids. */
  function Keyed(rows: seq<Category>): (m: map<Id, Category>)
    requires forall i, j :: 0 <= i < j < |rows| ==> rows[i].id != rows[j].id
    ensures m.Keys == set j | 0 <= j < |rows| :: rows[j].id
    ensures forall j :: 0 <= j < |rows| ==> m[rows[j].id] == rows[j]
  {
    map j | 0 <= j < |rows| :: rows[j].id := rows[j]
  }

  /** `after` is `before` with one new category per entry, in order, each
      carrying the entry's fields, the user and the month, under its own id
      not used before; nothing else changes. */
  ghost predicate InsertsEntries(before: map<Id, Category>, after: map<Id, Category>, added: seq<Category>,
                                 user: UserId, monthId: Id, entries: seq<BudgetEntry>) {
    && |added| == |entries|
    && (forall j :: 0 <= j < |entries| ==>
          && added[j].user == user && added[j].monthId == monthId
          && added[j].name == entries[j].name && added[j].amount == entries[j].amount
          && TypeName(added[j].kind) == entries[j].kind
          && added[j].id !in before && added[j].id in after && after[added[j].id] == added[j])
    && (forall i, j :: 0 <= i < j < |entries| ==> added[i].id != added[j].id)
    && after.Keys == before.Keys + (set j | 0 <= j < |added| :: added[j].id)
    && (forall id :: id in before ==> after[id] == before[id])
  }

  /** The batch insert, numbered upwards from a counter above every
      existing id, inserts exactly the entries. */
  lemma BatchInsertsEntries(before: map<Id, Category>, firstId: Id, user: UserId, monthId: Id,
                            entries: seq<BudgetEntry>, now: nat)
    requires ValidEntries(entries)
    requires forall id :: id in before ==> id < firstId
    ensures var rows := EntryRows(firstId, user, monthId, entries, now);
      InsertsEntries(before, before + Keyed(rows), rows, user, monthId, entries)
  {
  }

  /** With no entries, nothing is inserted. */
  lemma NoEntriesInsertsNothing(before: map<Id, Category>, user: UserId, monthId: Id)
    ensures InsertsEntries(before, before, [], user, monthId, [])
  {
  }

  /** The one `insert(budgetData)` of POST /finance: the prepared rows,
      numbered from the id counter, added to the categories table. */
  method InsertEntries(db: Store, user: UserId, monthId: Id, entries: seq<BudgetEntry>, now: nat)
    returns (rows: seq<Category>)
    requires db.Valid() && OwnsMonth(db.months, user, monthId) && ValidEntries(entries)
    modifies db
    ensures db.Valid()
    ensures InsertsEntries(old(db.categories), db.categories, rows, user, monthId, entries)
    ensures db.nextId == old(db.nextId) + |entries|
    ensures db.months == old(db.months) && db.expenses == old(db.expenses)
  {
    rows := EntryRows(db.nextId, user, monthId, entries, now);
    BatchInsertsEntries(db.categories, db.nextId, user, monthId, entries, now);
    var added := Keyed(rows);
    AddCategoriesKeepTablesValid(db.months, db.categories, db.expenses, db.nextId, added, db.nextId + |rows|);
    db.categories := db.categories + added;
    db.nextId := db.nextId + |rows|;
  }

  /** The body of a successful POST /finance. */
  datatype FinancePosted = FinancePosted(month: MonthRecord, budgets: seq<Category>)

  /** POST /finance: validation of the income and of every entry (400), the
      income upsert, then one new category per entry, all tagged with the
      user and the upserted month, under fresh ids. */
  method PostFinance(db: Store, user: UserId, month: int, year: int, amount: real,
                     budgets: Option<seq<BudgetEntry>>, now: nat)
    returns (r: Response<FinancePosted>)
    requires db.Valid()
    modifies db
    ensures db.Valid()
    ensures r.Rejected? <==> !ValidPeriod(month, year) || !ValidAmount(amount) || !ValidEntries(budgets.GetOr([]))
    ensures !r.NotFound?
    ensures r.Rejected? ==> db.months == old(db.months) && db.categories == old(db.categories) && db.nextId == old(db.nextId)
    ensures r.Ok? ==> var monthId := UpsertedId(old(db.months), old(db.nextId), user, month, year);
                      var entries := budgets.GetOr([]);
      && db.months == UpsertMonth(old(db.months), old(db.nextId), user, month, year, amount, now)
      && r.value.month == db.months[monthId]
      && InsertsEntries(old(db.categories), db.categories, r.value.budgets, user, monthId, entries)
      && db.nextId == old(db.nextId) + (if PeriodId(old(db.months), user, month, year).Some? then 0 else 1) + |entries|
    ensures db.expenses == old(db.expenses)
  {
    if !ValidPeriod(month, year) || !ValidAmount(amount) || !ValidEntries(budgets.GetOr([])) {
      return Rejected;
    }
    var m := UpsertMonthRecord(db, user, month, year, amount, now);
    var rows: seq<Category> := [];
    if budgets.Some? && |budgets.value| > 0 {
      rows := InsertEntries(db, user, m.id, budgets.value, now);
    } else {
      NoEntriesInsertsNothing(db.categories, user, m.id);
    }
    r := Ok(FinancePosted(m, rows));
  }
}
