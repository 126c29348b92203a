/** The database the routes share, held in memory: the `months`,
    `budget_categories` and `daily_expenses` tables keyed by row id, the
    constraints the routes keep on them, and the ordered selection that
    stands for `select ... order(...)`. */
module Store {
  import opened Calendar
  import opened Records
  import opened Ordering
  import opened Months
  import opened Recurrence

  predicate OwnsMonth(months: map<Id, MonthRecord>, user: UserId, monthId: Id) {
    monthId in months && months[monthId].user == user
  }

  /** A category as the validation rules admit it. */
  predicate ValidCategory(c: Category) {
    |c.name| > 0 && ValidAmount(c.amount)
  }

  /** Month records are stored under their own id, below the counter, with a
      validated period and income. */
  ghost predicate MonthsValid(months: map<Id, MonthRecord>, nextId: Id) {
    forall id :: id in months ==>
      months[id].id == id && id < nextId && ValidPeriod(months[id].month, months[id].year)
      && ValidAmount(months[id].income)
  }

  /** Categories are stored under their own id, below the counter, passed
      validation and belong to a month of their own user. */
  ghost predicate CategoriesValid(months: map<Id, MonthRecord>, categories: map<Id, Category>, nextId: Id) {
    forall id :: id in categories ==>
      categories[id].id == id && id < nextId && ValidCategory(categories[id])
      && OwnsMonth(months, categories[id].user, categories[id].monthId)
  }

  /** Expenses are stored under their own id, below the counter, carry a
      calendar date and a validated amount, and belong to a month of their
      own user. */
  ghost predicate ExpensesValid(months: map<Id, MonthRecord>, expenses: map<Id, Expense>, nextId: Id) {
    forall id :: id in expenses ==>
      expenses[id].id == id && id < nextId && ValidDate(expenses[id].date)
      && ValidAmount(expenses[id].amountSpent)
      && OwnsMonth(months, expenses[id].user, expenses[id].monthId)
  }

  /** What every route relies on and keeps: the three tables as above, and
      (user, month, year) and (user, date) are unique. */
  ghost predicate TablesValid(months: map<Id, MonthRecord>, categories: map<Id, Category>,
                              expenses: map<Id, Expense>, nextId: Id) {
    && MonthsValid(months, nextId)
    && UniquePeriods(months)
    && CategoriesValid(months, categories, nextId)
    && ExpensesValid(months, expenses, nextId)
    && UniqueDays(expenses)
  }

  class Store {
    var months: map<Id, MonthRecord>
    var categories: map<Id, Category>
    var expenses: map<Id, Expense>
    var nextId: Id

    ghost predicate Valid()
      reads this
    {
      TablesValid(months, categories, expenses, nextId)
    }

    constructor ()
      ensures Valid()
      ensures months == map[] && categories == map[] && expenses == map[]
    {
      months, categories, expenses, nextId := map[], map[], map[], 0;
    }
  }

  /** The income upsert keeps the tables valid; it takes a fresh id only
      when it inserts. */
  lemma UpsertKeepsTablesValid(months: map<Id, MonthRecord>, categories: map<Id, Category>,
                               expenses: map<Id, Expense>, nextId: Id,
                               user: UserId, month: int, year: int, income: real, now: nat)
    requires TablesValid(months, categories, expenses, nextId) && ValidPeriod(month, year)
    requires ValidAmount(income)
    ensures var after := UpsertMonth(months, nextId, user, month, year, income, now);
      && (PeriodId(months, user, month, year).Some? ==> TablesValid(after, categories, expenses, nextId))
      && (PeriodId(months, user, month, year).None? ==> TablesValid(after, categories, expenses, nextId + 1))
  {
    var after := UpsertMonth(months, nextId, user, month, year, income, now);
    UpsertFrame(months, nextId, user, month, year, income, now);
    UpsertKeepsUniquePeriods(months, nextId, user, month, year, income, now);
    var nextId' := if PeriodId(months, user, month, year).Some? then nextId else nextId + 1;
    var id := UpsertedId(months, nextId, user, month, year);
    assert id < nextId';
    assert MonthsValid(after, nextId');
    MonthsGrow(months, after, categories, expenses, nextId, nextId');
  }

  /** Keeping every month record with its owner, and raising the counter,
      keeps the categories and expenses valid. */
  lemma MonthsGrow(months: map<Id, MonthRecord>, after: map<Id, MonthRecord>, categories: map<Id, Category>,
                   expenses: map<Id, Expense>, nextId: Id, nextId': Id)
    requires CategoriesValid(months, categories, nextId) && ExpensesValid(months, expenses, nextId)
    requires nextId <= nextId'
    requires forall id :: id in months ==> id in after && after[id].user == months[id].user
    ensures CategoriesValid(after, categories, nextId') && ExpensesValid(after, expenses, nextId')
  {
  }

  /** Adding a validated category of a month the user owns, under a fresh id. */
  lemma AddCategoriesKeepTablesValid(months: map<Id, MonthRecord>, categories: map<Id, Category>,
                                     expenses: map<Id, Expense>, nextId: Id, added: map<Id, Category>, nextId': Id)
    requires TablesValid(months, categories, expenses, nextId)
    requires nextId <= nextId'
    requires forall id :: id in added ==>
      && added[id].id == id && nextId <= id < nextId' && ValidCategory(added[id])
      && OwnsMonth(months, added[id].user, added[id].monthId)
    ensures TablesValid(months, categories + added, expenses, nextId')
  {
  }

  /** Adding one validated category of an owned month under the next id. */
  lemma AddCategoryKeepsTablesValid(months: map<Id, MonthRecord>, categories: map<Id, Category>,
                                    expenses: map<Id, Expense>, nextId: Id, c: Category)
    requires TablesValid(months, categories, expenses, nextId)
    requires c.id == nextId && ValidCategory(c) && OwnsMonth(months, c.user, c.monthId)
    ensures TablesValid(months, categories[c.id := c], expenses, nextId + 1)
  {
    AddCategoriesKeepTablesValid(months, categories, expenses, nextId, map[c.id := c], nextId + 1);
    assert categories + map[c.id := c] == categories[c.id := c];
  }

  /** Rewriting a category in place, keeping its owner and month. */
  lemma ReplaceCategoryKeepsTablesValid(months: map<Id, MonthRecord>, categories: map<Id, Category>,
                                        expenses: map<Id, Expense>, nextId: Id, c: Category)
    requires TablesValid(months, categories, expenses, nextId)
    requires c.id in categories && ValidCategory(c)
    requires c.user == categories[c.id].user && c.monthId == categories[c.id].monthId
    ensures TablesValid(months, categories[c.id := c], expenses, nextId)
  {
  }

  /** POST /expenses keeps the tables valid; it takes a fresh id only when
      the day has no row yet. */
  lemma PostKeepsTablesValid(months: map<Id, MonthRecord>, categories: map<Id, Category>,
                             expenses: map<Id, Expense>, nextId: Id, user: UserId, monthId: Id,
                             date: Date, amount: real, allocation: real, now: nat)
    requires TablesValid(months, categories, expenses, nextId)
    requires ValidDate(date) && ValidAmount(amount) && OwnsMonth(months, user, monthId)
    ensures var after := AfterPost(expenses, nextId, user, monthId, date, amount, allocation, now);
      && (DayId(expenses, user, date).Some? ==> TablesValid(months, categories, after, nextId))
      && (DayId(expenses, user, date).None? ==> TablesValid(months, categories, after, nextId + 1))
  {
    PostKeepsUniqueDays(expenses, nextId, user, monthId, date, amount, allocation, now);
    if DayId(expenses, user, date).Some? {
      PostOnExistingDay(expenses, nextId, user, monthId, date, amount, allocation, now);
    } else {
      PostInsertsNewDay(expenses, nextId, user, monthId, date, amount, allocation, now);
    }
  }

  /** PUT /expenses/:id keeps the tables valid. */
  lemma PutKeepsTablesValid(months: map<Id, MonthRecord>, categories: map<Id, Category>,
                            expenses: map<Id, Expense>, nextId: Id, id: Id, amount: real, now: nat)
    requires TablesValid(months, categories, expenses, nextId)
    requires id in expenses && ValidAmount(amount)
    ensures TablesValid(months, categories, AfterPut(expenses, id, amount, now), nextId)
  {
    PutFrame(expenses, id, amount, now);
    PutKeepsInvariants(expenses, id, amount, now);
  }

  /** DELETE /expenses/:id keeps the tables valid. */
  lemma DeleteKeepsTablesValid(months: map<Id, MonthRecord>, categories: map<Id, Category>,
                               expenses: map<Id, Expense>, nextId: Id, id: Id, now: nat)
    requires TablesValid(months, categories, expenses, nextId)
    requires id in expenses
    ensures TablesValid(months, categories, AfterDelete(expenses, id, now), nextId)
  {
    DeleteFrame(expenses, id, now);
    DeleteKeepsInvariants(expenses, id, now);
  }

  // ---------------------------------------------------------------------
  // Ordered selection

  /** `rows` holds the rows of `table` whose ids are in `ids`, each exactly
      once. */
  ghost predicate IsListing<T>(rows: seq<T>, table: map<Id, T>, ids: set<Id>, idOf: T -> Id) {
    && DistinctBy(rows, idOf)
    && (forall k :: 0 <= k < |rows| ==>
          idOf(rows[k]) in ids && idOf(rows[k]) in table && table[idOf(rows[k])] == rows[k])
    && (forall id :: id in ids && id in table ==> table[id] in rows)
  }

  /** The selected rows of `table`, ordered by `key`. */
  method Select<T>(table: map<Id, T>, ids: set<Id>, idOf: T -> Id, key: T -> seq<real>)
    returns (rows: seq<T>)
    requires ids <= table.Keys
    requires forall id :: id in table ==> idOf(table[id]) == id
    ensures IsListing(rows, table, ids, idOf)
    ensures SortedBy(rows, key)
  {
    rows := [];
    var todo := ids;
    while todo != {}
      invariant todo <= ids
      invariant SortedBy(rows, key) && DistinctBy(rows, idOf)
      invariant forall y :: y in rows ==> idOf(y) in ids - todo && table[idOf(y)] == y
      invariant forall id :: id in ids - todo ==> table[id] in rows
      decreases todo
    {
      var id :| id in todo;
      var row := table[id];
      InsertKeepsSorted(rows, row, key);
      InsertKeepsDistinct(rows, row, key, idOf);
      InsertMembers(rows, row, key);
      rows := Insert(rows, row, key);
      todo := todo - {id};
    }
  }

  /** In a sequence without repeated ids, every row occurs at most once. */
  lemma {:induction false} DistinctCount<T>(s: seq<T>, idOf: T -> Id, x: T)
    requires DistinctBy(s, idOf)
    ensures multiset(s)[x] == if x in s then 1 else 0
  {
    if s != [] {
      assert s == [s[0]] + s[1..];
      assert DistinctBy(s[1..], idOf);
      DistinctCount(s[1..], idOf, x);
      if x == s[0] {
        assert forall k :: 1 <= k < |s| ==> idOf(s[k]) != idOf(s[0]);
        assert x !in s[1..];
      }
    }
  }

  /** Two listings of the same rows differ only in order. */
  lemma ListingsArePermutations<T>(a: seq<T>, b: seq<T>, table: map<Id, T>, ids: set<Id>, idOf: T -> Id)
    requires IsListing(a, table, ids, idOf) && IsListing(b, table, ids, idOf)
    ensures multiset(a) == multiset(b)
  {
    forall x
      ensures multiset(a)[x] == multiset(b)[x]
    {
      DistinctCount(a, idOf, x);
      DistinctCount(b, idOf, x);
      if x in a {
        var k :| 0 <= k < |a| && a[k] == x;
      }
      if x in b {
        var k :| 0 <= k < |b| && b[k] == x;
      }
    }
  }

  // ---------------------------------------------------------------------
  // The row sets and orders the routes query

  function UserMonthIds(months: map<Id, MonthRecord>, user: UserId): set<Id> {
    set id | id in months && months[id].user == user
  }

  function MonthCategoryIds(categories: map<Id, Category>, user: UserId, monthId: Id): set<Id> {
    set id | id in categories && categories[id].user == user && categories[id].monthId == monthId
  }

  function MonthExpenseIds(expenses: map<Id, Expense>, user: UserId, monthId: Id): set<Id> {
    set id | id in expenses && expenses[id].user == user && expenses[id].monthId == monthId
  }

  /** `order('date')`. */
  function DateKey(e: Expense): seq<real> {
    [e.date.year as real, e.date.month as real, e.date.day as real]
  }

  /** `order('year', { ascending: false }).order('month', { ascending: false })`. */
  function PeriodDescKey(m: MonthRecord): seq<real> {
    [-(m.year as real), -(m.month as real)]
  }

  /** `order('name')`, by character code. */
  function NameKey(c: Category): seq<real> {
    seq(|c.name|, i requires 0 <= i < |c.name| => c.name[i] as int as real)
  }

  /** `order('amount', { ascending: false })`. */
  function AmountDescKey(c: Category): seq<real> {
    [-c.amount]
  }

  /** Date keys order rows of different dates chronologically. */
  lemma DateKeyOrder(a: Expense, b: Expense)
    requires LexLe(DateKey(a), DateKey(b)) && a.date != b.date
    ensures Before(a.date, b.date)
  {
    var ka, kb := DateKey(a), DateKey(b);
    assert ka[1..] == [a.date.month as real, a.date.day as real];
    assert kb[1..] == [b.date.month as real, b.date.day as real];
    assert ka[1..][1..] == [a.date.day as real];
    assert kb[1..][1..] == [b.date.day as real];
    if a.date.year == b.date.year {
      assert LexLe(ka[1..], kb[1..]);
      if a.date.month == b.date.month {
        assert LexLe(ka[1..][1..], kb[1..][1..]);
      }
    }
  }

  /** Descending period keys order records of different periods latest first. */
  lemma PeriodDescKeyOrder(a: MonthRecord, b: MonthRecord)
    requires LexLe(PeriodDescKey(a), PeriodDescKey(b))
    requires a.year != b.year || a.month != b.month
    ensures a.year > b.year || (a.year == b.year && a.month > b.month)
  {
    var ka, kb := PeriodDescKey(a), PeriodDescKey(b);
    assert ka[1..] == [-(a.month as real)];
    assert kb[1..] == [-(b.month as real)];
  }

  /** Descending amount keys order categories by amount, largest first. */
  lemma AmountDescKeyOrder(a: Category, b: Category)
    requires LexLe(AmountDescKey(a), AmountDescKey(b))
    ensures a.amount >= b.amount
  {
  }
}
