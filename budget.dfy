/** `src/routes/budget.js`: listing, creation, patching and deletion of a
    month's budget categories, and the month's budget summary. */
module BudgetRoutes {
  import opened Records
  import opened Ordering
  import opened Totals
  import opened Store

  /** GET /budget/month/:monthId: the month's categories ordered by name,
      once the month is known to be the user's. */
  method ListCategories(db: Store, user: UserId, monthId: Id) returns (r: Response<seq<Category>>)
    requires db.Valid()
    ensures !r.Rejected?
    ensures r.NotFound? <==> !OwnsMonth(db.months, user, monthId)
    ensures r.Ok? ==> && IsListing(r.value, db.categories, MonthCategoryIds(db.categories, user, monthId), CategoryIdOf)
                      && SortedBy(r.value, NameKey)
  {
    if !OwnsMonth(db.months, user, monthId) {
      return NotFound;
    }
    var rows := Select(db.categories, MonthCategoryIds(db.categories, user, monthId), CategoryIdOf, NameKey);
    r := Ok(rows);
  }

  /** The body checks of POST /budget: a non-empty name, a non-negative
      amount and a type that is one of the two names. */
  predicate ValidCategoryInput(name: string, amount: real, kind: string)
    ensures ValidCategoryInput(name, amount, kind) <==>
      |name| > 0 && amount >= 0.0 && (kind == "Spent" || kind == "Savings")
  {
    |name| > 0 && ValidAmount(amount) && ParseCategoryType(kind).Some?
  }

  /** POST /budget: validation (400), then ownership of the month (404), then
      one new row under a fresh id. */
  method CreateCategory(db: Store, user: UserId, monthId: Id, name: string, amount: real, kind: string, now: nat)
    returns (r: Response<Category>)
    requires db.Valid()
    modifies db
    ensures db.Valid()
    ensures r.Rejected? <==> !ValidCategoryInput(name, amount, kind)
    ensures r.NotFound? <==> ValidCategoryInput(name, amount, kind) && !OwnsMonth(old(db.months), user, monthId)
    ensures !r.Ok? ==> db.categories == old(db.categories) && db.nextId == old(db.nextId)
    ensures r.Ok? ==> && r.value.id == old(db.nextId) && r.value.id !in old(db.categories)
                      && r.value.user == user && r.value.monthId == monthId
                      && r.value.name == name && r.value.amount == amount
                      && TypeName(r.value.kind) == kind
                      && db.categories == old(db.categories)[r.value.id := r.value]
                      && db.nextId == old(db.nextId) + 1
    ensures db.months == old(db.months) && db.expenses == old(db.expenses)
  {
    if !ValidCategoryInput(name, amount, kind) {
      return Rejected;
    }
    if !OwnsMonth(db.months, user, monthId) {
      return NotFound;
    }
    var c := Category(db.nextId, user, monthId, name, amount, ParseCategoryType(kind).value, now);
    AddCategoryKeepsTablesValid(db.months, db.categories, db.expenses, db.nextId, c);
    db.categories := db.categories[c.id := c];
    db.nextId := db.nextId + 1;
    r := Ok(c);
  }

  /** The optional body checks of PUT /budget/:id: each field that is
      supplied must pass the same check as on creation. */
  predicate ValidPatch(name: Option<string>, amount: Option<real>, kind: Option<string>)
    ensures ValidPatch(name, amount, kind) <==>
      && (name.Some? ==> name.value != [])
      && (amount.Some? ==> amount.value >= 0.0)
      && (kind.Some? ==> kind.value == "Spent" || kind.value == "Savings")
  {
    && (name.Some? ==> |name.value| > 0)
    && (amount.Some? ==> ValidAmount(amount.value))
    && (kind.Some? ==> ParseCategoryType(kind.value).Some?)
  }

  /** The `updateData` object: the supplied fields and a new timestamp. */
  function Patch(c: Category, name: Option<string>, amount: Option<real>, kind: Option<string>, now: nat): (r: Category)
    requires ValidPatch(name, amount, kind)
    ensures r.id == c.id && r.user == c.user && r.monthId == c.monthId && r.updatedAt == now
    ensures r.name == (if name.Some? then name.value else c.name)
    ensures r.amount == (if amount.Some? then amount.value else c.amount)
    ensures kind.Some? ==> TypeName(r.kind) == kind.value
    ensures kind.None? ==> r.kind == c.kind
  {
    var kind' := if kind.Some? then ParseCategoryType(kind.value).value else c.kind;
    c.(name := name.GetOr(c.name), amount := amount.GetOr(c.amount), kind := kind', updatedAt := now)
  }

  /** A validated patch of a valid category leaves it valid. */
  lemma PatchKeepsValid(c: Category, name: Option<string>, amount: Option<real>, kind: Option<string>, now: nat)
    requires ValidCategory(c) && ValidPatch(name, amount, kind)
    ensures ValidCategory(Patch(c, name, amount, kind, now))
  {
  }

  /** A patch that supplies no field only moves the timestamp, and patching
      twice with the same fields is the same as patching once. */
  lemma PatchIdempotent(c: Category, name: Option<string>, amount: Option<real>, kind: Option<string>, now: nat)
    requires ValidPatch(name, amount, kind)
    ensures Patch(c, None, None, None, now) == c.(updatedAt := now)
    ensures Patch(Patch(c, name, amount, kind, now), name, amount, kind, now) == Patch(c, name, amount, kind, now)
  {
    var once := Patch(c, name, amount, kind, now);
    if kind.Some? {
      ParseTypeNameRoundTrip(once.kind);
    }
  }

  predicate OwnsCategory(categories: map<Id, Category>, user: UserId, id: Id) {
    id in categories && categories[id].user == user
  }

  /** PUT /budget/:id: validation (400), then ownership (404), then the patch
      of that one row. */
  method UpdateCategory(db: Store, user: UserId, id: Id, name: Option<string>, amount: Option<real>,
                        kind: Option<string>, now: nat)
    returns (r: Response<Category>)
    requires db.Valid()
    modifies db
    ensures db.Valid()
    ensures r.Rejected? <==> !ValidPatch(name, amount, kind)
    ensures r.NotFound? <==> ValidPatch(name, amount, kind) && !OwnsCategory(old(db.categories), user, id)
    ensures !r.Ok? ==> db.categories == old(db.categories)
    ensures r.Ok? ==> && r.value == Patch(old(db.categories)[id], name, amount, kind, now)
                      && db.categories == old(db.categories)[id := r.value]
    ensures db.months == old(db.months) && db.expenses == old(db.expenses) && db.nextId == old(db.nextId)
  {
    if !ValidPatch(name, amount, kind) {
      return Rejected;
    }
    if !OwnsCategory(db.categories, user, id) {
      return NotFound;
    }
    var c := Patch(db.categories[id], name, amount, kind, now);
    PatchKeepsValid(db.categories[id], name, amount, kind, now);
    ReplaceCategoryKeepsTablesValid(db.months, db.categories, db.expenses, db.nextId, c);
    db.categories := db.categories[id := c];
    r := Ok(c);
  }

  /** DELETE /budget/:id: ownership (404), then removal of that one row. */
  method DeleteCategory(db: Store, user: UserId, id: Id) returns (r: Response<()>)
    requires db.Valid()
    modifies db
    ensures db.Valid()
    ensures !r.Rejected?
    ensures r.NotFound? <==> !OwnsCategory(old(db.categories), user, id)
    ensures r.NotFound? ==> db.categories == old(db.categories)
    ensures r.Ok? ==> db.categories == old(db.categories) - {id} && id in old(db.categories)
    ensures db.months == old(db.months) && db.expenses == old(db.expenses) && db.nextId == old(db.nextId)
  {
    if !OwnsCategory(db.categories, user, id) {
      return NotFound;
    }
    db.categories := db.categories - {id};
    r := Ok(());
  }

  /** The body of GET /budget/summary/:monthId. */
  datatype BudgetSummary = BudgetSummary(
    income: real,
    totalBudgeted: real,
    balanceAmount: real,
    dailyAllocation: real,
    daysInMonth: int,
    spentCategories: real,
    savingsCategories: real)

  /** Whatever order the month's categories come in, the per-type totals are
      the same, they split the total of all categories, and (amounts being
      validated) neither is negative. */
  lemma ListingTotals(categories: map<Id, Category>, ids: set<Id>, fetched: seq<Category>, rows: seq<Category>)
    requires IsListing(fetched, categories, ids, CategoryIdOf) && IsListing(rows, categories, ids, CategoryIdOf)
    requires forall id :: id in categories ==> ValidCategory(categories[id])
    ensures Total(OfType(rows, Spent)) == Total(OfType(fetched, Spent))
    ensures Total(OfType(rows, Savings)) == Total(OfType(fetched, Savings))
    ensures Total(OfType(rows, Spent)) + Total(OfType(rows, Savings)) == Total(rows)
    ensures Total(OfType(rows, Spent)) >= 0.0 && Total(OfType(rows, Savings)) >= 0.0
  {
    ListingsArePermutations(rows, fetched, categories, ids, CategoryIdOf);
    TypeTotalPermutation(rows, fetched, Spent);
    TypeTotalPermutation(rows, fetched, Savings);
    PartitionTotal(rows);
    TypeTotalNonNegative(categories, ids, rows, Spent);
    TypeTotalNonNegative(categories, ids, rows, Savings);
  }

  /** A listing of validated categories has a non-negative total per type. */
  lemma TypeTotalNonNegative(categories: map<Id, Category>, ids: set<Id>, rows: seq<Category>, t: CategoryType)
    requires IsListing(rows, categories, ids, CategoryIdOf)
    requires forall id :: id in categories ==> ValidCategory(categories[id])
    ensures Total(OfType(rows, t)) >= 0.0
  {
    var typed := OfType(rows, t);
    forall i | 0 <= i < |typed|
      ensures typed[i].amount >= 0.0
    {
      assert typed[i] in rows;
      var k :| 0 <= k < |rows| && rows[k] == typed[i];
      assert categories[CategoryIdOf(rows[k])] == rows[k];
    }
    TotalNonNegative(typed);
  }

  /** GET /budget/summary/:monthId: the month's own figures, and the Spent
      and Savings totals of its categories.  The categories come unordered,
      so the totals are stated for every listing of them. */
  method GetBudgetSummary(db: Store, user: UserId, monthId: Id) returns (r: Response<BudgetSummary>)
    requires db.Valid()
    ensures !r.Rejected?
    ensures r.NotFound? <==> !OwnsMonth(db.months, user, monthId)
    ensures r.Ok? ==> var m := db.months[monthId];
      && r.value.income == m.income && r.value.totalBudgeted == m.totalBudgeted
      && r.value.balanceAmount == m.balanceAmount && r.value.dailyAllocation == m.dailyAllocation
      && r.value.daysInMonth == m.daysInMonth
    ensures r.Ok? ==> forall rows :: IsListing(rows, db.categories, MonthCategoryIds(db.categories, user, monthId), CategoryIdOf) ==>
      && r.value.spentCategories == Total(OfType(rows, Spent))
      && r.value.savingsCategories == Total(OfType(rows, Savings))
      && r.value.spentCategories + r.value.savingsCategories == Total(rows)
      && r.value.spentCategories >= 0.0 && r.value.savingsCategories >= 0.0
  {
    if !OwnsMonth(db.months, user, monthId) {
      return NotFound;
    }
    var ids := MonthCategoryIds(db.categories, user, monthId);
    var fetched := Select(db.categories, ids, CategoryIdOf, NameKey);
    var m := db.months[monthId];
    var spent := Total(OfType(fetched, Spent));
    var savings := Total(OfType(fetched, Savings));
    forall rows | IsListing(rows, db.categories, ids, CategoryIdOf)
      ensures spent == Total(OfType(rows, Spent)) && savings == Total(OfType(rows, Savings))
      ensures spent + savings == Total(rows)
      ensures spent >= 0.0 && savings >= 0.0
    {
      ListingTotals(db.categories, ids, fetched, rows);
    }
    r := Ok(BudgetSummary(m.income, m.totalBudgeted, m.balanceAmount, m.dailyAllocation, m.daysInMonth,
                          spent, savings));
  }
}
