/** The rows of the three tables the routes work on, the outcome of a route,
    and the request validation rules they share. */
module Records {
  import opened Calendar

  /** Row identifiers (UUIDs in the database) and user identifiers. */
  type Id = nat
  type UserId = nat

  datatype Option<T> = None | Some(value: T) {
    function GetOr(default: T): T {
      match this
      case Some(v) => v
      case None => default
    }
  }

  /** What a route answers: a value, a rejected request (validation failed,
      nothing looked up), or not found / not owned by the caller (the two are
      deliberately not told apart). */
  datatype Response<T> = Ok(value: T) | Rejected | NotFound

  datatype CategoryType = Spent | Savings

  /** The `type` string a client sends for a category. */
  function TypeName(t: CategoryType): string {
    match t
    case Spent => "Spent"
    case Savings => "Savings"
  }

  /** Validation of a `type` field: only "Spent" and "Savings" are accepted. */
  function ParseCategoryType(s: string): (r: Option<CategoryType>)
    ensures r.Some? <==> s == "Spent" || s == "Savings"
    ensures r.Some? ==> TypeName(r.value) == s
  {
    if s == "Spent" then Some(Spent)
    else if s == "Savings" then Some(Savings)
    else None
  }

  /** Every type name a category is written with parses back to that type. */
  lemma ParseTypeNameRoundTrip(t: CategoryType)
    ensures ParseCategoryType(TypeName(t)) == Some(t)
  {
  }

  /** A `months` row: one user's income and derived figures for one month. */
  datatype MonthRecord = MonthRecord(
    id: Id,
    user: UserId,
    month: int,
    year: int,
    income: real,
    daysInMonth: int,
    dailyAllocation: real,
    totalBudgeted: real,
    balanceAmount: real,
    updatedAt: nat)

  /** A `budget_categories` row. */
  datatype Category = Category(
    id: Id,
    user: UserId,
    monthId: Id,
    name: string,
    amount: real,
    kind: CategoryType,
    updatedAt: nat)

  /** A `daily_expenses` row. */
  datatype Expense = Expense(
    id: Id,
    user: UserId,
    monthId: Id,
    date: Date,
    amountSpent: real,
    allocatedBudget: real,
    cumulativeSavings: real,
    cumulativeBudget: real,
    remaining: real,
    updatedAt: nat)

  /** Month and year bounds the income, finance and report routes validate. */
  predicate ValidPeriod(month: int, year: int) {
    1 <= month <= 12 && 2000 <= year <= 2100
  }

  /** `isFloat({ min: 0 })` on an amount already read as a number. */
  predicate ValidAmount(a: real) {
    a >= 0.0
  }

  function MonthIdOf(m: MonthRecord): Id { m.id }
  function CategoryIdOf(c: Category): Id { c.id }
  function ExpenseIdOf(e: Expense): Id { e.id }
}
