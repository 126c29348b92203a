/** `get-monthly-summary.js`: the monthly summary computed from four queries
    on the client side.  Each query's answer is a parameter that is either
    the fetched rows or a failure; any failure, or a missing month record,
    yields no report. */
module MonthlySummary {
  import opened Records
  import opened Totals
  import opened Months
  import opened Reports

  /** The answer of one query. */
  datatype Fetch<T> = Fetched(value: T) | Failed

  /** The month record as the script reads it: `income` and `balance_amount`
      may be null. */
  datatype MonthRow = MonthRow(
    id: Id,
    income: Option<real>,
    dailyAllocation: real,
    daysInMonth: int,
    balanceAmount: Option<real>)

  /** A stored record, read back with every column present. */
  function RowOf(m: MonthRecord): MonthRow {
    MonthRow(m.id, Some(m.income), m.dailyAllocation, m.daysInMonth, Some(m.balanceAmount))
  }

  datatype Summary = Summary(
    month: int, year: int,
    totalIncome: real,
    totalSavings: real,
    totalSpent: real,
    totalDailyAllocation: real,
    totalRemaining: real,
    cumulativeSavings: real)

  /** The report for (month, year) from the month query, the Savings and the
      Spent category queries (both over the month's categories, each
      filtered by its type) and the expense query of the month. */
  function SummaryOf(month: int, year: int, monthRow: Fetch<Option<MonthRow>>,
                     savingsRows: Fetch<seq<Category>>, spentRows: Fetch<seq<Category>>,
                     expenses: Fetch<seq<Expense>>): (r: Option<Summary>)
    ensures r.None? <==> || monthRow.Failed? || monthRow.value.None?
                         || savingsRows.Failed? || spentRows.Failed? || expenses.Failed?
    ensures r.Some? ==> var m := monthRow.value.value; var s := r.value;
      && s.month == month && s.year == year
      && s.totalIncome == OrZero(m.income)
      && s.totalSavings == Total(OfType(savingsRows.value, Savings))
      && s.totalSpent == Total(OfType(spentRows.value, Spent))
      && s.totalDailyAllocation == m.dailyAllocation * m.daysInMonth as real
      && s.totalRemaining == OrZero(m.balanceAmount)
      && s.cumulativeSavings == LatestRemaining(expenses.value)
  {
    match monthRow
    case Failed => None
    case Fetched(None) => None
    case Fetched(Some(m)) =>
      match (savingsRows, spentRows, expenses)
      case (Fetched(savings), Fetched(spent), Fetched(days)) =>
        Some(Summary(month, year, OrZero(m.income), Total(OfType(savings, Savings)), Total(OfType(spent, Spent)),
                     m.dailyAllocation * m.daysInMonth as real, OrZero(m.balanceAmount), LatestRemaining(days)))
      case _ => None
  }

  /** When both category queries read the same rows of the month (in any
      order), the Savings and Spent totals together are the month's whole
      budget. */
  lemma SummarySplitsBudget(month: int, year: int, m: MonthRow, cats: seq<Category>,
                            savings: seq<Category>, spent: seq<Category>, days: seq<Expense>)
    requires multiset(savings) == multiset(cats) && multiset(spent) == multiset(cats)
    ensures var r := SummaryOf(month, year, Fetched(Some(m)), Fetched(savings), Fetched(spent), Fetched(days));
      r.Some? && r.value.totalSavings + r.value.totalSpent == Total(cats)
  {
    TypeTotalPermutation(savings, cats, Savings);
    TypeTotalPermutation(spent, cats, Spent);
    PartitionTotal(cats);
  }

  /** For a record the upsert has just created (and the allocation not yet
      recomputed), the summary shows the income, nothing allocated per day,
      and the whole income still remaining. */
  lemma SummaryOfNewMonth(id: Id, user: UserId, month: int, year: int, income: real, now: nat,
                          savings: seq<Category>, spent: seq<Category>, days: seq<Expense>)
    requires 1 <= month <= 12
    ensures var m := NewMonth(id, user, month, year, income, now);
      var r := SummaryOf(month, year, Fetched(Some(RowOf(m))), Fetched(savings), Fetched(spent), Fetched(days));
      && r.Some?
      && r.value.totalIncome == income
      && r.value.totalDailyAllocation == 0.0
      && r.value.totalRemaining == income
  {
  }
}
