/** `src/routes/report.js`: the four report routes.  Each is a pure fold over
    the rows its queries fetch; the fetched rows (and the month record, when
    there is one) are the parameters, and the filters and orders the queries
    ask the database for are applied here. */
module Reports {
  import opened Calendar
  import opened Records
  import opened Ordering
  import opened Totals
  import opened Recurrence
  import opened Store

  // ---------------------------------------------------------------------
  // The latest day of a month

  /** The row `order('date', { ascending: false }).limit(1)` returns. */
  function Latest(expenses: seq<Expense>): (r: Option<Expense>)
    ensures r.None? <==> expenses == []
    ensures r.Some? ==> r.value in expenses && forall e :: e in expenses ==> !Before(r.value.date, e.date)
    decreases |expenses|
  {
    if expenses == [] then None
    else
      match Latest(expenses[1..])
      case None => Some(expenses[0])
      case Some(l) => if Before(expenses[0].date, l.date) then Some(l) else Some(expenses[0])
  }

  /** `lastDayExpense ? parseFloat(lastDayExpense.remaining) : 0`. */
  function LatestRemaining(expenses: seq<Expense>): (r: real)
    ensures expenses == [] ==> r == 0.0
    ensures expenses != [] ==>
      exists l :: l in expenses && r == l.remaining && forall e :: e in expenses ==> !Before(l.date, e.date)
  {
    match Latest(expenses)
    case Some(e) => e.remaining
    case None => 0.0
  }

  predicate DistinctDates(expenses: seq<Expense>) {
    forall i, j :: 0 <= i < j < |expenses| ==> expenses[i].date != expenses[j].date
  }

  lemma SameDateSameRow(expenses: seq<Expense>, a: Expense, b: Expense)
    requires DistinctDates(expenses) && a in expenses && b in expenses && a.date == b.date
    ensures a == b
  {
    var i :| 0 <= i < |expenses| && expenses[i] == a;
    var j :| 0 <= j < |expenses| && expenses[j] == b;
  }

  /** With one row per date (as the (user_id, date) constraint gives for a
      user's month), the latest row is the only row no other row follows. */
  lemma LatestIsOnlyMaximum(expenses: seq<Expense>, x: Expense)
    requires DistinctDates(expenses)
    requires x in expenses && forall e :: e in expenses ==> !Before(x.date, e.date)
    ensures Latest(expenses) == Some(x)
  {
    var l := Latest(expenses).value;
    assert x.date == l.date;
    SameDateSameRow(expenses, x, l);
  }

  /** The latest `remaining` does not depend on the order the rows came in. */
  lemma LatestRemainingOrderFree(a: seq<Expense>, b: seq<Expense>)
    requires DistinctDates(a) && DistinctDates(b) && multiset(a) == multiset(b)
    ensures LatestRemaining(a) == LatestRemaining(b)
  {
    if a != [] {
      var l := Latest(a).value;
      assert l in multiset(b);
      forall e | e in b
        ensures !Before(l.date, e.date)
      {
        assert e in multiset(a);
      }
      LatestIsOnlyMaximum(b, l);
    } else {
      assert |b| == |multiset(b)| == 0;
    }
  }

  /** The expenses a month query returns for one user have one row per date,
      by the (user_id, date) constraint. */
  lemma MonthListingHasDistinctDates(expenses: map<Id, Expense>, rows: seq<Expense>, user: UserId, monthId: Id)
    requires UniqueDays(expenses)
    requires IsListing(rows, expenses, MonthExpenseIds(expenses, user, monthId), ExpenseIdOf)
    ensures DistinctDates(rows)
  {
    forall i, j | 0 <= i < j < |rows|
      ensures rows[i].date != rows[j].date
    {
      assert rows[i].id != rows[j].id;
      assert expenses[rows[i].id] == rows[i] && expenses[rows[j].id] == rows[j];
    }
  }

  // ---------------------------------------------------------------------
  // GET /monthly/:month/:year

  /** The row the `get_monthly_summary` stored procedure returns; its fields
      may be null. */
  datatype SummaryRow = SummaryRow(
    totalIncome: Option<real>,
    totalSavings: Option<real>,
    totalSpent: Option<real>,
    totalDailyAllocation: Option<real>,
    totalRemaining: Option<real>,
    cumulativeSavings: Option<real>)

  datatype MonthlyReport = MonthlyReport(
    month: int, year: int,
    totalIncome: real, totalSavings: real, totalSpent: real,
    totalDailyAllocation: real, totalRemaining: real, cumulativeSavings: real)

  /** `parseFloat(x || 0)`. */
  function OrZero(x: Option<real>): (r: real)
    ensures x.None? ==> r == 0.0
    ensures x.Some? ==> r == x.value
  {
    x.GetOr(0.0)
  }

  /** The route's answer for the procedure's result `data`: 404 without data,
      otherwise every field with a missing value read as 0. */
  function MonthlyReportOf(month: int, year: int, data: Option<SummaryRow>): (r: Response<MonthlyReport>)
    ensures r.Rejected? <==> !ValidPeriod(month, year)
    ensures r.NotFound? <==> ValidPeriod(month, year) && data.None?
    ensures r.Ok? ==> var d := data.value;
      && r.value.month == month && r.value.year == year
      && r.value.totalIncome == OrZero(d.totalIncome) && r.value.totalSavings == OrZero(d.totalSavings)
      && r.value.totalSpent == OrZero(d.totalSpent)
      && r.value.totalDailyAllocation == OrZero(d.totalDailyAllocation)
      && r.value.totalRemaining == OrZero(d.totalRemaining)
      && r.value.cumulativeSavings == OrZero(d.cumulativeSavings)
  {
    if !ValidPeriod(month, year) then Rejected
    else if data.None? then NotFound
    else
      var d := data.value;
      Ok(MonthlyReport(month, year, OrZero(d.totalIncome), OrZero(d.totalSavings), OrZero(d.totalSpent),
                       OrZero(d.totalDailyAllocation), OrZero(d.totalRemaining), OrZero(d.cumulativeSavings)))
  }

  /** A row with every field present is reported as it is; a row with every
      field null is reported as all zeros. */
  lemma MonthlyReportDefaults(month: int, year: int, a: real, b: real, c: real, d: real, e: real, f: real)
    requires ValidPeriod(month, year)
    ensures MonthlyReportOf(month, year, Some(SummaryRow(Some(a), Some(b), Some(c), Some(d), Some(e), Some(f))))
            == Ok(MonthlyReport(month, year, a, b, c, d, e, f))
    ensures MonthlyReportOf(month, year, Some(SummaryRow(None, None, None, None, None, None)))
            == Ok(MonthlyReport(month, year, 0.0, 0.0, 0.0, 0.0, 0.0, 0.0))
  {
  }

  // ---------------------------------------------------------------------
  // GET /trend/:month/:year

  datatype TrendPoint = TrendPoint(
    date: Date, amountSpent: real, allocatedBudget: real,
    cumulativeSavings: real, cumulativeBudget: real, remaining: real)

  function PointOf(e: Expense): TrendPoint {
    TrendPoint(e.date, e.amountSpent, e.allocatedBudget, e.cumulativeSavings, e.cumulativeBudget, e.remaining)
  }

  function Points(rows: seq<Expense>): (r: seq<TrendPoint>)
    ensures |r| == |rows|
    ensures forall i :: 0 <= i < |rows| ==> r[i] == PointOf(rows[i])
  {
    seq(|rows|, i requires 0 <= i < |rows| => PointOf(rows[i]))
  }

  /** Rows sorted by date key are in chronological order. */
  lemma SortedByDateIsChronological(rows: seq<Expense>)
    requires SortedBy(rows, DateKey)
    ensures forall i, j :: 0 <= i < j < |rows| ==> rows[i].date == rows[j].date || Before(rows[i].date, rows[j].date)
  {
    forall i, j | 0 <= i < j < |rows|
      ensures rows[i].date == rows[j].date || Before(rows[i].date, rows[j].date)
    {
      if rows[i].date != rows[j].date {
        DateKeyOrder(rows[i], rows[j]);
      }
    }
  }

  /** The points of a concatenation are the concatenated points. */
  lemma PointsConcat(a: seq<Expense>, b: seq<Expense>)
    ensures Points(a + b) == Points(a) + Points(b)
  {
    assert |Points(a + b)| == |Points(a) + Points(b)|;
    forall i | 0 <= i < |a + b|
      ensures Points(a + b)[i] == (Points(a) + Points(b))[i]
    {
      if i >= |a| {
        assert (a + b)[i] == b[i - |a|];
      }
    }
  }

  /** The points of a reordering of the rows are a reordering of the rows'
      points: one point per row, whatever the order. */
  lemma {:induction false} PointsOfPermutation(rows: seq<Expense>, expenses: seq<Expense>)
    requires multiset(rows) == multiset(expenses)
    ensures multiset(Points(rows)) == multiset(Points(expenses))
    decreases |rows|
  {
    if rows == [] {
      assert |expenses| == |multiset(expenses)| == 0;
    } else {
      var x := rows[0];
      assert x in expenses by {
        assert x in multiset(expenses);
      }
      var k :| 0 <= k < |expenses| && expenses[k] == x;
      var tail, rest := rows[1..], expenses[..k] + expenses[k + 1..];
      assert rows == [x] + tail;
      assert multiset(tail) == multiset(rows) - multiset{x};
      MultisetRemoveAt(expenses, k);
      PointsOfPermutation(tail, rest);
      assert rows[..0] + rows[1..] == tail;
      PointsRemoveAt(rows, 0, x, tail);
      PointsRemoveAt(expenses, k, x, rest);
    }
  }

  /** Taking one row out takes its point out. */
  lemma PointsRemoveAt(b: seq<Expense>, k: nat, x: Expense, rest: seq<Expense>)
    requires k < |b| && b[k] == x && rest == b[..k] + b[k + 1..]
    ensures multiset(Points(b)) == multiset{PointOf(x)} + multiset(Points(rest))
  {
    var front, back := b[..k], b[k + 1..];
    assert b == front + ([b[k]] + back);
    assert Points([b[k]]) == [PointOf(b[k])];
    PointsConcat(front, [b[k]] + back);
    PointsConcat([b[k]], back);
    PointsConcat(front, back);
  }

  /** The route's answer: 404 without a month record, otherwise one point per
      expense of the month, in date order, each with the row's figures. */
  function TrendOf(month: int, year: int, m: Option<MonthRecord>, expenses: seq<Expense>): (r: Response<seq<TrendPoint>>)
    ensures r.Rejected? <==> !ValidPeriod(month, year)
    ensures r.NotFound? <==> ValidPeriod(month, year) && m.None?
    ensures r.Ok? ==> && multiset(r.value) == multiset(Points(expenses))
                      && (forall i, j :: 0 <= i < j < |r.value| ==>
                            r.value[i].date == r.value[j].date || Before(r.value[i].date, r.value[j].date))
  {
    if !ValidPeriod(month, year) then Rejected
    else if m.None? then NotFound
    else
      var rows := SortBy(expenses, DateKey);
      SortedByDateIsChronological(rows);
      PointsOfPermutation(rows, expenses);
      Ok(Points(rows))
  }

  /** Balanced rows give balanced points: the trend repeats the stored
      figures and recomputes nothing. */
  lemma TrendKeepsBalance(month: int, year: int, m: Option<MonthRecord>, expenses: seq<Expense>)
    requires forall e :: e in expenses ==> e.remaining == e.cumulativeBudget - e.amountSpent
    ensures var r := TrendOf(month, year, m, expenses);
      r.Ok? ==> forall i :: 0 <= i < |r.value| ==> r.value[i].remaining == r.value[i].cumulativeBudget - r.value[i].amountSpent
  {
    var r := TrendOf(month, year, m, expenses);
    if r.Ok? {
      forall i | 0 <= i < |r.value|
        ensures r.value[i].remaining == r.value[i].cumulativeBudget - r.value[i].amountSpent
      {
        assert r.value[i] in multiset(Points(expenses));
        var j :| 0 <= j < |Points(expenses)| && Points(expenses)[j] == r.value[i];
        assert expenses[j] in expenses;
      }
    }
  }

  // ---------------------------------------------------------------------
  // GET /savings/:month/:year and GET /spending/:month/:year

  /** `{ name, amount }` of a category. */
  datatype Planned = Planned(name: string, amount: real)

  function PlannedOf(cats: seq<Category>): (r: seq<Planned>)
    ensures |r| == |cats|
    ensures forall i :: 0 <= i < |cats| ==> r[i] == Planned(cats[i].name, cats[i].amount)
  {
    seq(|cats|, i requires 0 <= i < |cats| => Planned(cats[i].name, cats[i].amount))
  }

  /** `income > 0 ? part / income * 100 : 0`, before the two-decimal
      formatting. */
  function Percentage(part: real, income: real): (p: real)
    ensures income > 0.0 ==> p * income == part * 100.0
    ensures income <= 0.0 ==> p == 0.0
    ensures income > 0.0 && 0.0 <= part <= income ==> 0.0 <= p <= 100.0
  {
    if income > 0.0 then part / income * 100.0 else 0.0
  }

  /** The categories of type `t`, largest amount first, and their total. */
  function PlannedOfType(cats: seq<Category>, t: CategoryType): (r: (seq<Category>, real))
    ensures multiset(r.0) == multiset(OfType(cats, t))
    ensures forall i, j :: 0 <= i < j < |r.0| ==> r.0[i].amount >= r.0[j].amount
    ensures r.1 == Total(OfType(cats, t))
  {
    var sorted := SortBy(OfType(cats, t), AmountDescKey);
    SumPermutation(sorted, OfType(cats, t), Amount);
    assert forall i, j :: 0 <= i < j < |sorted| ==> sorted[i].amount >= sorted[j].amount by {
      forall i, j | 0 <= i < j < |sorted|
        ensures sorted[i].amount >= sorted[j].amount
      {
        AmountDescKeyOrder(sorted[i], sorted[j]);
      }
    }
    (sorted, Total(sorted))
  }

  datatype SavingsAnalysis = SavingsAnalysis(
    month: int, year: int,
    plannedSavings: seq<Planned>,
    totalPlannedSavings: real,
    extraSavings: real,
    totalSavings: real,
    savingsPercentage: real)

  /** The savings analysis of the month's categories and expenses: the
      planned Savings categories (largest first) and their total, the
      latest day's `remaining` as extra savings, and their share of the
      income. */
  function SavingsAnalysisOf(month: int, year: int, m: Option<MonthRecord>,
                             cats: seq<Category>, expenses: seq<Expense>): (r: Response<SavingsAnalysis>)
    ensures r.Rejected? <==> !ValidPeriod(month, year)
    ensures r.NotFound? <==> ValidPeriod(month, year) && m.None?
    ensures r.Ok? ==> var a := r.value; var planned := PlannedOfType(cats, Savings).0;
      && a.month == month && a.year == year
      && a.plannedSavings == PlannedOf(planned)
      && multiset(planned) == multiset(OfType(cats, Savings))
      && (forall i, j :: 0 <= i < j < |a.plannedSavings| ==> a.plannedSavings[i].amount >= a.plannedSavings[j].amount)
      && a.totalPlannedSavings == Total(OfType(cats, Savings))
      && a.extraSavings == LatestRemaining(expenses)
      && a.totalSavings == a.totalPlannedSavings + a.extraSavings
      && a.savingsPercentage == Percentage(a.totalSavings, m.value.income)
  {
    if !ValidPeriod(month, year) then Rejected
    else if m.None? then NotFound
    else
      var (planned, total) := PlannedOfType(cats, Savings);
      var extra := LatestRemaining(expenses);
      Ok(SavingsAnalysis(month, year, PlannedOf(planned), total, extra, total + extra,
                         Percentage(total + extra, m.value.income)))
  }

  datatype SpendingAnalysis = SpendingAnalysis(
    month: int, year: int,
    plannedSpending: seq<Planned>,
    totalPlannedSpending: real,
    totalActualSpending: real,
    difference: real,
    spendingPercentage: real)

  /** The spending analysis: the planned Spent categories (largest first)
      and their total, the actual spending of the month's days, the gap
      between them and the actual spending's share of the income. */
  function SpendingAnalysisOf(month: int, year: int, m: Option<MonthRecord>,
                              cats: seq<Category>, expenses: seq<Expense>): (r: Response<SpendingAnalysis>)
    ensures r.Rejected? <==> !ValidPeriod(month, year)
    ensures r.NotFound? <==> ValidPeriod(month, year) && m.None?
    ensures r.Ok? ==> var a := r.value; var planned := PlannedOfType(cats, Spent).0;
      && a.month == month && a.year == year
      && a.plannedSpending == PlannedOf(planned)
      && multiset(planned) == multiset(OfType(cats, Spent))
      && (forall i, j :: 0 <= i < j < |a.plannedSpending| ==> a.plannedSpending[i].amount >= a.plannedSpending[j].amount)
      && a.totalPlannedSpending == Total(OfType(cats, Spent))
      && a.totalActualSpending == Sum(expenses, AmountSpent)
      && a.difference + a.totalActualSpending == a.totalPlannedSpending
      && a.spendingPercentage == Percentage(a.totalActualSpending, m.value.income)
  {
    if !ValidPeriod(month, year) then Rejected
    else if m.None? then NotFound
    else
      var (planned, total) := PlannedOfType(cats, Spent);
      var actual := Sum(expenses, AmountSpent);
      Ok(SpendingAnalysis(month, year, PlannedOf(planned), total, actual, total - actual,
                          Percentage(actual, m.value.income)))
  }

  /** With validated amounts, actual spending is never negative. */
  lemma {:induction false} ActualSpendingNonNegative(expenses: seq<Expense>)
    requires forall i :: 0 <= i < |expenses| ==> expenses[i].amountSpent >= 0.0
    ensures Sum(expenses, AmountSpent) >= 0.0
    decreases |expenses|
  {
    if expenses != [] {
      ActualSpendingNonNegative(expenses[1..]);
    }
  }

  /** The two analyses of the same month split its categories: planned
      savings plus planned spending is the total of every category. */
  lemma AnalysesPartitionCategories(month: int, year: int, m: MonthRecord, cats: seq<Category>, expenses: seq<Expense>)
    requires ValidPeriod(month, year)
    ensures var s := SavingsAnalysisOf(month, year, Some(m), cats, expenses);
      var p := SpendingAnalysisOf(month, year, Some(m), cats, expenses);
      s.Ok? && p.Ok? && s.value.totalPlannedSavings + p.value.totalPlannedSpending == Total(cats)
  {
    PartitionTotal(cats);
  }
}
