# MoneyMap budgeting API: a Dafny model of its bookkeeping

MoneyMap is an Express/Supabase API for monthly budgeting. A user records a
month's income, splits it into budget categories of type `Spent` or `Savings`,
and logs one spending row per day. A day's row carries over the previous
day's `remaining` as `cumulative_savings`. The report routes fold these rows
into summaries and analyses.

This project models that bookkeeping in Dafny. The three Supabase tables
(`months`, `budget_categories`, `daily_expenses`) become id-keyed maps in one
`Store` object:

- Store.Store is a class with `months`, `categories`, `expenses` and an id
  counter `nextId`; row UUIDs become fresh counter values.
- Store.TablesValid is the invariant every write route keeps:
  - rows are stored under their own ids;
  - at most one month record exists per (user, month, year), and at most one
    expense row per (user, date);
  - every category and expense belongs to a month owned by the same user;
  - stored periods, dates, names and amounts passed the request validation.
- The write routes of `src/routes/income.js`, `budget.js`, `finance.js` and
  `expense.js` are methods with `modifies db`. Each method's postcondition ties
  the new tables to a pure table function (Months.UpsertMonth,
  Recurrence.AfterPost, AfterPut, AfterDelete) or states the new map outright.
  Lemmas about those functions state the frame, uniqueness, carry-over and
  chaining properties.
- The read routes are methods without `modifies`. A database
  `.order(...)` is Store.Select, an insertion into a sequence kept sorted by a
  lexicographic key.
- `src/routes/report.js` and `get-monthly-summary.js` only fold fetched rows,
  so they are pure functions. The fetched rows and query outcomes are their
  parameters.
- A route answers Records.Response: `Ok(value)`, `Rejected` (the
  express-validator checks failed, so the route answers 400) or `NotFound`
  (the route answers 404, both for "missing" and for "owned by someone else").
- Money is `real` (exact). A date is a (year, month, day) triple with Gregorian
  month lengths. The clock is a `now: nat` parameter stored as `updatedAt`, so
  a "touch" of a row can be seen.

Files: `calendar.dfy`, `records.dfy`, `ordering.dfy`, `totals.dfy`,
`months.dfy`, `recurrence.dfy`, `store.dfy` (shared model), then
`income.dfy`, `budget.dfy`, `finance.dfy`, `expense.dfy`, `report.dfy`,
`monthly_summary.dfy` (one module per source file).

## Model

| member | source | states |
|---|---|---|
| Calendar.DaysInMonth | src/routes/income.js:55 | month length is 28..31; February has 29 days exactly in Gregorian leap years |
| Calendar.MonthLength | src/routes/income.js:55 | `new Date(year, month, 0).getDate()` (day 0 of the next month, with December rolling into the next year) equals DaysInMonth: 28..31, and February has 29 days iff leap year |
| Calendar.NextDay | src/routes/expense.js:216-218 | the day after a valid date is a valid date, across month and year ends |
| Calendar.PrevDay | src/routes/expense.js:126-128 | the day before a valid date is a valid date, across month and year starts |
| Calendar.PrevNextInverse | src/routes/expense.js:126-128 | predecessor and successor undo each other on every valid date |
| Calendar.NextDayInjective | src/routes/expense.js:216-218 | distinct valid dates have distinct next days |
| Calendar.NextDayIsSuccessor | src/routes/expense.js:216-218 | NextDay(d) follows d and no valid date lies strictly between them |
| Calendar.PrevDayIsPredecessor | src/routes/expense.js:126-128 | PrevDay(d) precedes d and no valid date lies strictly between them |
| Records.ParseCategoryType | src/routes/budget.js:49 | a `type` is accepted iff it is "Spent" or "Savings", and the accepted value names itself |
| Records.ParseTypeNameRoundTrip | src/routes/budget.js:49 | every category type's name parses back to that type |
| Ordering.SortBy | src/routes/report.js:157 | the `.order(...)` result is a permutation of the rows, sorted by the key |
| Totals.SumPermutation | src/routes/budget.js:230-236 | a `reduce` sum does not depend on the order the rows were fetched in |
| Totals.OfType | src/routes/budget.js:230-231 | `filter(cat => cat.type === t)` keeps exactly the rows of type t |
| Totals.PartitionTotal | src/routes/budget.js:230-236 | the Spent total plus the Savings total is the total of all categories |
| Totals.TypeTotalPermutation | src/routes/budget.js:221-236 | per-type totals are the same for every ordering of the fetched rows |
| Totals.OfTypeIdempotent | src/routes/report.js:151-157 | filtering rows already restricted to a type (as `.eq('type', t)` returns them) changes nothing |
| Totals.TotalNonNegative | src/routes/budget.js:48 | totals of validated (non-negative) amounts are non-negative |
| Recurrence.CarriedSavings | src/routes/expense.js:125-137 | 0 when the user has no row for the previous calendar day; under the (user, date) constraint, that row's `remaining` when there is one |
| Recurrence.Repost | src/routes/expense.js:116-123 | the row gets the new `amount_spent` and timestamp and keeps every other field |
| Recurrence.AfterPost | src/routes/expense.js:104-154 | POST adds a row only when the user has none for the date (under the fresh id), and otherwise keeps the same rows; rows of other days are untouched |
| Recurrence.TouchNextDay | src/routes/expense.js:216-235 | the same rows, each either unchanged or, for the user's next-day row, only re-timestamped |
| Recurrence.AfterPut | src/routes/expense.js:199-235 | the same rows; the edited one is revised (Revise) and every other one is either unchanged or only re-timestamped |
| Recurrence.AfterDelete | src/routes/expense.js:275-302 | exactly the deleted row is gone; every remaining row is either unchanged or only re-timestamped |
| Recurrence.OpenDay | src/routes/expense.js:137-152 | a new day's row has `allocated_budget` = the month's allocation, `cumulative_savings` = the carried amount, `cumulative_budget` = their sum and `remaining` = `cumulative_budget - amount_spent` |
| Recurrence.Revise | src/routes/expense.js:199-211 | PUT sets the amount, recomputes `remaining` from the stored `cumulative_budget` (so the row is balanced) and changes no other field |
| Recurrence.PostInsertsNewDay | src/routes/expense.js:124-154 | POST on a day without a row adds exactly one balanced row, whose `cumulative_savings` is the `remaining` of the user's row for the previous calendar day, or 0; every other row is unchanged |
| Recurrence.PostOnExistingDay | src/routes/expense.js:104-123 | POST on a day with a row adds no row, leaves every other row as it was, and gives that row the new `amount_spent` and timestamp with every other field (id, user, month, date, allocation, savings, budget, `remaining`) as stored |
| Recurrence.PostKeepsUniqueDays | src/routes/expense.js:104-154 | POST never creates a second row for a (user, date) |
| Recurrence.ChainConsecutiveDays | src/routes/expense.js:130-150 | posting day d and then day d+1 makes the second row's `cumulative_savings` equal the first row's `remaining` |
| Recurrence.RepostLeavesRemainingStale | src/routes/expense.js:116-123 | a POST that changes an existing row's amount leaves that row unbalanced (the handler does not recompute `remaining`) |
| Recurrence.PostNewDayKeepsBalance | src/routes/expense.js:137-152 | inserting a new day keeps every row balanced |
| Recurrence.TouchNextDayFrame | src/routes/expense.js:220-235 | the touch changes at most the user's row for the next day, and in it only `updated_at` |
| Recurrence.PutFrame | src/routes/expense.js:199-235 | after PUT on day d: d's row is revised and balanced, d+1's row (if any) only gets a new timestamp, and every other row (d+2 onward included) is unchanged |
| Recurrence.DeleteFrame | src/routes/expense.js:275-302 | after DELETE on day d: exactly d's row is gone, d+1's row (if any) only gets a new timestamp, and every other row is unchanged |
| Recurrence.PutKeepsInvariants | src/routes/expense.js:199-235 | PUT keeps the (user, date) constraint and keeps every row balanced |
| Recurrence.DeleteKeepsInvariants | src/routes/expense.js:275-302 | DELETE keeps the (user, date) constraint and keeps every row balanced |
| Recurrence.PutLeavesNextDayCarryStale | src/routes/expense.js:215-235 | the touch recomputes nothing: after a PUT that changes d's `remaining`, d+1's `cumulative_savings` keeps the old carry-over |
| Months.SetIncome | src/routes/income.js:70-77 | an existing record gets the new income and timestamp and keeps every other field |
| Months.UpsertMonth | src/routes/income.js:58-96 | the table gains at most the upserted id; that record is the period's, with the new income; every other record is unchanged |
| Months.NewMonth | src/routes/income.js:83-94 | a new record has the period, the income, `days_in_month` = DaysInMonth, `daily_allocation` = 0, `total_budgeted` = 0 and `balance_amount` = income |
| Months.UpsertFrame | src/routes/income.js:58-96 | the upsert writes one record, the one for (user, month, year): an existing record only gets the new income and timestamp, otherwise a new initial record is added; all other records are unchanged |
| Months.UpsertKeepsUniquePeriods | src/routes/income.js:58-96 | the upsert never creates a second record for a period |
| Months.UpsertedIsFound | src/routes/income.js:58-96 | after the upsert, the period lookup finds the record just written |
| Months.UpsertIdempotent | src/routes/income.js:68-77 | a second upsert of the same income, at any instant, finds the first one's record and changes only its `updated_at`: still one record for the period, with the same income |
| Store.UpsertKeepsTablesValid | src/routes/income.js:38-96 | the validated upsert keeps the table invariant and uses a fresh id only when it inserts |
| Store.AddCategoryKeepsTablesValid | src/routes/budget.js:76-85 | adding one validated category of an owned month under the next id keeps the invariant |
| Store.AddCategoriesKeepTablesValid | src/routes/finance.js:253-256 | adding validated categories of owned months under fresh ids keeps the invariant |
| Store.ReplaceCategoryKeepsTablesValid | src/routes/budget.js:132-143 | rewriting a category with a validated patch, keeping its owner and month, keeps the invariant |
| Store.PostKeepsTablesValid | src/routes/expense.js:76-155 | the validated POST keeps the invariant and uses a fresh id only for a new day |
| Store.PutKeepsTablesValid | src/routes/expense.js:199-235 | the validated PUT keeps the invariant |
| Store.DeleteKeepsTablesValid | src/routes/expense.js:275-302 | DELETE keeps the invariant |
| Store.Select | src/routes/budget.js:26-31 | the selected rows are exactly the table's rows with the given ids, each once, sorted by the key |
| Store.ListingsArePermutations | src/routes/budget.js:221-225 | two answers to the same unordered query differ only in order |
| Store.DateKeyOrder | src/routes/expense.js:31 | `order('date')` puts rows of different dates in chronological order |
| Store.PeriodDescKeyOrder | src/routes/income.js:118-119 | the descending (year, month) order puts later periods first |
| Store.AmountDescKeyOrder | src/routes/report.js:157 | `order('amount', { ascending: false })` puts larger amounts first |
| IncomeRoutes.UpsertMonthRecord | src/routes/income.js:55-96 | the store's months become UpsertMonth of the old ones; the returned record is the one stored for the period; categories and expenses are unchanged; the id counter moves by one only when a record is inserted |
| IncomeRoutes.PostIncome | src/routes/income.js:35-106 | rejected iff the month is outside 1..12, the year outside 2000..2100 or the income negative, and then nothing changes; otherwise the upsert, answering the record with the new income; the id counter moves by one only when a record is inserted |
| IncomeRoutes.ListMonths | src/routes/income.js:109-128 | exactly the user's months, each once, latest year first and within a year latest month first |
| BudgetRoutes.ListCategories | src/routes/budget.js:7-40 | not found iff the month is not the user's; otherwise exactly the month's categories of the user, ordered by name |
| BudgetRoutes.ValidCategoryInput | src/routes/budget.js:46-49 | accepted iff the name is non-empty, the amount is at least 0 and the type is "Spent" or "Savings" |
| BudgetRoutes.CreateCategory | src/routes/budget.js:43-95 | rejected iff the name is empty, the amount negative or the type unknown; not found iff the month is not the user's; both change nothing; otherwise exactly one new category with the given fields, user and month under a fresh id |
| BudgetRoutes.ValidPatch | src/routes/budget.js:102-104 | accepted iff each supplied field passes its check: non-empty name, amount at least 0, type "Spent" or "Savings"; omitted fields pass |
| BudgetRoutes.Patch | src/routes/budget.js:131-136 | a supplied name, amount or type replaces the stored one, an omitted one keeps it; id, owner and month never change |
| BudgetRoutes.PatchKeepsValid | src/routes/budget.js:102-104 | a validated patch of a valid category yields a valid category |
| BudgetRoutes.PatchIdempotent | src/routes/budget.js:131-143 | an empty patch only moves the timestamp; applying a patch twice equals applying it once |
| BudgetRoutes.UpdateCategory | src/routes/budget.js:98-153 | rejected iff a supplied field fails its check; not found iff the category is not the user's; both change nothing; otherwise only that category is replaced by its patch |
| BudgetRoutes.DeleteCategory | src/routes/budget.js:156-199 | not found iff the category is not the user's, changing nothing; otherwise exactly that category is removed |
| BudgetRoutes.ListingTotals | src/routes/budget.js:230-236 | for any two orderings of a month's categories the Spent and Savings totals agree, split the total of all categories and are non-negative |
| BudgetRoutes.TypeTotalNonNegative | src/routes/budget.js:230-236 | the per-type total of a listing of validated categories is non-negative |
| BudgetRoutes.GetBudgetSummary | src/routes/budget.js:202-253 | not found iff the month is not the user's; otherwise the month's five figures unchanged, and Spent and Savings totals that hold for every ordering of the month's categories, are non-negative and add up to the total of all of them |
| FinanceRoutes.SavingGoal | src/routes/finance.js:66 | the saving goal is a quarter of the income, between 0 and the income for a non-negative income |
| FinanceRoutes.GetFinance | src/routes/finance.js:7-90 | rejected iff the period is invalid; not found iff the user has no record for it; otherwise that record, its saving goal, its categories ordered by name, the Spent and Savings totals and a total equal to the sum of all category amounts |
| FinanceRoutes.ValidEntries | src/routes/finance.js:103-105 | accepted iff every entry has a non-empty name, an amount of at least 0 and the type "Spent" or "Savings" |
| FinanceRoutes.EntryRows | src/routes/finance.js:244-250 | one prepared row per entry, in order, carrying the entry's name, amount and type, the user and the month id, each one valid |
| FinanceRoutes.BatchInsertsEntries | src/routes/finance.js:244-256 | the prepared rows, numbered from a counter above every existing id, add exactly one category per entry, in order, with the entry's fields, under distinct new ids, leaving every existing category unchanged |
| FinanceRoutes.InsertEntries | src/routes/finance.js:253-256 | the single batch insert keeps the tables valid, adds exactly the entries' categories and advances the id counter by their number |
| FinanceRoutes.PostFinance | src/routes/finance.js:93-272 | rejected iff the period, the income or any entry is invalid, and then nothing changes; otherwise the income upsert, then exactly one new category per entry (none when budgets are absent or empty), tagged with the user and the upserted month, under distinct fresh ids, all other categories unchanged; the id counter moves by the number of entries plus one for an inserted record |
| ExpenseRoutes.ListMonthExpenses | src/routes/expense.js:7-40 | not found iff the month is not the user's; otherwise exactly the user's rows of that month, each once, in strictly ascending date order |
| ExpenseRoutes.GetExpenseOnDate | src/routes/expense.js:43-70 | not found iff the user has no row for the date; otherwise that row |
| ExpenseRoutes.PreviousRemaining | src/routes/expense.js:125-137 | the carried amount is the previous calendar day's `remaining` when that row exists and 0 otherwise (CarriedSavings) |
| ExpenseRoutes.RecordExpense | src/routes/expense.js:73-165 | rejected iff the amount is negative or the date invalid; not found iff the month is not the user's; both change nothing; otherwise the table becomes AfterPost with the month's daily allocation, and a new day's row is balanced, carries the previous day's `remaining` and takes the next id; a re-post keeps the row's id and the counter |
| ExpenseRoutes.RepostDay | src/routes/expense.js:114-123 | on a date that has the user's row, the table becomes AfterPost, the answer is that row with the new amount, and the id counter stays |
| ExpenseRoutes.OpenNewDay | src/routes/expense.js:124-154 | on a date without the user's row, the table becomes AfterPost; the new row takes the next id, is balanced and carries CarriedSavings |
| ExpenseRoutes.TouchFollowingDay | src/routes/expense.js:216-235 | the lookup of the next calendar day's row and its timestamp update yield exactly the table TouchNextDay describes |
| ExpenseRoutes.UpdateExpense | src/routes/expense.js:168-243 | rejected iff the amount is negative; not found iff the row is not the user's; both change nothing; otherwise the table becomes AfterPut and the answer is the revised row |
| ExpenseRoutes.DeleteExpense | src/routes/expense.js:246-310 | not found iff the row is not the user's, changing nothing; otherwise the table becomes AfterDelete and the row is gone |
| Reports.Latest | src/routes/report.js:161-169 | none iff there are no rows; otherwise a row no other row's date follows |
| Reports.LatestRemaining | src/routes/report.js:161-173 | 0 without rows; otherwise the `remaining` of a row no other row's date follows |
| Reports.LatestIsOnlyMaximum | src/routes/report.js:161-169 | with one row per date, the latest row is the only row no other row follows |
| Reports.LatestRemainingOrderFree | src/routes/report.js:161-173 | the extra savings does not depend on the order the rows came in |
| Reports.MonthListingHasDistinctDates | src/routes/report.js:162-169 | a user's month listing has one row per date |
| Reports.OrZero | src/routes/report.js:42-47 | a missing value reads as 0, a present one as itself |
| Reports.MonthlyReportOf | src/routes/report.js:7-56 | rejected iff the period is invalid; not found iff the procedure returned no data; otherwise each figure is the returned value, or 0 where it is missing |
| Reports.MonthlyReportDefaults | src/routes/report.js:39-48 | a complete row is reported as it is; an all-null row is reported as all zeros |
| Reports.Points | src/routes/report.js:101-108 | one point per row, in the same order, with the row's figures |
| Reports.SortedByDateIsChronological | src/routes/report.js:96 | rows in date-key order are in chronological order |
| Reports.PointsOfPermutation | src/routes/report.js:91-108 | the points of a reordering of the rows are a reordering (as a multiset) of the rows' points |
| Reports.TrendOf | src/routes/report.js:59-116 | rejected iff the period is invalid; not found iff the month record is missing; otherwise the rows' points, one per row (multiset-equal to the points of the fetched rows), in chronological order |
| Reports.TrendKeepsBalance | src/routes/report.js:101-108 | balanced rows give balanced points; the trend recomputes nothing |
| Reports.PlannedOf | src/routes/report.js:178-181 | `{ name, amount }` of each category, in order |
| Reports.Percentage | src/routes/report.js:185-187 | when income > 0 the percentage times the income is 100 times the part, and it lies in 0..100 for a part within the income; otherwise it is 0 |
| Reports.PlannedOfType | src/routes/report.js:151-157 | the categories of one type, largest amount first, as a permutation of the filtered rows, and their total |
| Reports.SavingsAnalysisOf | src/routes/report.js:119-196 | rejected iff the period is invalid; not found iff the month record is missing; otherwise the Savings categories largest first, their total, the latest day's `remaining` as extra savings (0 without rows), total savings as their sum, and its guarded percentage of the income |
| Reports.SpendingAnalysisOf | src/routes/report.js:199-275 | rejected iff the period is invalid; not found iff the month record is missing; otherwise the Spent categories largest first, their total, the sum of `amount_spent`, the difference planned − actual, and the guarded percentage of actual spending |
| Reports.ActualSpendingNonNegative | src/routes/report.js:250 | actual spending over validated rows is non-negative |
| Reports.AnalysesPartitionCategories | src/routes/report.js:172-251 | planned savings plus planned spending of a month is the total of all its categories |
| MonthlySummary.SummaryOf | get-monthly-summary.js:26-103 | no report iff a query failed or the month record is missing; otherwise the income (0 if missing), the Savings and Spent totals, `daily_allocation * days_in_month`, the balance (0 if missing) and the latest day's `remaining` (0 without rows) |
| MonthlySummary.SummarySplitsBudget | get-monthly-summary.js:44-88 | when both category queries read the month's categories, the Savings and Spent totals add up to the whole budget |
| MonthlySummary.SummaryOfNewMonth | get-monthly-summary.js:86-90 | for a freshly created record the summary shows the income, no daily allocation and the whole income remaining |

## Left out

- The HTTP layer is not modelled: Express routing, JSON shaping, status codes beyond the ok / 400 / 404 distinction, and the `authenticateToken` stub (the user is an explicit parameter).
- Database and client errors that the routes turn into 500 are not modelled. The tables are in memory and every query succeeds. The exception is get-monthly-summary.js, where query failures are parameters.
- GET /income/:month/:year (src/routes/income.js:7-32) is not modelled. It uses `.single()`, which reports no rows as an error, so that route answers 500 rather than its 404. Server errors are outside the model.
- The stored procedures and triggers are not modelled because their bodies are not visible:
  - `calculate_daily_allocation`, called after an income update: the model leaves `daily_allocation` as stored.
  - `trigger_calculate_expense_values`: the "touch" is modelled as a timestamp change only, and Recurrence.PutLeavesNextDayCarryStale states what the handler alone leaves stale.
  - `get_monthly_summary`: its result is a parameter of Reports.MonthlyReportOf. The model assumes the procedure returns one object or null. If it returned a set of rows, the client would receive an array: `!data` would be false even for no rows, and every `data.total_*` would read as 0. The parameter name of the call (`user_id` at src/routes/report.js:26) is not checked against the procedure's definition, which is not part of this model.
  - `check_user_exists` and `insert_user_bypass_rls`: the user-existence fallback chain of src/routes/finance.js:155-219 only performs I/O retries.
- Row-level security (the `supabase` versus `supabaseAdmin` client) is not modelled. Ownership is checked explicitly, as each route does.
- Store.NameKey orders names by character code. Postgres orders names by the database collation.
- ExpenseRoutes.RecordExpense: `isDate()` on a date string becomes ValidDate on a (year, month, day) triple. The timezone effects of `new Date(date)` and `toISOString()` are not modelled; the model uses the intended calendar predecessor and successor.
- BudgetRoutes.CreateCategory: the `isUUID()` check on `monthId` (and on the `:id` parameters of the update, delete and expense routes) is not modelled. Ids are numbers.
- FinanceRoutes.PostFinance: an entry is always a full (name, amount, type) record. The `optional()` per-field checks of src/routes/finance.js:103-105, which let an entry with a missing field through, are not modelled. A non-array `budgets` cannot be expressed, because budgets is an optional sequence.
- Reports.SavingsAnalysisOf: the percentage is the exact real. The `toFixed(2)` string formatting is not modelled.
- Reports.SpendingAnalysisOf: the percentage is the exact real. The `toFixed(2)` string formatting is not modelled.
- MonthlySummary.SummaryOf: `daily_allocation` and `days_in_month` are always present. A null there would give NaN in the script. The fixed user, month and year constants of the script are parameters, and its console output is not modelled.
- Report routes take the rows their queries fetch as parameters: the month record, the month's categories of the user, and the month's expenses of the user. The filters `.eq('type', …)` and orders are applied in the model. Reports.MonthListingHasDistinctDates links a store listing to the one-row-per-date premise of the "latest day" lemmas.
- Floating point (`parseFloat`, IEEE rounding) is not modelled. Money is exact.
- `created_at` and the `notes` columns are not modelled. `updated_at` is a natural number taken from a `now` parameter.
- Concurrency and the non-transactional update-then-touch sequence of PUT and DELETE are not modelled.
