# Finance tracker reports and budgets, modelled in Dafny

This project models the computational core of the finance tracker's
backend. The core is two controllers:

- **Report controller.** It produces four reports:
  - `getFinancialSummary`: the current month's income, expenses, balance and transaction count.
  - `getCategoryBreakdown`: the current month's transactions grouped by category in a `Map`, then sorted by total.
  - `getMonthlyComparison`: six months of income, expenses and balance, oldest first.
  - `getSpendingTrends`: twelve months of expense totals, oldest first.
- **Budget controller.** It handles:
  - `createBudget`, which derives the budget's `endDate` from the creation time and the period (`weekly`, `monthly`, `yearly`), using the JavaScript `Date` setters;
  - the not-found-then-not-owned guard (404, then 401) in front of `getBudget`, `updateBudget`, `deleteBudget` and `getBudgetStatus`;
  - the status report: the sum of the budget period's transactions, what remains, and the percentage spent.

How the model is laid out:

- **The store.** The transaction collection is a sequence of records. Each database query becomes a filter over it: owner, category or type, and an inclusive date range.
- **`populate('category')`** becomes a map from category id to category record.
- **Budgets** live in a map from id to record, held by the `BudgetStore` class, whose handler methods update it.
- **"Now"** is a parameter.
- **Amounts** are integers (cents).

The modules:

- `calendar.dfy` (**Calendar**). JavaScript `Date` arithmetic on local calendar dates.
  - A date is a year, a month index 0–11, a day of the month and a time of day.
  - `Normalize` is what the setters compute, and what `new Date(y, m, d)` computes for a year of 100 or more: month indices outside 0–11 wrap into neighbouring years, day 0 is the last day of the previous month, and surplus days roll forward.
  - `Normalize` is proved equal to counting whole days from the first of the month (`Shift`).
  - The `JsDate` class has the in-place setters `setDate`, `setMonth` and `setFullYear`.
- `ledger.dfy` (**Ledger**). Transactions, categories, query windows, the filters (`Where`, `Select`, `SelectExpenses`) and sums.
- `grouping.dfy` (**Grouping**). What the breakdown's `Map` must hold, stated independently of the loop: one entry per distinct category id, in first-seen order, each with its category's count and total.
- `ranking.dfy` (**Ranking**). The final `sort((a, b) => b.total - a.total)` as a stable sort by non-increasing total. Any stable sort of that kind gives the same result.
- `report_controller.dfy` (**ReportController**). The four report handlers, with their `forEach` and `for` loops as methods proved against the functions above.
- `budget_controller.dfy` (**BudgetController**). The end-date derivation, the guard, the status report and the `BudgetStore` class.

## Model

| member | source | states |
|---|---|---|
| Calendar.DaysInMonth | smart-finance-backend/controllers/reportController.js:12 | A month has 28 to 31 days; February has 29 exactly in a Gregorian leap year; every other month has at least 30 |
| Calendar.MonthOf | smart-finance-backend/controllers/reportController.js:114 | A year and a month index of any size, such as `now.getMonth() - i`, denote a valid month whose month count from year 0 is `y * 12 + m` |
| Calendar.OrdinalInjective | smart-finance-backend/controllers/reportController.js:114 | Two valid months with the same month count are the same month, so the month a year and index denote is unique |
| Calendar.NextMonth | smart-finance-backend/controllers/reportController.js:12 | The following month is one month count later and is valid when its argument is |
| Calendar.PrevMonth | smart-finance-backend/controllers/reportController.js:114 | The preceding month is one month count earlier and is valid when its argument is |
| Calendar.NextMonthOf | smart-finance-backend/controllers/reportController.js:12 | Adding 1 to the month index, as `now.getMonth() + 1` does, denotes the following month, including the step from December into January |
| Calendar.MonthOfInRange | smart-finance-backend/controllers/reportController.js:11 | A month index already in 0–11 denotes its own year and month |
| Calendar.NextThenPrev | smart-finance-backend/controllers/budgetController.js:59 | Stepping a valid date one day forward and then one day back returns the date |
| Calendar.PrevThenNext | smart-finance-backend/controllers/budgetController.js:59 | Stepping a valid date one day back and then one day forward returns the date |
| Calendar.NextDayValid | smart-finance-backend/controllers/budgetController.js:59 | The next calendar day of a valid date is valid and has the same time of day |
| Calendar.PrevDayValid | smart-finance-backend/controllers/budgetController.js:59 | The previous calendar day of a valid date is valid and has the same time of day |
| Calendar.ShiftValid | smart-finance-backend/controllers/budgetController.js:59 | Moving a valid date by any number of days, forward or back, gives a valid date with the same time of day |
| Calendar.NextDay | smart-finance-backend/controllers/budgetController.js:58-59 | (Definition.) The following calendar day, at the same time of day: the next day of the month, or the first of the next month after the month's last day |
| Calendar.PrevDay | smart-finance-backend/controllers/budgetController.js:58-59 | (Definition.) The preceding calendar day, at the same time of day: the previous day of the month, or the last day of the previous month before the 1st |
| Calendar.Shift | smart-finance-backend/controllers/budgetController.js:58-59 | (Definition.) The reference for all day arithmetic: a date moved by `n` whole days, one `NextDay` or `PrevDay` at a time; ShiftValid, ShiftAdd and RollDaysIsShift prove its properties |
| Calendar.ShiftAdd | smart-finance-backend/controllers/budgetController.js:59 | Moving by `a` days and then by `b` days is moving by `a + b` days |
| Calendar.ShiftWithinMonth | smart-finance-backend/controllers/reportController.js:11 | Within a month, `j` days after the first is day `j + 1` of that month |
| Calendar.MonthLength | smart-finance-backend/controllers/reportController.js:12 | `DaysInMonth(k)` days after the first of month `k` is the first of the next month |
| Calendar.RollDays | smart-finance-backend/controllers/reportController.js:12 | Rolling an out-of-range day month by month always ends on a valid date with the same time of day |
| Calendar.RollDaysIsShift | smart-finance-backend/controllers/reportController.js:12 | That rollover equals counting `d - 1` days from the first of the month, for any `d`, including zero and negative days |
| Calendar.BorrowFromPrevMonth | smart-finance-backend/controllers/reportController.js:12 | A day counted from the first of the previous month, raised by that month's length, is the same day counted from the first of this month |
| Calendar.ShiftAcrossMonth | smart-finance-backend/controllers/budgetController.js:62 | Counting `j` days from the first of the next month is counting a whole month plus `j` days from the first of this month |
| Calendar.CarryIntoNextMonth | smart-finance-backend/controllers/budgetController.js:62 | A day beyond the end of month `k` is the same as that day minus `k`'s length, counted in the next month |
| Calendar.Normalize | smart-finance-backend/controllers/reportController.js:11-12 | `new Date(y, m, d)` for a year of 100 or more, and the setters for any year, with time of day `t` give a valid date with that time. It is `d - 1` days after the first of the month `(y, m)` denotes, and for a day that month has it is exactly that date |
| Calendar.NormalizeValid | smart-finance-backend/controllers/budgetController.js:59 | Building a date from its own fields gives the date back |
| Calendar.DayZeroIsLastDay | smart-finance-backend/controllers/reportController.js:12 | `new Date(y, m + 1, 0)` is the last day of the month `(y, m)` denotes |
| Calendar.BeforeTransitive | smart-finance-backend/controllers/budgetController.js:158-161 | Chronological order is transitive |
| Calendar.ShiftForwardIsLater | smart-finance-backend/controllers/budgetController.js:59 | Moving a valid date forward by a positive number of days gives a strictly later date |
| Calendar.JsDate.Copy | smart-finance-backend/controllers/budgetController.js:58 | `new Date(startDate)` is a valid Date object holding `startDate` |
| Calendar.JsDate.SetDate | smart-finance-backend/controllers/budgetController.js:59 | `setDate(n)` changes the object in place to the normalisation of the current year and month with day `n`, at the current time of day; a day out of range rolls into another month, and possibly another year |
| Calendar.JsDate.SetMonth | smart-finance-backend/controllers/budgetController.js:62 | `setMonth(m)` changes the object in place to the normalisation of the current year, month `m` and the current day of the month, at the current time of day; a month out of range changes the year, and a day the new month lacks rolls into the month after (January 31 to March 2 or 3) |
| Calendar.JsDate.SetFullYear | smart-finance-backend/controllers/budgetController.js:65 | `setFullYear(y)` changes the object in place to the normalisation of year `y` with the current month and day of the month, at the current time of day; February 29 in a year without one becomes March 1 |
| Ledger.Where | smart-finance-backend/controllers/reportController.js:15-21 | A query's result is no longer than the collection |
| Ledger.Total | smart-finance-backend/controllers/reportController.js:186 | (Definition.) The `reduce((sum, t) => sum + t.amount, 0)` over a list, first to last; TotalAppend and TotalWhereSnoc prove its properties |
| Ledger.Select | smart-finance-backend/controllers/reportController.js:15-21 | (Definition.) The query `{ user, date: { $gte, $lte } }` as a filter over the stored transactions; QueryMembers states what it returns |
| Ledger.SelectExpenses | smart-finance-backend/controllers/reportController.js:176-183 | (Definition.) The same query with `type: 'expense'` added; QueryMembers states what it returns |
| Ledger.HttpStatus | smart-finance-backend/controllers/budgetController.js:29-34 | The failures map to distinct statuses: 404 exactly for not found, 401 exactly for not authorized, 500 exactly for the null-category error |
| Ledger.WhereNone | smart-finance-backend/controllers/reportController.js:176-183 | A query that no stored transaction matches returns nothing |
| Ledger.WhereMembers | smart-finance-backend/controllers/reportController.js:15-21 | A transaction is returned exactly when it is stored and matches the query |
| Ledger.TotalAppend | smart-finance-backend/controllers/reportController.js:186 | The sum of amounts over two concatenated lists is the sum of their sums |
| Ledger.WhereSnoc | smart-finance-backend/controllers/reportController.js:27-33 | One more transaction extends the selection by that transaction exactly when it matches |
| Ledger.TotalWhereSnoc | smart-finance-backend/controllers/reportController.js:27-33 | One more transaction adds its amount to a selection's sum exactly when it matches |
| Ledger.IncomeAndExpensesCoverAll | smart-finance-backend/controllers/reportController.js:27-33 | `type === 'income'` and "everything else" split the transactions: their sums add up to the whole sum and their counts to the whole count |
| Ledger.QueryMembers | smart-finance-backend/controllers/reportController.js:176-183 | The month query returns exactly the caller's stored transactions dated inside the window, inclusive at both ends. The trend's query also requires type exactly `'expense'` |
| Grouping.FirstSeenSnoc | smart-finance-backend/controllers/reportController.js:75-83 | One more transaction adds its category id to the key order exactly when the id is new |
| Grouping.FirstSeen | smart-finance-backend/controllers/reportController.js:75-83 | (Definition.) The Map's key order: each category id in order of its first transaction; FirstSeenMembers proves it lists each id exactly once |
| Grouping.FirstSeenMembers | smart-finance-backend/controllers/reportController.js:71-88 | The Map's key order lists every category id of the transactions, and no other, exactly once |
| Grouping.Entries | smart-finance-backend/controllers/reportController.js:91 | (Definition; its properties are proved by GroupedProperties and GroupedSums.) The listed values are, position by position, the entries of the ids in key order |
| Grouping.EntryFor | smart-finance-backend/controllers/reportController.js:76-87 | (Definition.) A category's entry: its name, color and type, the sum of its transactions' amounts and their number |
| Grouping.Grouped | smart-finance-backend/controllers/reportController.js:71-91 | (Definition.) The reference grouping: the entries of the category ids in first-seen order; GroupedProperties and GroupedSums prove its properties |
| Grouping.GroupedProperties | smart-finance-backend/controllers/reportController.js:71-91 | The grouping has one entry per distinct category id, one for each transaction's category and none for any other. Each entry holds its category's name, color and type, the number of its transactions and the sum of their amounts |
| Grouping.ResolvedIds | smart-finance-backend/controllers/reportController.js:68 | When every transaction's category resolves, every id in the key order resolves |
| Grouping.GroupedEntries | smart-finance-backend/controllers/reportController.js:76-87 | Distinct ids give entries with distinct ids, each holding its own category's count and total |
| Grouping.GroupedCovers | smart-finance-backend/controllers/reportController.js:73-83 | Every transaction's category has an entry, and every entry comes from some transaction |
| Grouping.SumsAppend | smart-finance-backend/controllers/reportController.js:86-87 | Totals and counts add up over concatenated entry lists |
| Grouping.EntriesSnocTx | smart-finance-backend/controllers/reportController.js:85-87 | One more transaction adds its amount and 1 to the sums of the entries exactly when its category is among them |
| Grouping.NoneInCategory | smart-finance-backend/controllers/reportController.js:75 | A category id not yet seen has no transactions so far |
| Grouping.GroupedSums | smart-finance-backend/controllers/reportController.js:71-91 | The entries' totals add up to the window's total amount and their counts to its number of transactions |
| Grouping.GroupedSnoc | smart-finance-backend/controllers/reportController.js:85-87 | Counting one more transaction raises the sum of totals by its amount and the sum of counts by 1 |
| Grouping.NewCategorySnoc | smart-finance-backend/controllers/reportController.js:75-87 | A transaction with a new category id adds an entry holding its amount and a count of 1 |
| Grouping.GroupedIsEntries | smart-finance-backend/controllers/reportController.js:91 | The grouping is the entries of the ids in first-seen order |
| Grouping.AppendEntry | smart-finance-backend/controllers/reportController.js:76-87 | Appending the new category's entry adds that transaction's amount and a count of 1 to the sums |
| Grouping.FirstOfCategory | smart-finance-backend/controllers/reportController.js:76-87 | The first transaction of a category makes an entry with that amount and a count of 1 |
| Ranking.WithTotalMembers | smart-finance-backend/controllers/reportController.js:92 | An entry is among those with total `v` exactly when it is in the list and its total is `v` |
| Ranking.Insert | smart-finance-backend/controllers/reportController.js:92 | Inserting an entry gives a list one longer holding the same entries plus the inserted one |
| Ranking.InsertSorted | smart-finance-backend/controllers/reportController.js:92 | Inserting into a list sorted by non-increasing total keeps it sorted |
| Ranking.InsertStable | smart-finance-backend/controllers/reportController.js:92 | Insertion keeps the relative order of entries with equal totals, the new entry first |
| Ranking.SortByTotal | smart-finance-backend/controllers/reportController.js:91-92 | The sort returns a permutation of the Map's values ordered by non-increasing total |
| Ranking.SortStable | smart-finance-backend/controllers/reportController.js:91-92 | The sort is stable: entries with equal totals keep their order |
| Ranking.StableSortIsUnique | smart-finance-backend/controllers/reportController.js:92 | Two lists sorted by non-increasing total that agree, total by total, on the order of equal entries are the same list |
| Ranking.AnyStableSortAgrees | smart-finance-backend/controllers/reportController.js:91-92 | Every stable sort by non-increasing total of the values, `Array.prototype.sort` included, gives `SortByTotal`'s result |
| Ranking.SumsOfInsert | smart-finance-backend/controllers/reportController.js:92 | Insertion adds the entry's total and count to the sums |
| Ranking.SortKeepsSums | smart-finance-backend/controllers/reportController.js:91-92 | Sorting keeps the sums of totals and of counts |
| Ranking.PermutationKeepsDistinct | smart-finance-backend/controllers/reportController.js:91-92 | A permutation of entries with distinct category ids has distinct ids |
| ReportController.MonthWindow | smart-finance-backend/controllers/reportController.js:11-12 | A month's window starts at 00:00 on day 1 of the month and ends at 00:00 on the month's last day, both dates in that month |
| ReportController.JsMonthWindow | smart-finance-backend/controllers/reportController.js:11-12 | For a year of 100 or more, `new Date(y, m, 1)` and `new Date(y, m + 1, 0)` bound the window of the month `(y, m)` denotes |
| ReportController.MonthWindowMembership | smart-finance-backend/controllers/reportController.js:17-20 | A date is in a month's inclusive window exactly when it falls in that month, and before its last day or at 00:00 on it. A transaction later on the last day is outside |
| ReportController.CurrentMonthWindowLength | smart-finance-backend/controllers/reportController.js:10-12 | The current month's window runs from the 1st at 00:00 to day 28–31 at 00:00 of the same month; in February its end is day 29 exactly in a leap year |
| ReportController.SplitByType | smart-finance-backend/controllers/reportController.js:24-33 | The `forEach` loop's `income` is the sum of the `'income'` amounts and `expenses` the sum of all others; together they are the whole sum |
| ReportController.SplitStep | smart-finance-backend/controllers/reportController.js:27-33 | One turn of the loop adds the amount to `income` when the type is `'income'`, and to `expenses` otherwise |
| ReportController.FinancialSummary | smart-finance-backend/controllers/reportController.js:10-43 | The summary's income and expenses are the split sums of the caller's current-month transactions; they add up to their total; `balance = income - expenses`; `transactions` is their number |
| ReportController.TallySnoc | smart-finance-backend/controllers/reportController.js:73-88 | The Map after one more transaction is one more turn of the `forEach` on the Map before it |
| ReportController.Counted | smart-finance-backend/controllers/reportController.js:74-87 | (Definition.) One turn of the `forEach`: a category seen for the first time gets an entry of total 0 and count 0, then its entry adds the amount and 1 |
| ReportController.Tally | smart-finance-backend/controllers/reportController.js:71-88 | (Definition.) The Map after the `forEach` over a list: one `Counted` turn per transaction, first to last; TallyKeys and TallyEntry prove what it holds |
| ReportController.TallyKeys | smart-finance-backend/controllers/reportController.js:75-83 | The Map has a key exactly for each category id that occurs among the transactions |
| ReportController.TallyEntry | smart-finance-backend/controllers/reportController.js:76-87 | Each key holds its category's name, color and type, and the count and total of that category's transactions |
| ReportController.EntryForSnoc | smart-finance-backend/controllers/reportController.js:85-87 | One more transaction changes only its own category's entry, adding its amount and 1 |
| ReportController.TallyByCategory | smart-finance-backend/controllers/reportController.js:71-88 | The loop that fills the Map in place succeeds exactly when every transaction's category resolves; it then leaves the Map `Tally` describes, with keys in first-seen order |
| ReportController.TallyStep | smart-finance-backend/controllers/reportController.js:74-87 | One turn of the loop takes the Map and key order of a prefix to those of the prefix one longer |
| ReportController.GroupByCategory | smart-finance-backend/controllers/reportController.js:71-91 | Grouping fails with the null-category error exactly when some category does not resolve; otherwise its result is the grouping, with values in key insertion order |
| ReportController.InOrder | smart-finance-backend/controllers/reportController.js:91 | (Definition; AccumulatedIsGrouped relates it to the grouping.) `Array.from(map.values())` lists, position by position, the value of each key in insertion order |
| ReportController.AccumulatedIsGrouped | smart-finance-backend/controllers/reportController.js:71-91 | The filled Map's values, in insertion order, are the grouping |
| ReportController.CategoryBreakdown | smart-finance-backend/controllers/reportController.js:57-92 | The breakdown fails exactly when a current-month transaction's category is null; otherwise it is the grouping of the current-month transactions, sorted stably by non-increasing total |
| ReportController.BreakdownProperties | smart-finance-backend/controllers/reportController.js:71-92 | The breakdown has one entry per distinct category, each with its count and total. It is a permutation of the Map's values, sorted by non-increasing total and stable for ties. Its totals sum to the window's income plus expenses and its counts to the number of transactions |
| ReportController.ComparisonRowSplit | smart-finance-backend/controllers/reportController.js:130-146 | A comparison row's income and expenses add up to its month's total, and its balance is their difference |
| ReportController.ComparisonRow | smart-finance-backend/controllers/reportController.js:130-146 | (Definition.) A month's comparison row: the month, the `'income'` sum, the sum of all other types and their difference, over the month's window |
| ReportController.TrendRow | smart-finance-backend/controllers/reportController.js:176-190 | (Definition.) A month's trend row: the month and the sum of the caller's `'expense'` transactions in its window |
| ReportController.TrendRowEmpty | smart-finance-backend/controllers/reportController.js:176-191 | A month without the caller's `'expense'` transactions is still listed, with amount 0 |
| ReportController.TrailingMonths | smart-finance-backend/controllers/reportController.js:113-114 | (Definition; TrailingMonthsConsecutive and MonthsBack prove its properties.) There are `n` trailing months, each a valid month, the `j`-th being `now.getMonth() - (n - 1) + j` normalised |
| ReportController.MonthsBack | smart-finance-backend/controllers/reportController.js:114-116 | For a current year of 100 or more, `new Date(y, now.getMonth() - i, 1)` falls in the trailing month at position `n - 1 - i`, even across a year boundary |
| ReportController.TrailingMonthsConsecutive | smart-finance-backend/controllers/reportController.js:113-116 | The trailing months are consecutive, oldest first, and the last is the current month |
| ReportController.Comparison | smart-finance-backend/controllers/reportController.js:113-147 | The comparison has exactly six rows |
| ReportController.ComparisonMonths | smart-finance-backend/controllers/reportController.js:113-147 | The comparison's six months are consecutive, oldest first, and end with the current month |
| ReportController.ComparisonFor | smart-finance-backend/controllers/reportController.js:115-146 | One pass of the loop computes the comparison row of the month its date denotes |
| ReportController.MonthlyComparison | smart-finance-backend/controllers/reportController.js:110-147 | The loop from `i = 5` down to 0 pushes exactly the comparison's rows, in order |
| ReportController.Trend | smart-finance-backend/controllers/reportController.js:168-192 | The trend has exactly twelve rows |
| ReportController.TrendMonths | smart-finance-backend/controllers/reportController.js:168-192 | The trend's twelve months are consecutive, oldest first, and end with the current month |
| ReportController.TrendFor | smart-finance-backend/controllers/reportController.js:170-191 | One pass of the loop computes the `'expense'` sum of the month its date denotes |
| ReportController.SpendingTrends | smart-finance-backend/controllers/reportController.js:165-192 | The loop from `i = 11` down to 0 pushes exactly the trend's rows, in order |
| BudgetController.FromMonthStart | smart-finance-backend/controllers/budgetController.js:59 | Counting `day + n - 1` days from the first of the start's month is moving the start by `n` days |
| BudgetController.PeriodOf | smart-finance-backend/controllers/budgetController.js:57-66 | (Definition.) The `if`/`else if` tests on the period: exactly `'weekly'`, `'monthly'` or `'yearly'`; any other string is unknown |
| BudgetController.PeriodEnd | smart-finance-backend/controllers/budgetController.js:57-66 | (Definition.) The end date a period gives: the start with its day raised by 7, its month by 1 or its year by 1, normalised as the setters do; none for an unknown period. WeeklyEnd, MonthlyEnd, YearlyEnd and PeriodEndIsLater prove its properties |
| BudgetController.DayOffset | smart-finance-backend/controllers/budgetController.js:59 | `setDate(getDate() + n)` moves a date by `n` calendar days, across month and year ends |
| BudgetController.WeeklyEnd | smart-finance-backend/controllers/budgetController.js:57-59 | A weekly budget ends 7 calendar days after it starts, at the same time of day |
| BudgetController.NextMonthDay | smart-finance-backend/controllers/budgetController.js:62 | `setMonth(getMonth() + 1)` counts the day of the month from the first of the next month |
| BudgetController.NextMonthOffset | smart-finance-backend/controllers/budgetController.js:62 | `setMonth(getMonth() + 1)` moves the date by as many days as the start month has |
| BudgetController.AcrossStartMonth | smart-finance-backend/controllers/budgetController.js:62 | Counting from the first of the next month is counting a whole start month further from the first of the start month |
| BudgetController.MonthlyEnd | smart-finance-backend/controllers/budgetController.js:60-62 | A monthly budget ends as many days after it starts as its start month has |
| BudgetController.MonthlyKeepsDay | smart-finance-backend/controllers/budgetController.js:60-62 | When the next month has the start's day, a monthly budget ends on that day of the next month |
| BudgetController.MonthlyOverflow | smart-finance-backend/controllers/budgetController.js:60-62 | When the next month lacks the start's day, the surplus days roll into the month after it |
| BudgetController.OverflowIntoNextMonth | smart-finance-backend/controllers/budgetController.js:62 | A day 29–31 that a month lacks falls on day `d - DaysInMonth` of the month after |
| BudgetController.JanuaryThirtyFirst | smart-finance-backend/controllers/budgetController.js:60-62 | A monthly budget started on January 31 ends on March 3, or on March 2 in a leap year |
| BudgetController.YearlySameDate | smart-finance-backend/controllers/budgetController.js:63-65 | Except from February 29, a yearly budget ends on the same date of the next year |
| BudgetController.YearlyLeapDay | smart-finance-backend/controllers/budgetController.js:63-65 | A yearly budget started on February 29 ends on March 1 of the next year |
| BudgetController.YearlyEnd | smart-finance-backend/controllers/budgetController.js:63-65 | A yearly budget ends on the same date of the next year, except that February 29 becomes March 1 |
| BudgetController.PeriodEndIsLater | smart-finance-backend/controllers/budgetController.js:55-68 | The end date is defined exactly for the three known periods, and it is then strictly later than the start |
| BudgetController.EndDateFor | smart-finance-backend/controllers/budgetController.js:54-68 | The `if`/`else if` chain moves a copy of the start with the setter of the period's unit; any other period leaves `endDate` undefined |
| BudgetController.NewBudgetOwnerAndEnd | smart-finance-backend/controllers/budgetController.js:51-70 | The stored owner is always the caller, and the end date always comes from the creation time and the period. The body's own `user`, `endDate` and `startDate` have no say in them |
| BudgetController.Stored | smart-finance-backend/controllers/budgetController.js:70 | (Definition.) The record `Budget.create` stores from a body: its fields, with the creation time as start date when the body has none |
| BudgetController.NewBudget | smart-finance-backend/controllers/budgetController.js:51-70 | (Definition.) What `createBudget` stores: the body with `user` set to the caller and `endDate` set from the creation time and the period; NewBudgetOwnerAndEnd proves its properties |
| BudgetController.Authorize | smart-finance-backend/controllers/budgetController.js:26-35 | 404 exactly when the id is missing; 401 exactly when it belongs to someone else; otherwise the stored budget |
| BudgetController.GuardStatus | smart-finance-backend/controllers/budgetController.js:28-35 | A missing budget is answered with 404 before the owner is looked at; someone else's budget is answered with 401 |
| BudgetController.UpdateKeepsEndDate | smart-finance-backend/controllers/budgetController.js:97-100 | An update never recomputes `endDate`: it changes only when the body sets it. The body's `user` passes through. An empty body changes nothing |
| BudgetController.Patched | smart-finance-backend/controllers/budgetController.js:97-100 | (Definition.) The record `findByIdAndUpdate` leaves: each field the body sets replaces the stored one, the others stay; UpdateKeepsEndDate proves its properties |
| BudgetController.BudgetTransactionsMembers | smart-finance-backend/controllers/budgetController.js:155-162 | The status selects exactly the caller's transactions of the budget's category, of any type, dated within `[startDate, endDate]` inclusive; none when there is no end date |
| BudgetController.InBudget | smart-finance-backend/controllers/budgetController.js:155-162 | (Definition.) The status query: the caller's transactions of the budget's category dated in `[startDate, endDate]`, and none when the budget has no end date |
| BudgetController.BudgetTransactions | smart-finance-backend/controllers/budgetController.js:155-162 | (Definition.) The status query as a filter over the stored transactions; BudgetTransactionsMembers states what it returns |
| BudgetController.StatusOf | smart-finance-backend/controllers/budgetController.js:164-166 | `remaining + totalSpent == amount`. The percentage exists exactly for a non-zero amount, and then `percentage * amount == totalSpent * 100` |
| BudgetController.StatusReport | smart-finance-backend/controllers/budgetController.js:155-175 | `totalSpent` is the selection's sum and `transactions` its size. For a positive amount, `remaining` is negative exactly when the percentage exceeds 100. A budget without an end date reports nothing spent |
| BudgetController.OverHundred | smart-finance-backend/controllers/budgetController.js:166 | For a positive amount, the percentage exceeds 100 exactly when the amount spent exceeds the budget |
| BudgetController.BudgetStore.constructor | smart-finance-backend/controllers/budgetController.js:70 | The collection starts empty |
| BudgetController.BudgetStore.CreateBudget | smart-finance-backend/controllers/budgetController.js:49-79 | `createBudget` stores, under a fresh id and leaving the others unchanged, the body with the caller as owner and the derived end date |
| BudgetController.BudgetStore.GetBudget | smart-finance-backend/controllers/budgetController.js:24-44 | `getBudget` answers with the guard's verdict: 404, 401 or the budget |
| BudgetController.BudgetStore.UpdateBudget | smart-finance-backend/controllers/budgetController.js:84-109 | A rejected update answers 404 or 401 and changes nothing. An accepted one replaces the fields the body sets and returns the new record |
| BudgetController.BudgetStore.DeleteBudget | smart-finance-backend/controllers/budgetController.js:114-136 | A rejected delete answers 404 or 401 and changes nothing. An accepted one removes exactly that budget |
| BudgetController.BudgetStore.GetBudgetStatus | smart-finance-backend/controllers/budgetController.js:141-181 | A rejected request answers 404 or 401. An accepted one reports the status of the stored budget over the stored transactions |

## Left out

- **Time zones, daylight saving time and the sub-day clock.** A date is a local calendar date plus an opaque time of day, which the setters keep. `new Date()` is the parameter `now`.
- **The constructor's two-digit-year rule.** `new Date(y, m, d)` reads a year 0–99 as 1900 + y (reportController.js:11-12, 58-59, 114-116, 169-171); the setters do not. It is not modelled: `now` is the current time, so every constructor call in the handlers has a year of 100 or more.
- **The range of JavaScript dates** (±8.64e15 ms). Years are unbounded integers.
- **Month labels.** `toLocaleString` output is locale- and host-dependent (reportController.js:118 and 173). Each row carries the month it labels, as a (year, month index) pair.
- **Floating point.** Amounts are integers; the percentage is a real number.
- BudgetController.StatusOf: for a zero amount, the percentage is left out (`None`), where JavaScript computes `Infinity` or `NaN`.
- **Mongoose: schema validation, defaults and casting.**
  - models/Budget.js is not part of this model.
  - A body without `startDate` is stored with the creation time as its start date; this assumes the schema defaults it to now.
  - A budget without an end date selects no transactions; this assumes `$lte: undefined` matches nothing.
  - `runValidators` on update is not modelled.
- BudgetController.BudgetStore.UpdateBudget: the body's fields replace the stored ones whatever their values; a value the schema would reject is not modelled.
- **ObjectId identity.** The breakdown's `Map` keys on `category._id`. The model groups by the id's value, so two transactions with the same category share one entry.
- **`getBudgets`** (budgetController.js:7-19). A plain `find` by owner, with no computation.
- **Errors handed to `next(err)`.** These become a 500 response and are not modelled, with one exception: the `TypeError` a null populated category raises in the breakdown. It is modelled as the `NullCategory` failure.
- **Asynchronous I/O.** Every `await` is a plain call on the in-memory store.
- **The routes, the server and the other controllers.** Only Express wiring and thin store wrappers; the same guard as the budget handlers.
