/** The four report handlers: the current month's summary and category
    breakdown, the six-month income/expense comparison and the twelve-month
    spending trend. The database query of each handler is `Select` or
    `SelectExpenses` over the stored transactions; "now" is a parameter. */
module ReportController {
  import opened Calendar
  import opened Ledger
  import opened Grouping
  import opened Ranking

  /** A calendar month as a query window: from 00:00 on its first day to
      00:00 on its last day, both ends included. */
  function MonthWindow(k: Month): (w: Window)
    requires ValidMonth(k)
    ensures ValidDate(w.start) && ValidDate(w.end)
    ensures w.start.day == 1 && w.start.time == 0 && w.end.time == 0
    ensures MonthOfDate(w.start) == k && MonthOfDate(w.end) == k
    ensures w.end == Shift(w.start, DaysInMonth(k) - 1)
  {
    ShiftWithinMonth(k, DaysInMonth(k) - 1, 0);
    Window(FirstDay(k, 0), LastDay(k, 0))
  }

  /** The window the handlers build as `new Date(y, m, 1)` and
      `new Date(y, m + 1, 0)`: the whole of the month that (y, m) denotes
      (for a year of 100 or more, as any current `now` has). */
  function JsMonthWindow(y: int, m: int): (w: Window)
    ensures w == MonthWindow(MonthOf(y, m))
  {
    DayZeroIsLastDay(y, m, 0);
    Window(Normalize(y, m, 1, 0), Normalize(y, m + 1, 0, 0))
  }

  /** A date lies in a month's window exactly when it falls in that month
      and is not later than 00:00 on its last day. */
  lemma MonthWindowMembership(d: Date, k: Month)
    requires ValidDate(d) && ValidMonth(k)
    ensures InWindow(d, MonthWindow(k)) <==> MonthOfDate(d) == k && (d.day < DaysInMonth(k) || d.time == 0)
  {
  }

  /** The current month's window spans 28 to 31 days, 29 for a leap February. */
  lemma CurrentMonthWindowLength(now: Date)
    requires ValidDate(now)
    ensures var w := JsMonthWindow(now.year, now.month);
      && w.start == Date(now.year, now.month, 1, 0)
      && w.end == Date(now.year, now.month, w.end.day, 0)
      && 28 <= w.end.day <= 31
      && (now.month == 1 ==> (w.end.day == 29 <==> IsLeapYear(now.year)))
  {
    assert MonthOf(now.year, now.month) == MonthOfDate(now);
  }

  datatype Summary = Summary(income: int, expenses: int, balance: int, transactions: nat)

  /** The `forEach` loop shared by the summary and the comparison: a
      transaction whose type is exactly 'income' adds to income, every other
      one, unknown types included, to expenses. */
  method SplitByType(txs: seq<Transaction>) returns (income: int, expenses: int)
    ensures income == Total(Where(txs, IsIncome))
    ensures expenses == Total(Where(txs, IsNotIncome))
    ensures income + expenses == Total(txs)
  {
    income, expenses := 0, 0;
    for i := 0 to |txs|
      invariant income == Total(Where(txs[..i], IsIncome))
      invariant expenses == Total(Where(txs[..i], IsNotIncome))
    {
      SplitStep(txs, i);
      if txs[i].kind == IncomeType {
        income := income + txs[i].amount;
      } else {
        expenses := expenses + txs[i].amount;
      }
    }
    assert txs[..|txs|] == txs;
    IncomeAndExpensesCoverAll(txs);
  }

  lemma SplitStep(txs: seq<Transaction>, i: int)
    requires 0 <= i < |txs|
    ensures Total(Where(txs[..i + 1], IsIncome)) == Total(Where(txs[..i], IsIncome)) + (if txs[i].kind == IncomeType then txs[i].amount else 0)
    ensures Total(Where(txs[..i + 1], IsNotIncome)) == Total(Where(txs[..i], IsNotIncome)) + (if txs[i].kind == IncomeType then 0 else txs[i].amount)
  {
    assert txs[..i + 1] == txs[..i] + [txs[i]];
    TotalWhereSnoc(txs[..i], txs[i], IsIncome);
    TotalWhereSnoc(txs[..i], txs[i], IsNotIncome);
  }

  /** `getFinancialSummary`: income, expenses, balance and the number of the
      caller's transactions in the current month's window. */
  method FinancialSummary(ledger: seq<Transaction>, user: UserId, now: Date) returns (s: Summary)
    requires ValidDate(now)
    ensures var txs := Select(ledger, user, MonthWindow(MonthOfDate(now)));
      && s.income == Total(Where(txs, IsIncome))
      && s.expenses == Total(Where(txs, IsNotIncome))
      && s.income + s.expenses == Total(txs)
      && s.balance == s.income - s.expenses
      && s.transactions == |txs|
  {
    var w := JsMonthWindow(now.year, now.month);
    assert MonthOf(now.year, now.month) == MonthOfDate(now);
    var txs := Select(ledger, user, w);
    var income, expenses := SplitByType(txs);
    var balance := income - expenses;
    s := Summary(income, expenses, balance, |txs|);
  }

  /** One turn of the breakdown's `forEach` on the Map `m`: the category `c`
      of transaction `t` gets an entry of count and total 0 if it has none,
      then its entry counts `t` and adds its amount. */
  function Counted(m: map<CategoryId, CategoryEntry>, t: Transaction, c: Category): map<CategoryId, CategoryEntry> {
    var started := if t.category in m then m else m[t.category := CategoryEntry(t.category, c.name, c.color, c.kind, 0, 0)];
    var e := started[t.category];
    started[t.category := e.(total := e.total + t.amount, count := e.count + 1)]
  }

  /** The breakdown's Map after the transactions `s`, one turn per transaction. */
  function Tally(s: seq<Transaction>, cats: map<CategoryId, Category>): map<CategoryId, CategoryEntry>
    requires AllResolved(s, cats)
  {
    if s == [] then map[]
    else
      var t := s[|s| - 1];
      Counted(Tally(s[..|s| - 1], cats), t, cats[t.category])
  }

  /** Counting the transaction at index `i` takes the Map of the prefix
      before it to the Map of the prefix that ends with it. */
  lemma TallySnoc(txs: seq<Transaction>, i: int, cats: map<CategoryId, Category>)
    requires 0 <= i < |txs| && AllResolved(txs[..i + 1], cats)
    ensures AllResolved(txs[..i], cats)
    ensures Tally(txs[..i + 1], cats) == Counted(Tally(txs[..i], cats), txs[i], cats[txs[i].category])
  {
    assert txs[..i + 1][..i] == txs[..i];
  }

  /** The Map has a key exactly for each category id that occurs in `s`. */
  lemma {:induction false} TallyKeys(s: seq<Transaction>, cats: map<CategoryId, Category>)
    requires AllResolved(s, cats)
    ensures forall k :: k in Tally(s, cats) <==> k in FirstSeen(s)
  {
    if s != [] {
      var init, t := s[..|s| - 1], s[|s| - 1];
      assert s == init + [t];
      TallyKeys(init, cats);
      FirstSeenSnoc(init, t);
    }
  }

  /** Each key holds its category's fields and the count and total of its
      transactions in `s`. */
  lemma {:induction false} TallyEntry(s: seq<Transaction>, cats: map<CategoryId, Category>, k: CategoryId)
    requires AllResolved(s, cats) && k in Tally(s, cats)
    ensures k in cats && Tally(s, cats)[k] == EntryFor(k, cats[k], s)
  {
    TallyKeys(s, cats);
    ResolvedIds(s, cats);
    var init, t := s[..|s| - 1], s[|s| - 1];
    assert s == init + [t];
    var m := Tally(init, cats);
    TallyKeys(init, cats);
    EntryForSnoc(k, cats[k], init, t);
    if k in m {
      TallyEntry(init, cats, k);
    } else if k == t.category {
      NoneInCategory(init, k);
    }
  }

  /** Counting one more transaction changes only its own category's entry. */
  lemma EntryForSnoc(k: CategoryId, c: Category, s: seq<Transaction>, t: Transaction)
    ensures var e := EntryFor(k, c, s);
      EntryFor(k, c, s + [t]) == if t.category == k then e.(total := e.total + t.amount, count := e.count + 1) else e
  {
    TotalWhereSnoc(s, t, InCategory(k));
    WhereSnoc(s, t, InCategory(k));
  }

  /** The breakdown's `forEach` over the populated transactions: a Map from
      category id to its entry, filled in place, whose keys `order` lists in
      insertion order. A transaction whose category does not resolve makes
      `category._id` throw; `resolved` is then false. */
  method TallyByCategory(txs: seq<Transaction>, cats: map<CategoryId, Category>)
    returns (resolved: bool, entries: map<CategoryId, CategoryEntry>, order: seq<CategoryId>)
    ensures resolved <==> AllResolved(txs, cats)
    ensures resolved ==> entries == Tally(txs, cats) && order == FirstSeen(txs)
  {
    order := [];
    entries := map[];
    for i := 0 to |txs|
      invariant AllResolved(txs[..i], cats)
      invariant order == FirstSeen(txs[..i])
      invariant entries == Tally(txs[..i], cats)
    {
      var t := txs[i];
      if t.category !in cats {
        return false, entries, order;
      }
      ghost var before, orderBefore := entries, order;
      var c := cats[t.category];
      if t.category !in entries {
        entries := entries[t.category := CategoryEntry(t.category, c.name, c.color, c.kind, 0, 0)];
        order := order + [t.category];
      }
      var e := entries[t.category];
      entries := entries[t.category := e.(total := e.total + t.amount, count := e.count + 1)];
      TallyStep(txs, i, cats, before, orderBefore);
    }
    assert txs[..|txs|] == txs;
    resolved := true;
  }

  /** One turn of the `forEach` on the Map `entries` and key order `order`
      of the transactions before index `i`. */
  lemma TallyStep(txs: seq<Transaction>, i: int, cats: map<CategoryId, Category>,
                  entries: map<CategoryId, CategoryEntry>, order: seq<CategoryId>)
    requires 0 <= i < |txs| && AllResolved(txs[..i], cats) && txs[i].category in cats
    requires entries == Tally(txs[..i], cats) && order == FirstSeen(txs[..i])
    ensures AllResolved(txs[..i + 1], cats)
    ensures Tally(txs[..i + 1], cats) == Counted(entries, txs[i], cats[txs[i].category])
    ensures FirstSeen(txs[..i + 1]) == if txs[i].category in entries then order else order + [txs[i].category]
  {
    PrefixSnoc(txs, i);
    TallySnoc(txs, i, cats);
    FirstSeenSnoc(txs[..i], txs[i]);
    TallyKeys(txs[..i], cats);
  }

  /** The grouping step of `getCategoryBreakdown`: the Map's values in
      insertion order, or the failure an unresolvable category causes. */
  method GroupByCategory(txs: seq<Transaction>, cats: map<CategoryId, Category>) returns (r: Result<seq<CategoryEntry>>)
    ensures !AllResolved(txs, cats) <==> r == Err(NullCategory)
    ensures AllResolved(txs, cats) ==> r == Ok(Grouped(txs, cats))
  {
    var resolved, entries, order := TallyByCategory(txs, cats);
    if !resolved {
      return Err(NullCategory);
    }
    AccumulatedIsGrouped(txs, cats);
    r := Ok(InOrder(entries, order));
  }

  /** The Map's values in key insertion order, as `Array.from(map.values())` lists them. */
  function InOrder(entries: map<CategoryId, CategoryEntry>, order: seq<CategoryId>): (r: seq<CategoryEntry>)
    requires forall k :: k in order ==> k in entries
    ensures |r| == |order| && forall j :: 0 <= j < |order| ==> r[j] == entries[order[j]]
  {
    seq(|order|, j requires 0 <= j < |order| => entries[order[j]])
  }

  /** Once every transaction is counted, the Map's values in insertion order are the grouping. */
  lemma AccumulatedIsGrouped(txs: seq<Transaction>, cats: map<CategoryId, Category>)
    requires AllResolved(txs, cats)
    ensures forall k :: k in FirstSeen(txs) ==> k in Tally(txs, cats)
    ensures InOrder(Tally(txs, cats), FirstSeen(txs)) == Grouped(txs, cats)
  {
    TallyKeys(txs, cats);
    GroupedIsEntries(txs, cats);
    forall k | k in FirstSeen(txs) ensures Tally(txs, cats)[k] == EntryFor(k, cats[k], txs) {
      TallyEntry(txs, cats, k);
    }
  }

  /** `getCategoryBreakdown`: the current month's transactions grouped by
      category, sorted by non-increasing total (stably); or the 500 that an
      unresolvable category causes. */
  method CategoryBreakdown(ledger: seq<Transaction>, cats: map<CategoryId, Category>, user: UserId, now: Date)
    returns (r: Result<seq<CategoryEntry>>)
    requires ValidDate(now)
    ensures var txs := Select(ledger, user, MonthWindow(MonthOfDate(now)));
      && (!AllResolved(txs, cats) <==> r == Err(NullCategory))
      && (AllResolved(txs, cats) ==> r == Ok(SortByTotal(Grouped(txs, cats))))
  {
    var w := JsMonthWindow(now.year, now.month);
    assert MonthOf(now.year, now.month) == MonthOfDate(now);
    var txs := Select(ledger, user, w);
    var grouped := GroupByCategory(txs, cats);
    if grouped.Err? {
      return grouped;
    }
    r := Ok(SortByTotal(grouped.value));
  }

  /** The breakdown lists each category of the window exactly once, with the
      number and the sum of its transactions, ordered by non-increasing total
      with ties in order of first appearance; its totals add up to the
      summary's income plus expenses and its counts to the summary's count. */
  lemma BreakdownProperties(txs: seq<Transaction>, cats: map<CategoryId, Category>)
    requires AllResolved(txs, cats)
    ensures var r := SortByTotal(Grouped(txs, cats));
      && DistinctCategories(r)
      && (forall t :: t in txs ==> exists j :: 0 <= j < |r| && r[j].category == t.category)
      && (forall e :: e in r ==> e.category in cats && e == EntryFor(e.category, cats[e.category], txs))
      && SortedByTotal(r)
      && multiset(r) == multiset(Grouped(txs, cats))
      && (forall v :: WithTotal(r, v) == WithTotal(Grouped(txs, cats), v))
      && SumTotals(r) == Total(Where(txs, IsIncome)) + Total(Where(txs, IsNotIncome))
      && SumCounts(r) == |txs|
  {
    var g := Grouped(txs, cats);
    var r := SortByTotal(g);
    GroupedProperties(txs, cats);
    PermutationKeepsDistinct(g, r);
    forall t | t in txs ensures exists j :: 0 <= j < |r| && r[j].category == t.category {
      var j :| 0 <= j < |g| && g[j].category == t.category;
      assert g[j] in multiset(r);
      var j' :| 0 <= j' < |r| && r[j'] == g[j];
    }
    forall e | e in r ensures e.category in cats && e == EntryFor(e.category, cats[e.category], txs) {
      assert e in multiset(g);
    }
    forall v ensures WithTotal(r, v) == WithTotal(g, v) {
      SortStable(g, v);
    }
    SortKeepsSums(g);
    GroupedSums(txs, cats);
    IncomeAndExpensesCoverAll(txs);
  }

  /** One row of the monthly comparison. */
  datatype MonthTotals = MonthTotals(month: Month, income: int, expenses: int, balance: int)

  /** One row of the spending trend. */
  datatype MonthAmount = MonthAmount(month: Month, amount: int)

  /** The comparison row of month `k`: the summary's split over that month's window. */
  function ComparisonRow(ledger: seq<Transaction>, user: UserId, k: Month): MonthTotals
    requires ValidMonth(k)
  {
    var txs := Select(ledger, user, MonthWindow(k));
    var income := Total(Where(txs, IsIncome));
    var expenses := Total(Where(txs, IsNotIncome));
    MonthTotals(k, income, expenses, income - expenses)
  }

  /** A comparison row splits all of its month's transactions between income
      and expenses, and its balance is their difference. */
  lemma ComparisonRowSplit(ledger: seq<Transaction>, user: UserId, k: Month)
    requires ValidMonth(k)
    ensures var row, txs := ComparisonRow(ledger, user, k), Select(ledger, user, MonthWindow(k));
      && row.month == k
      && row.income + row.expenses == Total(txs)
      && row.balance == Total(Where(txs, IsIncome)) - Total(Where(txs, IsNotIncome))
  {
    IncomeAndExpensesCoverAll(Select(ledger, user, MonthWindow(k)));
  }

  /** The trend row of month `k`: the sum of that month's transactions whose
      type is exactly 'expense'. */
  function TrendRow(ledger: seq<Transaction>, user: UserId, k: Month): MonthAmount
    requires ValidMonth(k)
  {
    MonthAmount(k, Total(SelectExpenses(ledger, user, MonthWindow(k))))
  }

  /** A month in which the caller has no transaction of type 'expense' shows 0. */
  lemma TrendRowEmpty(ledger: seq<Transaction>, user: UserId, k: Month)
    requires ValidMonth(k)
    requires forall t :: t in ledger && t.user == user && t.kind == ExpenseType ==> !InWindow(t.date, MonthWindow(k))
    ensures TrendRow(ledger, user, k) == MonthAmount(k, 0)
  {
    WhereNone(ledger, ExpensesOwnedIn(user, MonthWindow(k)));
  }

  /** The `n` months ending with now's month, oldest first. */
  function TrailingMonths(now: Date, n: nat): (ks: seq<Month>)
    ensures |ks| == n
    ensures forall j :: 0 <= j < n ==> ks[j] == MonthOf(now.year, now.month - (n - 1) + j) && ValidMonth(ks[j])
  {
    seq(n, j => MonthOf(now.year, now.month - (n - 1) + j))
  }

  /** The first day of the month `i` months before now's, as
      `new Date(now.getFullYear(), now.getMonth() - i, 1)` builds it, lies in
      the month at position `n - 1 - i` of the trailing `n`. */
  lemma MonthsBack(now: Date, n: nat, i: int)
    requires 0 <= i < n
    ensures var date := Normalize(now.year, now.month - i, 1, 0);
      MonthOf(date.year, date.month) == TrailingMonths(now, n)[n - 1 - i]
  {
    var date := Normalize(now.year, now.month - i, 1, 0);
    assert MonthOf(date.year, date.month) == MonthOfDate(date);
    assert now.month - (n - 1) + (n - 1 - i) == now.month - i;
  }

  /** Those months are consecutive and the last of them is now's month. */
  lemma TrailingMonthsConsecutive(now: Date, n: nat)
    requires ValidDate(now) && n > 0
    ensures var ks := TrailingMonths(now, n);
      && (forall j :: 0 <= j < n ==> ValidMonth(ks[j]))
      && ks[n - 1] == MonthOfDate(now)
      && (forall j :: 0 <= j < n - 1 ==> ks[j + 1] == NextMonth(ks[j]))
  {
    var ks := TrailingMonths(now, n);
    forall j | 0 <= j < n - 1 ensures ks[j + 1] == NextMonth(ks[j]) {
      NextMonthOf(now.year, now.month - (n - 1) + j);
    }
    assert ks[n - 1] == MonthOf(now.year, now.month) == MonthOfDate(now);
  }

  /** The response of `getMonthlyComparison`: one comparison row per month
      of the six ending with now's month, oldest first. */
  function Comparison(ledger: seq<Transaction>, user: UserId, now: Date): (rows: seq<MonthTotals>)
    ensures |rows| == 6
  {
    var ks := TrailingMonths(now, 6);
    seq(6, j requires 0 <= j < 6 => ComparisonRow(ledger, user, ks[j]))
  }

  /** The comparison's rows are the six consecutive months ending with now's
      month, each with that month's split of its transactions. */
  lemma ComparisonMonths(ledger: seq<Transaction>, user: UserId, now: Date)
    requires ValidDate(now)
    ensures var rows := Comparison(ledger, user, now);
      && rows[5].month == MonthOfDate(now)
      && (forall j :: 0 <= j < 5 ==> ValidMonth(rows[j].month) && rows[j + 1].month == NextMonth(rows[j].month))
  {
    TrailingMonthsConsecutive(now, 6);
  }

  /** One pass of the comparison loop: the window of the month that
      (y, m) denotes, its query and its split by type. */
  method ComparisonFor(ledger: seq<Transaction>, user: UserId, y: int, m: int) returns (row: MonthTotals)
    ensures row == ComparisonRow(ledger, user, MonthOf(y, m))
  {
    var w := JsMonthWindow(y, m);
    var txs := Select(ledger, user, w);
    var income, expenses := SplitByType(txs);
    row := MonthTotals(MonthOf(y, m), income, expenses, income - expenses);
  }

  /** `getMonthlyComparison`: the loop from five months back to now's month. */
  method MonthlyComparison(ledger: seq<Transaction>, user: UserId, now: Date) returns (months: seq<MonthTotals>)
    ensures months == Comparison(ledger, user, now)
  {
    months := [];
    var i := 5;
    while i >= 0
      invariant -1 <= i <= 5
      invariant months == Comparison(ledger, user, now)[..5 - i]
    {
      var date := Normalize(now.year, now.month - i, 1, 0);
      MonthsBack(now, 6, i);
      var row := ComparisonFor(ledger, user, date.year, date.month);
      PrefixSnoc(Comparison(ledger, user, now), 5 - i);
      assert Comparison(ledger, user, now)[5 - i] == row;
      months := months + [row];
      i := i - 1;
    }
  }

  /** The response of `getSpendingTrends`: one trend row per month of the
      twelve ending with now's month, oldest first. */
  function Trend(ledger: seq<Transaction>, user: UserId, now: Date): (rows: seq<MonthAmount>)
    ensures |rows| == 12
  {
    var ks := TrailingMonths(now, 12);
    seq(12, j requires 0 <= j < 12 => TrendRow(ledger, user, ks[j]))
  }

  /** The trend's rows are the twelve consecutive months ending with now's
      month, each with that month's expense sum. */
  lemma TrendMonths(ledger: seq<Transaction>, user: UserId, now: Date)
    requires ValidDate(now)
    ensures var rows := Trend(ledger, user, now);
      && rows[11].month == MonthOfDate(now)
      && (forall j :: 0 <= j < 11 ==> ValidMonth(rows[j].month) && rows[j + 1].month == NextMonth(rows[j].month))
  {
    TrailingMonthsConsecutive(now, 12);
  }

  /** One pass of the trend loop: the sum of the expenses in the window of
      the month that (y, m) denotes. */
  method TrendFor(ledger: seq<Transaction>, user: UserId, y: int, m: int) returns (row: MonthAmount)
    ensures row == TrendRow(ledger, user, MonthOf(y, m))
  {
    var w := JsMonthWindow(y, m);
    var txs := SelectExpenses(ledger, user, w);
    var totalExpenses := Total(txs);
    row := MonthAmount(MonthOf(y, m), totalExpenses);
  }

  /** `getSpendingTrends`: the loop from eleven months back to now's month. */
  method SpendingTrends(ledger: seq<Transaction>, user: UserId, now: Date) returns (months: seq<MonthAmount>)
    ensures months == Trend(ledger, user, now)
  {
    months := [];
    var i := 11;
    while i >= 0
      invariant -1 <= i <= 11
      invariant months == Trend(ledger, user, now)[..11 - i]
    {
      var date := Normalize(now.year, now.month - i, 1, 0);
      MonthsBack(now, 12, i);
      var row := TrendFor(ledger, user, date.year, date.month);
      PrefixSnoc(Trend(ledger, user, now), 11 - i);
      assert Trend(ledger, user, now)[11 - i] == row;
      months := months + [row];
      i := i - 1;
    }
  }
}
