/** The budget handlers: creation with its period-derived end date, the
    ownership guard in front of reading, updating, deleting and reporting a
    budget, and the status report. The budget collection is a map from id to
    record held by `BudgetStore`; "now" is a parameter. */
module BudgetController {
  import opened Calendar
  import opened Ledger

  type BudgetId = nat

  datatype Option<T> = None | Some(value: T)

  /** A stored budget. `endDate` is absent when the period was none of the
      three known ones. Amounts are in cents. */
  datatype Budget = Budget(user: UserId, category: CategoryId, amount: int, period: string, startDate: Date, endDate: Option<Date>)

  /** The fields a create request's body may carry. */
  datatype BudgetBody = BudgetBody(user: Option<UserId>, category: CategoryId, amount: int, period: string, startDate: Option<Date>, endDate: Option<Date>)

  /** An update request's body: each present field replaces the stored one. */
  datatype BudgetPatch = BudgetPatch(user: Option<UserId>, category: Option<CategoryId>, amount: Option<int>, period: Option<string>, startDate: Option<Date>, endDate: Option<Date>)

  /** The period names the `if`/`else if` chain of `createBudget` tests for;
      any other string is `Unknown`. */
  datatype Period = Weekly | Monthly | Yearly | Unknown

  function PeriodOf(name: string): Period {
    if name == "weekly" then Weekly
    else if name == "monthly" then Monthly
    else if name == "yearly" then Yearly
    else Unknown
  }

  /** The end of a budget period that starts at `start`: one week, one
      month or one year later by `setDate`, `setMonth` or `setFullYear`, and
      none for an unknown period. */
  function PeriodEnd(start: Date, p: Period): Option<Date>
    requires ValidDate(start)
  {
    match p
    case Weekly => Some(Normalize(start.year, start.month, start.day + 7, start.time))
    case Monthly => Some(Normalize(start.year, start.month + 1, start.day, start.time))
    case Yearly => Some(Normalize(start.year + 1, start.month, start.day, start.time))
    case Unknown => None
  }

  /** Counting from the first of the month of `start`, `n` days past
      `start`'s own day is `start` moved by `n` days. */
  lemma FromMonthStart(start: Date, n: int)
    requires ValidDate(start)
    ensures Shift(FirstDay(MonthOfDate(start), start.time), start.day + n - 1) == Shift(start, n)
  {
    var k := MonthOfDate(start);
    ShiftWithinMonth(k, start.day - 1, start.time);
    ShiftAdd(FirstDay(k, start.time), start.day - 1, n);
  }

  /** Moving the day of the month of `start` by `n`, as `setDate(getDate() + n)`
      does, moves `start` by `n` calendar days. */
  lemma DayOffset(start: Date, n: int)
    requires ValidDate(start)
    ensures Normalize(start.year, start.month, start.day + n, start.time) == Shift(start, n)
  {
    MonthOfInRange(start);
    FromMonthStart(start, n);
  }

  /** A weekly budget ends a week, that is `week` = 7 calendar days, after
      it starts, at the same time of day. The 7 is a parameter rather than a
      literal because a literal day count makes Dafny unfold `Shift` seven
      levels deep; callers pass `var week := 7;`. */
  lemma WeeklyEnd(start: Date, week: int)
    requires ValidDate(start) && week == 7
    ensures PeriodEnd(start, Weekly) == Some(Shift(start, week))
  {
    DayOffset(start, week);
  }

  /** `setMonth(getMonth() + 1)` counts the day from the first of the next month. */
  lemma NextMonthDay(start: Date)
    requires ValidDate(start)
    ensures Normalize(start.year, start.month + 1, start.day, start.time)
      == Shift(FirstDay(NextMonth(MonthOfDate(start)), start.time), start.day - 1)
  {
    MonthOfInRange(start);
    NextMonthOf(start.year, start.month);
  }

  /** So it lands a whole start month of days after `start`. The month's
      length `n` is a parameter, not the expression itself, so that the proof
      works on a plain variable instead of unfolding `DaysInMonth` inside `Shift`. */
  lemma NextMonthOffset(start: Date, n: int)
    requires ValidDate(start)
    requires n == DaysInMonth(MonthOfDate(start))
    ensures Normalize(start.year, start.month + 1, start.day, start.time) == Shift(start, n)
  {
    NextMonthDay(start);
    AcrossStartMonth(start, n);
    FromMonthStart(start, n);
  }

  /** Counting from the first of the next month is counting a whole start
      month, `n` days, further from the first of the start month (`n` a
      parameter for the same reason as above). */
  lemma AcrossStartMonth(start: Date, n: int)
    requires ValidDate(start)
    requires n == DaysInMonth(MonthOfDate(start))
    ensures Shift(FirstDay(NextMonth(MonthOfDate(start)), start.time), start.day - 1)
      == Shift(FirstDay(MonthOfDate(start), start.time), start.day + n - 1)
  {
    ShiftAcrossMonth(MonthOfDate(start), start.day - 1, start.time);
    assert n + (start.day - 1) == start.day + n - 1;
  }

  /** A monthly budget ends as many days after it starts as its start month has. */
  lemma MonthlyEnd(start: Date)
    requires ValidDate(start)
    ensures PeriodEnd(start, Monthly) == Some(Shift(start, DaysInMonth(MonthOfDate(start))))
  {
    NextMonthOffset(start, DaysInMonth(MonthOfDate(start)));
  }

  /** Monthly keeps the day of the month when the next month has that day. */
  lemma MonthlyKeepsDay(start: Date)
    requires ValidDate(start)
    requires start.day <= DaysInMonth(NextMonth(MonthOfDate(start)))
    ensures var n := NextMonth(MonthOfDate(start));
      PeriodEnd(start, Monthly) == Some(Date(n.year, n.index, start.day, start.time))
  {
    NextMonthDay(start);
    ShiftWithinMonth(NextMonth(MonthOfDate(start)), start.day - 1, start.time);
  }

  /** Otherwise the surplus days roll over into the month after next. */
  lemma MonthlyOverflow(start: Date)
    requires ValidDate(start)
    requires start.day > DaysInMonth(NextMonth(MonthOfDate(start)))
    ensures var n := NextMonth(MonthOfDate(start));
      var after := NextMonth(n);
      PeriodEnd(start, Monthly) == Some(Date(after.year, after.index, start.day - DaysInMonth(n), start.time))
  {
    NextMonthDay(start);
    OverflowIntoNextMonth(NextMonth(MonthOfDate(start)), start.day, start.time);
  }

  /** A day of the month 29 to 31 that month `n` lacks falls early in the month after. */
  lemma OverflowIntoNextMonth(n: Month, d: int, t: int)
    requires ValidMonth(n) && ValidTime(t)
    requires DaysInMonth(n) < d <= 31
    ensures var after := NextMonth(n);
      Shift(FirstDay(n, t), d - 1) == Date(after.year, after.index, d - DaysInMonth(n), t)
  {
    CarryIntoNextMonth(n, d, t);
    ShiftWithinMonth(NextMonth(n), d - DaysInMonth(n) - 1, t);
  }

  /** January 31 rolls over to March 3, or to March 2 in a leap year. */
  lemma JanuaryThirtyFirst(y: int, t: int)
    requires ValidTime(t)
    ensures !IsLeapYear(y) ==> PeriodEnd(Date(y, 0, 31, t), Monthly) == Some(Date(y, 2, 3, t))
    ensures IsLeapYear(y) ==> PeriodEnd(Date(y, 0, 31, t), Monthly) == Some(Date(y, 2, 2, t))
  {
    var start := Date(y, 0, 31, t);
    assert NextMonth(MonthOfDate(start)) == Month(y, 1);
    assert NextMonth(Month(y, 1)) == Month(y, 2);
    MonthlyOverflow(start);
  }

  /** Outside February 29 a yearly budget ends on the same date of the next year. */
  lemma YearlySameDate(start: Date)
    requires ValidDate(start)
    requires !(start.month == 1 && start.day == 29)
    ensures PeriodEnd(start, Yearly) == Some(Date(start.year + 1, start.month, start.day, start.time))
  {
    var next := Date(start.year + 1, start.month, start.day, start.time);
    assert DaysInMonth(MonthOfDate(next)) >= start.day by {
      if start.month != 1 {
        assert DaysInMonth(MonthOfDate(next)) >= 30;
      }
    }
    MonthOfInRange(next);
  }

  /** A yearly budget that starts on February 29 ends on March 1. */
  lemma YearlyLeapDay(start: Date)
    requires ValidDate(start)
    requires start.month == 1 && start.day == 29
    ensures PeriodEnd(start, Yearly) == Some(Date(start.year + 1, 2, 1, start.time))
  {
    var k := Month(start.year + 1, 1);
    assert IsLeapYear(start.year);
    assert !IsLeapYear(start.year + 1);
    MonthOfInRange(Date(start.year + 1, 1, 29, start.time));
    MonthLength(k, start.time);
    assert NextMonth(k) == Month(start.year + 1, 2);
  }

  /** A yearly budget ends on the same date of the next year, except that
      February 29 becomes March 1. */
  lemma YearlyEnd(start: Date)
    requires ValidDate(start)
    ensures !(start.month == 1 && start.day == 29) ==>
      PeriodEnd(start, Yearly) == Some(Date(start.year + 1, start.month, start.day, start.time))
    ensures start.month == 1 && start.day == 29 ==>
      PeriodEnd(start, Yearly) == Some(Date(start.year + 1, 2, 1, start.time))
  {
    if start.month == 1 && start.day == 29 {
      YearlyLeapDay(start);
    } else {
      YearlySameDate(start);
    }
  }

  /** Each known period ends strictly after it starts; an unknown one has no end. */
  lemma PeriodEndIsLater(start: Date, p: Period)
    requires ValidDate(start)
    ensures PeriodEnd(start, p).Some? <==> p != Unknown
    ensures PeriodEnd(start, p).Some? ==> Before(start, PeriodEnd(start, p).value)
  {
    match p
    case Weekly =>
      var week := 7;
      WeeklyEnd(start, week);
      ShiftForwardIsLater(start, week);
    case Monthly =>
      MonthlyEnd(start);
      ShiftForwardIsLater(start, DaysInMonth(MonthOfDate(start)));
    case Yearly =>
      YearlyEnd(start);
    case Unknown =>
  }

  /** The `if`/`else if` chain of `createBudget`: a copy of the start date
      moved with the setter of the period's unit. */
  method EndDateFor(startDate: Date, period: string) returns (endDate: Option<Date>)
    requires ValidDate(startDate)
    ensures endDate == PeriodEnd(startDate, PeriodOf(period))
  {
    if period == "weekly" {
      var d := new JsDate.Copy(startDate);
      d.SetDate(d.day + 7);
      endDate := Some(d.Value());
    } else if period == "monthly" {
      var d := new JsDate.Copy(startDate);
      d.SetMonth(d.month + 1);
      endDate := Some(d.Value());
    } else if period == "yearly" {
      var d := new JsDate.Copy(startDate);
      d.SetFullYear(d.year + 1);
      endDate := Some(d.Value());
    } else {
      endDate := None;
    }
  }

  /** The record `Budget.create` stores for the request body after the
      handler has set its `user` and `endDate`; an absent `startDate` takes
      the creation time. */
  function Stored(body: BudgetBody, now: Date): Budget
    requires body.user.Some?
  {
    Budget(body.user.value, body.category, body.amount, body.period,
      if body.startDate.Some? then body.startDate.value else now, body.endDate)
  }

  /** What `createBudget` stores for `caller`: the body's fields with the
      caller as owner and the end date derived from the period and the
      creation time. */
  function NewBudget(caller: UserId, body: BudgetBody, now: Date): Budget
    requires ValidDate(now)
  {
    Stored(body.(user := Some(caller), endDate := PeriodEnd(now, PeriodOf(body.period))), now)
  }

  /** The owner is always the caller and the end date always comes from the
      creation time: the body's own `user` and `endDate`, and its
      `startDate`, have no say in them. */
  lemma NewBudgetOwnerAndEnd(caller: UserId, body: BudgetBody, now: Date, user: Option<UserId>, start: Option<Date>, end: Option<Date>)
    requires ValidDate(now)
    ensures var b := NewBudget(caller, body, now);
      && b.user == caller
      && b.endDate == PeriodEnd(now, PeriodOf(body.period))
      && b.startDate == (if body.startDate.Some? then body.startDate.value else now)
      && NewBudget(caller, body.(user := user, endDate := end), now) == b
      && NewBudget(caller, body.(startDate := start), now).endDate == b.endDate
  {
  }

  /** The 404/401 guard: the budget `id` if it exists and belongs to `caller`. */
  function Authorize(budgets: map<BudgetId, Budget>, id: BudgetId, caller: UserId): (r: Result<Budget>)
    ensures r == Err(NotFound) <==> id !in budgets
    ensures r == Err(NotAuthorized) <==> id in budgets && budgets[id].user != caller
    ensures r.Ok? <==> id in budgets && budgets[id].user == caller
    ensures r.Ok? ==> r.value == budgets[id]
  {
    if id !in budgets then Err(NotFound)
    else if budgets[id].user != caller then Err(NotAuthorized)
    else Ok(budgets[id])
  }

  /** The guard answers a missing budget with 404 before it looks at the
      owner, and someone else's budget with 401. */
  lemma GuardStatus(budgets: map<BudgetId, Budget>, id: BudgetId, caller: UserId)
    ensures id !in budgets ==> HttpStatus(Authorize(budgets, id, caller).failure) == 404
    ensures id in budgets && budgets[id].user != caller ==> HttpStatus(Authorize(budgets, id, caller).failure) == 401
  {
  }

  /** The fields an update body sets replace the stored ones; the others stay. */
  function Patched(b: Budget, p: BudgetPatch): Budget {
    Budget(
      if p.user.Some? then p.user.value else b.user,
      if p.category.Some? then p.category.value else b.category,
      if p.amount.Some? then p.amount.value else b.amount,
      if p.period.Some? then p.period.value else b.period,
      if p.startDate.Some? then p.startDate.value else b.startDate,
      if p.endDate.Some? then p.endDate else b.endDate)
  }

  /** An update never recomputes the end date: it changes only when the body
      sets it, whatever it does to the period or the start date. The body may
      also hand the budget to another user. */
  lemma UpdateKeepsEndDate(b: Budget, p: BudgetPatch)
    ensures p.endDate.None? ==> Patched(b, p).endDate == b.endDate
    ensures p.endDate.Some? ==> Patched(b, p).endDate == p.endDate
    ensures p.user.Some? ==> Patched(b, p).user == p.user.value
    ensures Patched(b, BudgetPatch(None, None, None, None, None, None)) == b
  {
  }

  /** The transactions `getBudgetStatus` asks for: the caller's, of the
      budget's category, dated within the budget's period, of any type. A
      budget without an end date matches none. */
  function InBudget(caller: UserId, b: Budget): Transaction -> bool {
    (t: Transaction) => t.user == caller && t.category == b.category && b.endDate.Some?
      && AtOrBefore(b.startDate, t.date) && AtOrBefore(t.date, b.endDate.value)
  }

  function BudgetTransactions(ledger: seq<Transaction>, caller: UserId, b: Budget): seq<Transaction> {
    Where(ledger, InBudget(caller, b))
  }

  /** The selection is exactly the matching stored transactions. */
  lemma BudgetTransactionsMembers(ledger: seq<Transaction>, caller: UserId, b: Budget)
    ensures forall t :: t in BudgetTransactions(ledger, caller, b) <==>
      && t in ledger && t.user == caller && t.category == b.category && b.endDate.Some?
      && AtOrBefore(b.startDate, t.date) && AtOrBefore(t.date, b.endDate.value)
  {
    WhereMembers(ledger, InBudget(caller, b));
  }

  /** The status response; `percentage` is absent where the division by a
      zero amount yields no number. */
  datatype Status = Status(budget: Budget, totalSpent: int, remaining: int, percentage: Option<real>, transactions: nat)

  /** `getBudgetStatus` once the guard has passed: the selection's sum, what
      is left of the amount, and the share spent in percent. */
  function StatusOf(ledger: seq<Transaction>, caller: UserId, b: Budget): (s: Status)
    ensures s.budget == b
    ensures s.remaining + s.totalSpent == b.amount
    ensures s.percentage.Some? <==> b.amount != 0
    ensures b.amount != 0 ==> s.percentage.value * (b.amount as real) == (s.totalSpent as real) * 100.0
  {
    var txs := BudgetTransactions(ledger, caller, b);
    var totalSpent := Total(txs);
    var remaining := b.amount - totalSpent;
    var percentage := if b.amount == 0 then None else Some((totalSpent as real / b.amount as real) * 100.0);
    Status(b, totalSpent, remaining, percentage, |txs|)
  }

  /** The status counts and sums exactly the selected transactions; a
      positive budget is overspent exactly when the share passes 100, and a
      budget without an end date reports nothing spent. */
  lemma StatusReport(ledger: seq<Transaction>, caller: UserId, b: Budget)
    ensures var s, txs := StatusOf(ledger, caller, b), BudgetTransactions(ledger, caller, b);
      && s.totalSpent == Total(txs)
      && s.transactions == |txs|
      && (b.amount > 0 ==> (s.remaining < 0 <==> s.percentage.value > 100.0))
      && (b.endDate.None? ==> s.transactions == 0 && s.totalSpent == 0 && s.remaining == b.amount)
  {
    var s, txs := StatusOf(ledger, caller, b), BudgetTransactions(ledger, caller, b);
    if b.endDate.None? {
      WhereNone(ledger, InBudget(caller, b));
    }
    if b.amount > 0 {
      assert s.remaining < 0 <==> s.totalSpent > b.amount;
      OverHundred(s.percentage.value, s.totalSpent as real, b.amount as real);
    }
  }

  /** With a positive amount `a`, a share `p` with `p * a == spent * 100`
      passes 100 exactly when `spent` passes `a`. */
  lemma OverHundred(p: real, spent: real, a: real)
    requires a > 0.0 && p * a == spent * 100.0
    ensures p > 100.0 <==> spent > a
  {
    if p > 100.0 {
      assert p * a > 100.0 * a;
    } else {
      assert p * a <= 100.0 * a;
    }
  }

  /** The budget collection. Ids are handed out in increasing order, so a
      new one is never in use. */
  class BudgetStore {
    var budgets: map<BudgetId, Budget>
    var nextId: BudgetId

    ghost predicate Valid()
      reads this
    {
      forall id :: id in budgets ==> id < nextId
    }

    constructor ()
      ensures Valid() && budgets == map[]
    {
      budgets := map[];
      nextId := 0;
    }

    /** `createBudget`: the body's `user` is overwritten with the caller, the
        end date is derived from the creation time and the period, and the
        record is stored under a fresh id. */
    method CreateBudget(caller: UserId, body: BudgetBody, now: Date) returns (id: BudgetId, budget: Budget)
      requires Valid() && ValidDate(now)
      modifies this
      ensures Valid()
      ensures id !in old(budgets) && budgets == old(budgets)[id := budget]
      ensures budget == NewBudget(caller, body, now)
    {
      var req := body.(user := Some(caller));
      var startDate := now;
      var endDate := EndDateFor(startDate, req.period);
      req := req.(endDate := endDate);
      budget := Stored(req, now);
      id := nextId;
      budgets := budgets[id := budget];
      nextId := nextId + 1;
    }

    /** `getBudget`. */
    method GetBudget(caller: UserId, id: BudgetId) returns (r: Result<Budget>)
      ensures r == Authorize(budgets, id, caller)
    {
      if id !in budgets {
        return Err(NotFound);
      }
      var budget := budgets[id];
      if budget.user != caller {
        return Err(NotAuthorized);
      }
      r := Ok(budget);
    }

    /** `updateBudget`: a rejected request changes nothing; an accepted one
        replaces the fields the body sets and returns the new record. */
    method UpdateBudget(caller: UserId, id: BudgetId, patch: BudgetPatch) returns (r: Result<Budget>)
      requires Valid()
      modifies this
      ensures Valid() && nextId == old(nextId)
      ensures Authorize(old(budgets), id, caller).Err? ==> r == Authorize(old(budgets), id, caller) && budgets == old(budgets)
      ensures Authorize(old(budgets), id, caller).Ok? ==>
        && r == Ok(Patched(old(budgets)[id], patch))
        && budgets == old(budgets)[id := Patched(old(budgets)[id], patch)]
    {
      if id !in budgets {
        return Err(NotFound);
      }
      var budget := budgets[id];
      if budget.user != caller {
        return Err(NotAuthorized);
      }
      budget := Patched(budget, patch);
      budgets := budgets[id := budget];
      r := Ok(budget);
    }

    /** `deleteBudget`: a rejected request changes nothing; an accepted one
        removes the budget. */
    method DeleteBudget(caller: UserId, id: BudgetId) returns (r: Result<()>)
      requires Valid()
      modifies this
      ensures Valid() && nextId == old(nextId)
      ensures Authorize(old(budgets), id, caller).Err? ==> r == Err(Authorize(old(budgets), id, caller).failure) && budgets == old(budgets)
      ensures Authorize(old(budgets), id, caller).Ok? ==> r == Ok(()) && budgets == old(budgets) - {id}
    {
      if id !in budgets {
        return Err(NotFound);
      }
      var budget := budgets[id];
      if budget.user != caller {
        return Err(NotAuthorized);
      }
      budgets := budgets - {id};
      r := Ok(());
    }

    /** `getBudgetStatus`: the guard, then the status over the stored
        transactions; a rejected request does not look at them. */
    method GetBudgetStatus(ledger: seq<Transaction>, caller: UserId, id: BudgetId) returns (r: Result<Status>)
      ensures Authorize(budgets, id, caller).Err? ==> r == Err(Authorize(budgets, id, caller).failure)
      ensures Authorize(budgets, id, caller).Ok? ==> r == Ok(StatusOf(ledger, caller, budgets[id]))
    {
      if id !in budgets {
        return Err(NotFound);
      }
      var budget := budgets[id];
      if budget.user != caller {
        return Err(NotAuthorized);
      }
      var transactions := BudgetTransactions(ledger, caller, budget);
      var totalSpent := Total(transactions);
      var remaining := budget.amount - totalSpent;
      var percentage := if budget.amount == 0 then None else Some((totalSpent as real / budget.amount as real) * 100.0);
      r := Ok(Status(budget, totalSpent, remaining, percentage, |transactions|));
    }
  }
}
