/** Local calendar dates as JavaScript's Date object exposes them: a year, a
    month index 0-11, a day of the month and a time of day. The constructor
    `new Date(y, m, d)` and the setters `setDate`, `setMonth` and `setFullYear`
    accept out-of-range fields and normalise them; `Normalize` models that
    normalisation and `Shift` (day-by-day counting) is its reference. The
    constructor's reading of a year 0-99 as 1900 + y is not modelled. */
module Calendar {

  /** Milliseconds in a day: the time of day counts milliseconds since local midnight. */
  const MsPerDay: int := 86400000

  datatype Date = Date(year: int, month: int, day: int, time: int)

  /** A calendar month: a year and a month index 0-11. */
  datatype Month = Month(year: int, index: int)

  /** The Gregorian leap-year rule. */
  predicate IsLeapYear(y: int) {
    (y % 4 == 0 && y % 100 != 0) || y % 400 == 0
  }

  predicate ValidMonth(k: Month) {
    0 <= k.index < 12
  }

  predicate ValidTime(t: int) {
    0 <= t < MsPerDay
  }

  function DaysInMonth(k: Month): (n: int)
    ensures 28 <= n <= 31
    ensures k.index == 1 ==> (n == 29 <==> IsLeapYear(k.year))
    ensures k.index != 1 ==> 30 <= n
  {
    if k.index == 1 then (if IsLeapYear(k.year) then 29 else 28)
    else if k.index == 3 || k.index == 5 || k.index == 8 || k.index == 10 then 30
    else 31
  }

  function MonthOfDate(d: Date): Month {
    Month(d.year, d.month)
  }

  predicate ValidDate(d: Date) {
    && ValidMonth(MonthOfDate(d))
    && 1 <= d.day <= DaysInMonth(MonthOfDate(d))
    && ValidTime(d.time)
  }

  /** Months counted from January of year 0. */
  function Ordinal(k: Month): int {
    k.year * 12 + k.index
  }

  lemma OrdinalInjective(a: Month, b: Month)
    requires ValidMonth(a) && ValidMonth(b) && Ordinal(a) == Ordinal(b)
    ensures a == b
  {
  }

  /** The month that year `y` and a month index `m` of any size denote: an
      index outside 0-11 wraps into a neighbouring year, as in `new Date(y, m, d)`. */
  function MonthOf(y: int, m: int): (k: Month)
    ensures ValidMonth(k) && Ordinal(k) == y * 12 + m
  {
    Month(y + m / 12, m % 12)
  }

  function NextMonth(k: Month): (r: Month)
    ensures Ordinal(r) == Ordinal(k) + 1
    ensures ValidMonth(k) ==> ValidMonth(r)
  {
    if k.index == 11 then Month(k.year + 1, 0) else Month(k.year, k.index + 1)
  }

  /** Adding one to the month index moves to the following month. */
  lemma NextMonthOf(y: int, m: int)
    ensures MonthOf(y, m + 1) == NextMonth(MonthOf(y, m))
  {
    OrdinalInjective(MonthOf(y, m + 1), NextMonth(MonthOf(y, m)));
  }

  /** For an in-range month index, `MonthOf` leaves year and index alone. */
  lemma MonthOfInRange(d: Date)
    requires ValidMonth(MonthOfDate(d))
    ensures MonthOf(d.year, d.month) == MonthOfDate(d)
  {
  }

  function PrevMonth(k: Month): (r: Month)
    ensures Ordinal(r) == Ordinal(k) - 1
    ensures ValidMonth(k) ==> ValidMonth(r)
  {
    if k.index == 0 then Month(k.year - 1, 11) else Month(k.year, k.index - 1)
  }

  function FirstDay(k: Month, t: int): Date {
    Date(k.year, k.index, 1, t)
  }

  function LastDay(k: Month, t: int): Date {
    Date(k.year, k.index, DaysInMonth(k), t)
  }

  /** The same time of day on the following calendar day. */
  function NextDay(d: Date): Date {
    if d.day < DaysInMonth(MonthOfDate(d)) then d.(day := d.day + 1)
    else FirstDay(NextMonth(MonthOfDate(d)), d.time)
  }

  /** The same time of day on the preceding calendar day. */
  function PrevDay(d: Date): Date {
    if 1 < d.day then d.(day := d.day - 1)
    else LastDay(PrevMonth(MonthOfDate(d)), d.time)
  }

  lemma NextThenPrev(d: Date)
    requires ValidDate(d)
    ensures PrevDay(NextDay(d)) == d
  {
    if d.day == DaysInMonth(MonthOfDate(d)) {
      var k := MonthOfDate(d);
      OrdinalInjective(PrevMonth(NextMonth(k)), k);
    }
  }

  lemma PrevThenNext(d: Date)
    requires ValidDate(d)
    ensures NextDay(PrevDay(d)) == d
  {
    if d.day == 1 {
      var k := MonthOfDate(d);
      OrdinalInjective(NextMonth(PrevMonth(k)), k);
    }
  }

  /** `d` moved by `n` whole calendar days (back when `n` is negative), keeping
      the time of day: the reference for every date computation below. */
  function Shift(d: Date, n: int): Date
    decreases if n < 0 then -n else n
  {
    if n == 0 then d
    else if n > 0 then NextDay(Shift(d, n - 1))
    else PrevDay(Shift(d, n + 1))
  }

  lemma NextDayValid(d: Date)
    requires ValidDate(d)
    ensures ValidDate(NextDay(d)) && NextDay(d).time == d.time
  {
  }

  lemma PrevDayValid(d: Date)
    requires ValidDate(d)
    ensures ValidDate(PrevDay(d)) && PrevDay(d).time == d.time
  {
  }

  /** Counting days from a valid date stays on valid dates and keeps the time of day. */
  lemma {:induction false} ShiftValid(d: Date, n: int)
    requires ValidDate(d)
    ensures ValidDate(Shift(d, n)) && Shift(d, n).time == d.time
    decreases if n < 0 then -n else n
  {
    if n > 0 {
      ShiftValid(d, n - 1);
      NextDayValid(Shift(d, n - 1));
    } else if n < 0 {
      ShiftValid(d, n + 1);
      PrevDayValid(Shift(d, n + 1));
    }
  }

  /** Moving by `a` days and then by `b` days is moving by `a + b` days. */
  lemma {:induction false} ShiftAdd(d: Date, a: int, b: int)
    requires ValidDate(d)
    ensures Shift(Shift(d, a), b) == Shift(d, a + b)
    decreases if b < 0 then -b else b
  {
    if b > 0 {
      ShiftAdd(d, a, b - 1);
      if a + b <= 0 {
        ShiftValid(d, a + b);
        PrevThenNext(Shift(d, a + b));
      }
    } else if b < 0 {
      ShiftAdd(d, a, b + 1);
      if a + b >= 0 {
        ShiftValid(d, a + b);
        NextThenPrev(Shift(d, a + b));
      }
    }
  }

  /** Within a month, moving `j` days from the first lands on day `j + 1`. */
  lemma {:induction false} ShiftWithinMonth(k: Month, j: int, t: int)
    requires ValidMonth(k) && ValidTime(t) && 0 <= j < DaysInMonth(k)
    ensures Shift(FirstDay(k, t), j) == Date(k.year, k.index, j + 1, t)
  {
    if j > 0 {
      ShiftWithinMonth(k, j - 1, t);
    }
  }

  /** A whole month of days leads from the first of a month to the first of the next. */
  lemma MonthLength(k: Month, t: int)
    requires ValidMonth(k) && ValidTime(t)
    ensures Shift(FirstDay(k, t), DaysInMonth(k)) == FirstDay(NextMonth(k), t)
  {
    var n := DaysInMonth(k);
    ShiftWithinMonth(k, n - 1, t);
  }

  /** Month-by-month rollover of day `d` counted from the first of month `k`:
      a day below 1 borrows the preceding month's length, a day past the end
      of the month carries into the next one. */
  function RollDays(k: Month, d: int, t: int): (r: Date)
    requires ValidMonth(k) && ValidTime(t)
    ensures ValidDate(r) && r.time == t
    decreases if d < 1 then 1 - d else 0, if d < 1 then 0 else d
  {
    if d < 1 then RollDays(PrevMonth(k), d + DaysInMonth(PrevMonth(k)), t)
    else if d > DaysInMonth(k) then RollDays(NextMonth(k), d - DaysInMonth(k), t)
    else Date(k.year, k.index, d, t)
  }

  /** The rollover agrees with counting `d - 1` days from the first of the month. */
  lemma {:induction false} RollDaysIsShift(k: Month, d: int, t: int)
    requires ValidMonth(k) && ValidTime(t)
    ensures RollDays(k, d, t) == Shift(FirstDay(k, t), d - 1)
    decreases if d < 1 then 1 - d else 0, if d < 1 then 0 else d
  {
    if d < 1 {
      var p := PrevMonth(k);
      RollDaysIsShift(p, d + DaysInMonth(p), t);
      BorrowFromPrevMonth(k, d, t);
    } else if d > DaysInMonth(k) {
      RollDaysIsShift(NextMonth(k), d - DaysInMonth(k), t);
      CarryIntoNextMonth(k, d, t);
    } else {
      ShiftWithinMonth(k, d - 1, t);
    }
  }

  lemma BorrowFromPrevMonth(k: Month, d: int, t: int)
    requires ValidMonth(k) && ValidTime(t)
    ensures Shift(FirstDay(PrevMonth(k), t), d + DaysInMonth(PrevMonth(k)) - 1) == Shift(FirstDay(k, t), d - 1)
  {
    var p := PrevMonth(k);
    OrdinalInjective(NextMonth(p), k);
    MonthLength(p, t);
    ShiftAdd(FirstDay(p, t), DaysInMonth(p), d - 1);
  }

  /** Counting from the first of the next month is counting a whole month
      further from the first of this one. */
  lemma ShiftAcrossMonth(k: Month, j: int, t: int)
    requires ValidMonth(k) && ValidTime(t)
    ensures Shift(FirstDay(NextMonth(k), t), j) == Shift(FirstDay(k, t), DaysInMonth(k) + j)
  {
    MonthLength(k, t);
    ShiftAdd(FirstDay(k, t), DaysInMonth(k), j);
  }

  lemma CarryIntoNextMonth(k: Month, d: int, t: int)
    requires ValidMonth(k) && ValidTime(t)
    ensures Shift(FirstDay(NextMonth(k), t), d - DaysInMonth(k) - 1) == Shift(FirstDay(k, t), d - 1)
  {
    MonthLength(k, t);
    ShiftAdd(FirstDay(k, t), DaysInMonth(k), d - DaysInMonth(k) - 1);
  }

  /** The date that `new Date(y, m, d)` (with time of day `t`) denotes for a
      year of 100 or more, and what the setters compute for any year: the
      month index wraps into the year, then the day counts from the first of
      that month, so day 0 is the last day of the preceding month. (The
      constructor also reads a year 0-99 as 1900 + y; that rule is not modelled.) */
  function Normalize(y: int, m: int, d: int, t: int): (r: Date)
    requires ValidTime(t)
    ensures ValidDate(r) && r.time == t
    ensures r == Shift(FirstDay(MonthOf(y, m), t), d - 1)
    ensures 1 <= d <= DaysInMonth(MonthOf(y, m)) ==> r == Date(MonthOf(y, m).year, MonthOf(y, m).index, d, t)
  {
    RollDaysIsShift(MonthOf(y, m), d, t);
    RollDays(MonthOf(y, m), d, t)
  }

  /** A valid date normalises to itself. */
  lemma NormalizeValid(d: Date)
    requires ValidDate(d)
    ensures Normalize(d.year, d.month, d.day, d.time) == d
  {
    assert MonthOf(d.year, d.month) == MonthOfDate(d);
  }

  /** Day 0 of the month after month `m` is the last day of month `m`. */
  lemma DayZeroIsLastDay(y: int, m: int, t: int)
    requires ValidTime(t)
    ensures Normalize(y, m + 1, 0, t) == LastDay(MonthOf(y, m), t)
  {
    var k := MonthOf(y, m);
    OrdinalInjective(MonthOf(y, m + 1), NextMonth(k));
    OrdinalInjective(PrevMonth(NextMonth(k)), k);
  }

  /** Strict chronological order of dates. */
  predicate Before(a: Date, b: Date) {
    || a.year < b.year
    || (a.year == b.year && a.month < b.month)
    || (a.year == b.year && a.month == b.month && a.day < b.day)
    || (a.year == b.year && a.month == b.month && a.day == b.day && a.time < b.time)
  }

  predicate AtOrBefore(a: Date, b: Date) {
    a == b || Before(a, b)
  }

  lemma BeforeTransitive(a: Date, b: Date, c: Date)
    requires Before(a, b) && Before(b, c)
    ensures Before(a, c)
  {
  }

  /** Moving forward by a positive number of days gives a later date. */
  lemma {:induction false} ShiftForwardIsLater(d: Date, n: int)
    requires ValidDate(d) && n > 0
    ensures Before(d, Shift(d, n))
  {
    if n > 1 {
      ShiftForwardIsLater(d, n - 1);
      BeforeTransitive(d, Shift(d, n - 1), Shift(d, n));
    }
  }

  /** A date modelled as a JavaScript Date object: its fields change in place
      through the setters, each of which normalises like the constructor. */
  class JsDate {
    var year: int
    var month: int
    var day: int
    var time: int

    function Value(): Date
      reads this
    {
      Date(year, month, day, time)
    }

    ghost predicate Valid()
      reads this
    {
      ValidDate(Value())
    }

    /** `new Date(other)`: a copy of another date. */
    constructor Copy(d: Date)
      requires ValidDate(d)
      ensures Valid() && Value() == d
    {
      year, month, day, time := d.year, d.month, d.day, d.time;
    }

    /** `setDate(date)`: passes the current year, month and time of day, with
        `date`, to the normalisation of `new Date(y, m, d)`; a day out of range
        rolls into an earlier or later month, and possibly another year. */
    method SetDate(date: int)
      requires Valid()
      modifies this
      ensures Valid()
      ensures Value() == Normalize(old(year), old(month), date, old(time))
    {
      var r := Normalize(year, month, date, time);
      year, month, day := r.year, r.month, r.day;
    }

    /** `setMonth(m)`: passes the current year, day of the month and time of
        day, with `m`, to the same normalisation; a month out of range changes
        the year, and a day the new month lacks rolls into the month after. */
    method SetMonth(m: int)
      requires Valid()
      modifies this
      ensures Valid()
      ensures Value() == Normalize(old(year), m, old(day), old(time))
    {
      var r := Normalize(year, m, day, time);
      year, month, day := r.year, r.month, r.day;
    }

    /** `setFullYear(y)`: passes the current month, day of the month and time
        of day, with `y`, to the same normalisation; February 29 in a year
        without one rolls to March 1. */
    method SetFullYear(y: int)
      requires Valid()
      modifies this
      ensures Valid()
      ensures Value() == Normalize(y, old(month), old(day), old(time))
    {
      var r := Normalize(y, month, day, time);
      year, month, day := r.year, r.month, r.day;
    }
  }
}
