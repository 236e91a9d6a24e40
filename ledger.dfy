/** The records the controllers read and the store queries they issue. A
    query of the transaction collection is a filter over the stored sequence,
    which keeps the store's own order. */
module Ledger {
  import opened Calendar

  type UserId = nat
  type CategoryId = nat

  /** The `type` value that marks income; the summary treats every other value as an expense. */
  const IncomeType: string := "income"
  /** The `type` value the spending trend selects. */
  const ExpenseType: string := "expense"

  /** A stored transaction; `kind` is its `type` field, any string. Amounts are in cents. */
  datatype Transaction = Transaction(user: UserId, category: CategoryId, amount: int, kind: string, date: Date)

  /** A stored category, as `populate('category')` resolves it. */
  datatype Category = Category(user: UserId, name: string, color: string, kind: string)

  /** How a request fails: 404 (no such record), 401 (not the caller's), or
      500 for the TypeError that a missing populated category raises. */
  datatype Failure = NotFound | NotAuthorized | NullCategory

  datatype Result<T> = Ok(value: T) | Err(failure: Failure)

  /** The response status each failure is answered with; the three are distinct. */
  function HttpStatus(f: Failure): (status: int)
    ensures status == 404 <==> f == NotFound
    ensures status == 401 <==> f == NotAuthorized
    ensures status == 500 <==> f == NullCategory
  {
    match f
    case NotFound => 404
    case NotAuthorized => 401
    case NullCategory => 500
  }

  /** A closed date range, the `$gte`/`$lte` pair of a query. */
  datatype Window = Window(start: Date, end: Date)

  predicate InWindow(d: Date, w: Window) {
    AtOrBefore(w.start, d) && AtOrBefore(d, w.end)
  }

  /** The sum of the amounts, accumulated first to last. */
  function Total(s: seq<Transaction>): int {
    if s == [] then 0 else Total(s[..|s| - 1]) + s[|s| - 1].amount
  }

  /** The transactions of `s` that satisfy `p`, in their order in `s`. */
  function Where(s: seq<Transaction>, p: Transaction -> bool): (r: seq<Transaction>)
    ensures |r| <= |s|
  {
    if s == [] then []
    else Where(s[..|s| - 1], p) + (if p(s[|s| - 1]) then [s[|s| - 1]] else [])
  }

  /** Nothing is selected when no transaction satisfies `p`. */
  lemma {:induction false} WhereNone(s: seq<Transaction>, p: Transaction -> bool)
    requires forall i :: 0 <= i < |s| ==> !p(s[i])
    ensures Where(s, p) == []
  {
    if s != [] {
      WhereNone(s[..|s| - 1], p);
    }
  }

  /** A transaction is selected exactly when it is in `s` and satisfies `p`. */
  lemma {:induction false} WhereMembers(s: seq<Transaction>, p: Transaction -> bool)
    ensures forall t :: t in Where(s, p) <==> t in s && p(t)
  {
    if s != [] {
      var init, last := s[..|s| - 1], s[|s| - 1];
      WhereMembers(init, p);
      assert s == init + [last];
      forall t ensures t in s <==> t in init || t == last {
      }
    }
  }

  lemma {:induction false} TotalAppend(a: seq<Transaction>, b: seq<Transaction>)
    ensures Total(a + b) == Total(a) + Total(b)
  {
    if b != [] {
      var ab := a + b;
      assert ab[..|ab| - 1] == a + b[..|b| - 1];
      assert ab[|ab| - 1] == b[|b| - 1];
      TotalAppend(a, b[..|b| - 1]);
      assert Total(ab) == Total(a + b[..|b| - 1]) + b[|b| - 1].amount;
    } else {
      assert a + b == a;
    }
  }

  /** A prefix one longer is the prefix followed by the next element. */
  lemma PrefixSnoc<T>(s: seq<T>, i: int)
    requires 0 <= i < |s|
    ensures s[..i + 1] == s[..i] + [s[i]]
  {
  }

  /** Filtering a sequence extended by one transaction extends the filtered
      sequence by that transaction exactly when it qualifies. */
  lemma WhereSnoc(s: seq<Transaction>, t: Transaction, p: Transaction -> bool)
    ensures Where(s + [t], p) == Where(s, p) + (if p(t) then [t] else [])
  {
    assert (s + [t])[..|s|] == s;
  }

  /** Summing a filtered prefix one transaction longer adds that transaction's
      amount exactly when it qualifies. */
  lemma TotalWhereSnoc(s: seq<Transaction>, t: Transaction, p: Transaction -> bool)
    ensures Total(Where(s + [t], p)) == Total(Where(s, p)) + (if p(t) then t.amount else 0)
  {
    WhereSnoc(s, t, p);
    TotalAppend(Where(s, p), if p(t) then [t] else []);
  }

  predicate IsIncome(t: Transaction) {
    t.kind == IncomeType
  }

  predicate IsNotIncome(t: Transaction) {
    t.kind != IncomeType
  }

  /** Income and the "everything else" expenses add up to the whole. */
  lemma {:induction false} IncomeAndExpensesCoverAll(s: seq<Transaction>)
    ensures Total(Where(s, IsIncome)) + Total(Where(s, IsNotIncome)) == Total(s)
    ensures |Where(s, IsIncome)| + |Where(s, IsNotIncome)| == |s|
  {
    if s != [] {
      var init := s[..|s| - 1];
      IncomeAndExpensesCoverAll(init);
      assert s == init + [s[|s| - 1]];
      TotalWhereSnoc(init, s[|s| - 1], IsIncome);
      TotalWhereSnoc(init, s[|s| - 1], IsNotIncome);
    }
  }

  /** The query `{ user, date: { $gte: w.start, $lte: w.end } }`. */
  function OwnedIn(user: UserId, w: Window): Transaction -> bool {
    (t: Transaction) => t.user == user && InWindow(t.date, w)
  }

  /** The query `{ user, type: 'expense', date: { $gte: w.start, $lte: w.end } }`. */
  function ExpensesOwnedIn(user: UserId, w: Window): Transaction -> bool {
    (t: Transaction) => t.user == user && t.kind == ExpenseType && InWindow(t.date, w)
  }

  function Select(ledger: seq<Transaction>, user: UserId, w: Window): seq<Transaction> {
    Where(ledger, OwnedIn(user, w))
  }

  function SelectExpenses(ledger: seq<Transaction>, user: UserId, w: Window): seq<Transaction> {
    Where(ledger, ExpensesOwnedIn(user, w))
  }

  /** The two queries return exactly the stored transactions that match them. */
  lemma QueryMembers(ledger: seq<Transaction>, user: UserId, w: Window)
    ensures forall t :: t in Select(ledger, user, w) <==> t in ledger && t.user == user && InWindow(t.date, w)
    ensures forall t :: t in SelectExpenses(ledger, user, w) <==> t in ledger && t.user == user && t.kind == ExpenseType && InWindow(t.date, w)
  {
    WhereMembers(ledger, OwnedIn(user, w));
    WhereMembers(ledger, ExpensesOwnedIn(user, w));
  }
}
