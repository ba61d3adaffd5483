/**
 * The read side of the ledger: the rows of the two tables as values, the
 * budget lookup, the ordered expense listing and the monthly balance.
 *
 * The budget table is a map from month key to amount (the key column is
 * UNIQUE, so a map is exactly its content); the expense table is the
 * sequence of its rows in insertion order. Amounts are whole cents.
 */
module Ledger {
  import opened MonthKeys

  datatype Option<T> = None | Some(value: T) {
    function GetOr(default: T): T {
      match this
      case Some(v) => v
      case None => default
    }
  }

  /** One row of the `expenses` table. `cost` is the amount charged against
      the budget for the whole entry; `quantity` is recorded beside it and
      plays no part in any sum. */
  datatype Expense = Expense(id: nat, item: string, cost: int, quantity: int, dateAdded: DateTime)

  /** The three figures the balance query answers with. */
  datatype BalanceReport = BalanceReport(budget: int, totalExpenses: int, remaining: int)

  /** Every stored timestamp is a real clock reading. */
  predicate ValidRows(rows: seq<Expense>) {
    forall i :: 0 <= i < |rows| ==> ValidDateTime(rows[i].dateAdded)
  }

  // ---------------------------------------------------------------------
  // Budget lookup
  // ---------------------------------------------------------------------

  /** SELECT amount FROM budget WHERE month_str = key, with a missing row
      read as 0. */
  function GetBudget(budget: map<string, int>, key: string): (amount: int)
    ensures key in budget ==> amount == budget[key]
    ensures key !in budget ==> amount == 0
  {
    if key in budget then budget[key] else 0
  }

  /** After an upsert of `amount` under `key`, looking up `key` gives
      `amount`, and every other month reads as before. */
  lemma GetAfterUpsert(budget: map<string, int>, key: string, amount: int, other: string)
    ensures GetBudget(budget[key := amount], key) == amount
    ensures other != key ==> GetBudget(budget[key := amount], other) == GetBudget(budget, other)
    ensures other != key && other !in budget ==> GetBudget(budget[key := amount], other) == 0
  {
  }

  /** An upsert adds a row only when the month had none; otherwise the row
      count stays the same. */
  lemma UpsertRowCount(budget: map<string, int>, key: string, amount: int)
    ensures |budget[key := amount]| == if key in budget then |budget| else |budget| + 1
  {
  }

  // ---------------------------------------------------------------------
  // Month-windowed expense total
  // ---------------------------------------------------------------------

  /** The calendar-month reading of the window: the expense was added in
      `year`-`month`, whatever the day and time. */
  predicate InMonth(e: Expense, year: int, month: int) {
    e.dateAdded.year == year && e.dateAdded.month == month
  }

  /** What an expense contributes to the total of `year`-`month`. */
  function Charge(e: Expense, year: int, month: int): int {
    if InMonth(e, year, month) then e.cost else 0
  }

  /** Reference definition of the month's spending: the sum of `cost` over
      the expenses added in that calendar month. */
  function MonthSpend(rows: seq<Expense>, year: int, month: int): int {
    if rows == [] then 0 else Charge(rows[0], year, month) + MonthSpend(rows[1..], year, month)
  }

  /** SELECT SUM(cost) FROM expenses WHERE strftime('%Y-%m', date_added) = key.
      SQL's SUM over no rows is NULL, which is `None` here. */
  function SumCostWhereKey(rows: seq<Expense>, key: string): (s: Option<int>)
    requires ValidRows(rows)
    ensures s.None? <==> forall i :: 0 <= i < |rows| ==> KeyOf(rows[i].dateAdded) != key
  {
    if rows == [] then None
    else
      var rest := SumCostWhereKey(rows[1..], key);
      if KeyOf(rows[0].dateAdded) != key then rest
      else Some(rows[0].cost + rest.GetOr(0))
  }

  /** `expense_row[0] if expense_row and expense_row[0] else 0`: a NULL sum,
      and a zero sum, both read as 0. */
  function TotalOrZero(s: Option<int>): (total: int)
    ensures total == s.GetOr(0)
  {
    if s.Some? && s.value != 0 then s.value else 0
  }

  /** The SQL sum, filtered by comparing month-key strings, adds up exactly
      the costs of the expenses in the calendar month of `now`. */
  lemma {:induction false} SumCostIsMonthSpend(rows: seq<Expense>, now: DateTime)
    requires ValidRows(rows) && ValidDateTime(now)
    ensures SumCostWhereKey(rows, KeyOf(now)).GetOr(0) == MonthSpend(rows, now.year, now.month)
  {
    if rows != [] {
      SameKeyIffSameMonth(rows[0].dateAdded, now);
      SumCostIsMonthSpend(rows[1..], now);
    }
  }

  /** The total the balance reports is the month's spending, and it is 0
      when no expense falls in the month. */
  lemma {:induction false} TotalIsMonthSpend(rows: seq<Expense>, now: DateTime)
    requires ValidRows(rows) && ValidDateTime(now)
    ensures TotalOrZero(SumCostWhereKey(rows, KeyOf(now))) == MonthSpend(rows, now.year, now.month)
    ensures (forall i :: 0 <= i < |rows| ==> !InMonth(rows[i], now.year, now.month)) ==>
              TotalOrZero(SumCostWhereKey(rows, KeyOf(now))) == 0
  {
    SumCostIsMonthSpend(rows, now);
    if forall i :: 0 <= i < |rows| ==> !InMonth(rows[i], now.year, now.month) {
      forall i | 0 <= i < |rows|
        ensures KeyOf(rows[i].dateAdded) != KeyOf(now)
      {
        SameKeyIffSameMonth(rows[i].dateAdded, now);
      }
    }
  }

  /** The month's spending over two concatenated runs of rows is the sum of
      the two. */
  lemma {:induction false} MonthSpendConcat(a: seq<Expense>, b: seq<Expense>, year: int, month: int)
    ensures MonthSpend(a + b, year, month) == MonthSpend(a, year, month) + MonthSpend(b, year, month)
  {
    if a != [] {
      assert (a + b)[1..] == a[1..] + b;
      MonthSpendConcat(a[1..], b, year, month);
    } else {
      assert a + b == b;
    }
  }

  /** Taking row `i` out of a table lowers the month's spending by that
      row's charge. */
  lemma {:induction false} MonthSpendRemove(b: seq<Expense>, i: int, year: int, month: int)
    requires 0 <= i < |b|
    ensures MonthSpend(b, year, month)
            == Charge(b[i], year, month) + MonthSpend(b[..i] + b[i + 1..], year, month)
  {
    assert b == (b[..i] + [b[i]]) + b[i + 1..];
    MonthSpendConcat(b[..i] + [b[i]], b[i + 1..], year, month);
    MonthSpendConcat(b[..i], [b[i]], year, month);
    MonthSpendConcat(b[..i], b[i + 1..], year, month);
    assert MonthSpend([b[i]], year, month) == Charge(b[i], year, month);
  }

  /** The first row of a table is somewhere in any permutation of it, and
      the rest of the table is a permutation of what is left there. */
  lemma MatchFirst(a: seq<Expense>, b: seq<Expense>) returns (i: int)
    requires multiset(a) == multiset(b) && a != []
    ensures 0 <= i < |b| && b[i] == a[0]
    ensures multiset(a[1..]) == multiset(b[..i] + b[i + 1..])
  {
    assert a[0] in multiset(a);
    assert a[0] in multiset(b);
    i :| 0 <= i < |b| && b[i] == a[0];
    assert a == [a[0]] + a[1..];
    assert multiset(a) == multiset{a[0]} + multiset(a[1..]);
    assert b == b[..i] + [b[i]] + b[i + 1..];
    assert multiset(b) == multiset(b[..i]) + multiset{b[i]} + multiset(b[i + 1..]);
    assert multiset(b[..i] + b[i + 1..]) == multiset(b[..i]) + multiset(b[i + 1..]);
    assert multiset(a[1..]) == multiset(a) - multiset{a[0]};
    assert multiset(b[..i] + b[i + 1..]) == multiset(b) - multiset{b[i]};
  }

  /** The month's spending does not depend on the order of the rows: any
      permutation of the table sums to the same total. */
  lemma {:induction false} MonthSpendPermutation(a: seq<Expense>, b: seq<Expense>, year: int, month: int)
    requires multiset(a) == multiset(b)
    ensures MonthSpend(a, year, month) == MonthSpend(b, year, month)
    decreases |a|
  {
    if a == [] {
      assert |b| == |multiset(b)| == 0;
    } else {
      var i := MatchFirst(a, b);
      MonthSpendPermutation(a[1..], b[..i] + b[i + 1..], year, month);
      MonthSpendRemove(b, i, year, month);
    }
  }

  /** GET /api/balance with the clock reading `now`. The month key is
      computed once and the same key scopes both the budget lookup and the
      expense window. */
  function Balance(budget: map<string, int>, rows: seq<Expense>, now: DateTime): (r: BalanceReport)
    requires ValidRows(rows) && ValidDateTime(now)
    ensures r.budget == GetBudget(budget, KeyOf(now))
    ensures r.totalExpenses == MonthSpend(rows, now.year, now.month)
    ensures r.remaining == r.budget - r.totalExpenses
  {
    var currentMonth := KeyOf(now);
    var amount := GetBudget(budget, currentMonth);
    TotalIsMonthSpend(rows, now);
    var total := TotalOrZero(SumCostWhereKey(rows, currentMonth));
    BalanceReport(amount, total, amount - total)
  }

  /** Appending one expense moves the balance by its cost when it falls in
      the current month, and leaves it alone otherwise; the budget figure
      does not move. The quantity does not enter. */
  lemma {:induction false} BalanceAfterAppend(budget: map<string, int>, rows: seq<Expense>, e: Expense, now: DateTime)
    requires ValidRows(rows) && ValidDateTime(e.dateAdded) && ValidDateTime(now)
    ensures ValidRows(rows + [e])
    ensures Balance(budget, rows + [e], now).budget == Balance(budget, rows, now).budget
    ensures Balance(budget, rows + [e], now).totalExpenses
            == Balance(budget, rows, now).totalExpenses + Charge(e, now.year, now.month)
    ensures Balance(budget, rows + [e], now).remaining
            == Balance(budget, rows, now).remaining - Charge(e, now.year, now.month)
  {
    MonthSpendConcat(rows, [e], now.year, now.month);
    assert MonthSpend([e], now.year, now.month) == Charge(e, now.year, now.month);
  }

  /** Quantity is metadata only: two tables that differ only in the
      quantities of their rows have the same balance. */
  lemma {:induction false} QuantityIsMetadata(budget: map<string, int>, rows: seq<Expense>, other: seq<Expense>, now: DateTime)
    requires ValidRows(rows) && ValidDateTime(now)
    requires |other| == |rows|
    requires forall i :: 0 <= i < |rows| ==> other[i] == rows[i].(quantity := other[i].quantity)
    ensures ValidRows(other)
    ensures Balance(budget, other, now) == Balance(budget, rows, now)
  {
    SameQuantityFreeSpend(rows, other, now.year, now.month);
  }

  lemma {:induction false} SameQuantityFreeSpend(rows: seq<Expense>, other: seq<Expense>, year: int, month: int)
    requires |other| == |rows|
    requires forall i :: 0 <= i < |rows| ==> other[i] == rows[i].(quantity := other[i].quantity)
    ensures MonthSpend(other, year, month) == MonthSpend(rows, year, month)
  {
    if rows != [] {
      SameQuantityFreeSpend(rows[1..], other[1..], year, month);
    }
  }

  // ---------------------------------------------------------------------
  // Expense listing
  // ---------------------------------------------------------------------

  /** Newest first: every row is not earlier than the rows after it. */
  predicate NewestFirst(s: seq<Expense>) {
    forall i, j :: 0 <= i < j < |s| ==> NotBefore(s[i].dateAdded, s[j].dateAdded)
  }

  /** A row not earlier than every row of a newest-first list may go in front of it. */
  lemma PrependNewest(x: Expense, s: seq<Expense>)
    requires NewestFirst(s)
    requires forall j :: 0 <= j < |s| ==> NotBefore(x.dateAdded, s[j].dateAdded)
    ensures NewestFirst([x] + s)
  {
  }

  /** A row not earlier than the head of a newest-first list is not earlier than any of it. */
  lemma NotBeforeAll(x: Expense, s: seq<Expense>)
    requires NewestFirst(s) && s != [] && NotBefore(x.dateAdded, s[0].dateAdded)
    ensures forall j :: 0 <= j < |s| ==> NotBefore(x.dateAdded, s[j].dateAdded)
  {
    forall j | 0 < j < |s| {
      NotBeforeTransitive(x.dateAdded, s[0].dateAdded, s[j].dateAdded);
    }
  }

  /** A bound that holds of every row of `s` and of `e` holds of every row
      of any list with the rows of `s` and `e`. */
  lemma NotBeforeAllOfMultiset(x: Expense, s: seq<Expense>, e: Expense, t: seq<Expense>)
    requires forall j :: 0 <= j < |s| ==> NotBefore(x.dateAdded, s[j].dateAdded)
    requires NotBefore(x.dateAdded, e.dateAdded)
    requires multiset(t) == multiset(s) + multiset{e}
    ensures forall j :: 0 <= j < |t| ==> NotBefore(x.dateAdded, t[j].dateAdded)
  {
    forall j | 0 <= j < |t| ensures NotBefore(x.dateAdded, t[j].dateAdded) {
      assert t[j] in multiset(t);
      if t[j] != e {
        assert t[j] in multiset(s);
        var k :| 0 <= k < |s| && s[k] == t[j];
      }
    }
  }

  /** Places `e` in a newest-first list, ahead of the rows it is not earlier than. */
  function InsertByDate(e: Expense, s: seq<Expense>): (r: seq<Expense>)
    requires NewestFirst(s)
    ensures NewestFirst(r)
    ensures multiset(r) == multiset(s) + multiset{e}
  {
    if s == [] then [e]
    else if NotBefore(e.dateAdded, s[0].dateAdded) then
      NotBeforeAll(e, s);
      PrependNewest(e, s);
      [e] + s
    else
      var tail := InsertByDate(e, s[1..]);
      NotBeforeTotal(e.dateAdded, s[0].dateAdded);
      assert s == [s[0]] + s[1..];
      NotBeforeAllOfMultiset(s[0], s[1..], e, tail);
      PrependNewest(s[0], tail);
      [s[0]] + tail
  }

  /** SELECT ... FROM expenses ORDER BY date_added DESC: every row, newest
      first. Rows with equal timestamps keep their insertion order here; the
      database leaves that order open. */
  function ListExpenses(rows: seq<Expense>): (r: seq<Expense>)
    ensures NewestFirst(r)
    ensures multiset(r) == multiset(rows)
  {
    if rows == [] then []
    else
      assert rows == [rows[0]] + rows[1..];
      InsertByDate(rows[0], ListExpenses(rows[1..]))
  }

  /** The listing and the balance see the same expenses: summing the listed
      rows gives the month's spending of the table. */
  lemma ListingKeepsMonthSpend(rows: seq<Expense>, year: int, month: int)
    ensures MonthSpend(ListExpenses(rows), year, month) == MonthSpend(rows, year, month)
  {
    MonthSpendPermutation(ListExpenses(rows), rows, year, month);
  }

  // ---------------------------------------------------------------------
  // Row identity
  // ---------------------------------------------------------------------

  /** AUTOINCREMENT ids grow with insertion order. */
  predicate IdsIncreasing(rows: seq<Expense>) {
    forall i, j :: 0 <= i < j < |rows| ==> rows[i].id < rows[j].id
  }
}
