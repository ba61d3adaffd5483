/**
 * The write side of the ledger: the database file with its `budget` and
 * `expenses` tables, the start-up schema step, and the three statements
 * that change it (budget upsert, expense insert, reset).
 *
 * The clock is a parameter: every operation that reads the time is given
 * the reading `now` instead.
 */
module Store {
  import opened MonthKeys
  import opened Ledger

  /** Which parts of the current layout exist in the file. */
  datatype Schema = Schema(budgetTable: bool, expensesTable: bool, quantityColumn: bool)

  /** The layout `InitDb` brings every file to. */
  const CurrentSchema := Schema(true, true, true)

  class Database {
    var schema: Schema
    /** The `budget` table: month key to amount; the key column is UNIQUE. */
    var budget: map<string, int>
    /** The `expenses` table in insertion order. */
    var expenses: seq<Expense>
    /** The AUTOINCREMENT counter of `expenses`: the largest id ever issued.
        Deleting rows does not lower it; a file without the table has no
        counter, so a freshly created table starts again at id 1. */
    var lastId: nat

    ghost predicate Valid()
      reads this
    {
      && (!schema.budgetTable ==> budget == map[])
      && (!schema.expensesTable ==> expenses == [] && !schema.quantityColumn && lastId == 0)
      && ValidRows(expenses)
      && IdsIncreasing(expenses)
      && (forall i :: 0 <= i < |expenses| ==> expenses[i].id <= lastId)
    }

    /** The start-up step has run: both tables exist with every column. */
    predicate Ready()
      reads this
    {
      schema == CurrentSchema
    }

    /** A database file that has never been initialised: no tables. */
    constructor Empty()
      ensures Valid() && !Ready()
      ensures schema == Schema(false, false, false)
      ensures budget == map[] && expenses == [] && lastId == 0
    {
      schema := Schema(false, false, false);
      budget := map[];
      expenses := [];
      lastId := 0;
    }

    /** A database file left by an earlier version, in whatever layout it has. */
    constructor Open(layout: Schema, budgetRows: map<string, int>, expenseRows: seq<Expense>, counter: nat)
      requires !layout.budgetTable ==> budgetRows == map[]
      requires !layout.expensesTable ==> expenseRows == [] && !layout.quantityColumn && counter == 0
      requires ValidRows(expenseRows) && IdsIncreasing(expenseRows)
      requires forall i :: 0 <= i < |expenseRows| ==> expenseRows[i].id <= counter
      ensures Valid()
      ensures schema == layout && budget == budgetRows && expenses == expenseRows && lastId == counter
    {
      schema := layout;
      budget := budgetRows;
      expenses := expenseRows;
      lastId := counter;
    }

    /** init_db: create each table if it is absent, then add the `quantity`
        column if it is absent, which gives every existing expense the
        column's default of 1. No row is lost, and on a file that is
        already current nothing changes, so running it again is a no-op. */
    method InitDb()
      requires Valid()
      modifies this
      ensures Valid() && Ready()
      ensures budget == old(budget) && lastId == old(lastId)
      ensures |expenses| == |old(expenses)|
      ensures forall i :: 0 <= i < |expenses| ==>
                expenses[i] == if old(schema.quantityColumn) then old(expenses[i])
                               else old(expenses[i]).(quantity := 1)
      ensures old(Ready()) ==> unchanged(this)
    {
      if !schema.budgetTable {
        // CREATE TABLE IF NOT EXISTS budget (...)
        schema := schema.(budgetTable := true);
      }
      if !schema.expensesTable {
        // CREATE TABLE IF NOT EXISTS expenses (...), already with `quantity`
        schema := schema.(expensesTable := true, quantityColumn := true);
      }
      if !schema.quantityColumn {
        // ALTER TABLE expenses ADD COLUMN quantity INTEGER DEFAULT 1
        expenses := seq(|expenses|, i requires 0 <= i < |expenses| reads this => expenses[i].(quantity := 1));
        schema := schema.(quantityColumn := true);
      }
      // otherwise the ALTER fails with "duplicate column" and the failure is ignored
    }

    /** POST /api/budget: upsert `amount` (0 when the request has none) for
        the month of `now`. The month ends up with exactly one row holding
        the amount just set; other months keep theirs. */
    method SetBudget(amount: Option<int>, now: DateTime) returns (stored: int)
      requires Valid() && Ready() && ValidDateTime(now)
      modifies this`budget
      ensures Valid()
      ensures stored == amount.GetOr(0)
      ensures budget == old(budget)[KeyOf(now) := stored]
      ensures GetBudget(budget, KeyOf(now)) == stored
      ensures forall k :: k != KeyOf(now) ==> GetBudget(budget, k) == GetBudget(old(budget), k)
      ensures |budget| == if KeyOf(now) in old(budget) then |old(budget)| else |old(budget)| + 1
    {
      var currentMonth := KeyOf(now);
      stored := amount.GetOr(0);
      UpsertRowCount(budget, currentMonth, stored);
      budget := budget[currentMonth := stored];
    }

    /** POST /api/expenses: insert one row with the given item, the cost as
        given (0 when absent), the quantity (1 when absent) and `now` as its
        timestamp. A missing item violates the NOT NULL constraint and the
        insert writes nothing. The budget table is never touched. */
    method AddExpense(item: Option<string>, cost: Option<int>, quantity: Option<int>, now: DateTime)
      returns (added: bool)
      requires Valid() && Ready() && ValidDateTime(now)
      modifies this`expenses, this`lastId
      ensures Valid()
      ensures added <==> item.Some?
      ensures added ==> lastId == old(lastId) + 1
      ensures added ==> expenses == old(expenses) + [Expense(lastId, item.value, cost.GetOr(0), quantity.GetOr(1), now)]
      ensures !added ==> expenses == old(expenses) && lastId == old(lastId)
      ensures budget == old(budget)
    {
      if item.None? {
        return false;
      }
      var row := Expense(lastId + 1, item.value, cost.GetOr(0), quantity.GetOr(1), now);
      expenses := expenses + [row];
      lastId := lastId + 1;
      added := true;
    }

    /** DELETE /api/reset: both tables emptied. The id counter survives, so
        later expenses never reuse an id. */
    method Reset()
      requires Valid() && Ready()
      modifies this`budget, this`expenses
      ensures Valid() && Ready()
      ensures budget == map[] && expenses == []
      ensures lastId == old(lastId)
    {
      budget := map[];
      expenses := [];
    }
  }

  /** Budget 500.00 for March 2024, then "A" at 20.00 with quantity 2 and
      "B" at 30.00: the balance is 500.00 budgeted, 50.00 spent (the
      quantity does not multiply the cost) and 450.00 remaining. */
  method MarchExample() returns (report: BalanceReport)
    ensures report == BalanceReport(50000, 5000, 45000)
  {
    var db := new Database.Empty();
    db.InitDb();
    var now := DateTime(2024, 3, 15, 12, 0, 0, 0);
    var stored := db.SetBudget(Some(50000), now);
    var addedA := db.AddExpense(Some("A"), Some(2000), Some(2), now);
    var addedB := db.AddExpense(Some("B"), Some(3000), None, now);
    var rows := db.expenses;
    assert rows == [Expense(1, "A", 2000, 2, now), Expense(2, "B", 3000, 1, now)];
    assert MonthSpend(rows[1..], 2024, 3) == 3000;
    report := Balance(db.budget, rows, now);
  }
}
