# Monthly budget ledger

A model of the store behind a small single-user budget tracker. The store holds
two tables. The `budget` table maps a month key (`"YYYY-MM"`, UNIQUE) to an amount.
The `expenses` table is an append-only list of rows `{id, item, cost, quantity, date_added}`.
Seven operations work on it:

- start-up schema creation and the `quantity` column migration
- budget upsert for the current month
- budget lookup, which gives 0 when the month has no row
- expense insert
- expense listing, newest first
- the monthly balance, which is budget minus the month's spending
- reset, which empties both tables

Files:

- `month_key.dfy` (module `MonthKeys`): clock readings, their order, and the `'%Y-%m'` month key with its parser.
- `ledger.dfy` (module `Ledger`): the row types and the read side, written as pure functions. This covers the budget lookup, the SQL `SUM` with its NULL case, the balance, and the ordered listing.
- `store.dfy` (module `Store`): the database as a class whose methods perform the writes. These are `InitDb`, `SetBudget`, `AddExpense` and `Reset`. The file ends with the March example as a client.

Modelling choices:

- Amounts (`REAL` in the table, `float` in the handlers) are whole cents (`int`), with no rounding.
- `datetime.now()` is a parameter `now`. The balance derives its month key from `now` exactly once. That one key scopes both the budget lookup and the expense window.
- Request fields that are absent are `None`. A missing `amount` or `cost` becomes 0, a missing `quantity` becomes 1, and a missing `item` makes the insert violate `NOT NULL`, so nothing is written.
- Expense ids follow `AUTOINCREMENT`. The class keeps the counter `lastId`, and `Reset` does not lower it, so ids are never reused.
- `ORDER BY date_added DESC` compares the stored ISO text, which orders timestamps field by field (`NotBefore`). The database leaves the order of equal timestamps open. The model keeps those rows in insertion order, which is one admissible choice. No contract states the tie order.
- The code is single-tenant, and the model follows the code. It has no `user_id` and no per-user scoping. Budgets are unique on the month alone. There is no table-rebuild migration and no sentinel-owner backfill. `reset` clears every row. Nothing validates that `quantity >= 1`, that `item` is non-empty, or that the budget is non-negative.

## Model

| member | source | states |
|---|---|---|
| MonthKeys.Format | app.py:45 | The `'%Y-%m'` key is seven characters: four year digits, a hyphen, two month digits |
| MonthKeys.KeyOf | app.py:107 | The month key of a timestamp, used for the clock reading at app.py:45 and app.py:107 and for `date_added` at app.py:117, is a well-formed seven-character key; SameKeyIffSameMonth proves it identifies exactly the calendar month |
| MonthKeys.ParseFormat | app.py:45 | The month key loses nothing: parsing it gives back the year and the month |
| MonthKeys.SameKeyIffSameMonth | app.py:117 | Two timestamps get the same month key if and only if they are in the same calendar year and month, so a time seconds across a month boundary lands in a different window |
| Ledger.GetBudget | app.py:60-63 | The lookup returns the stored amount when the month has a row and 0 when it has none (a missing row is not an error), as at app.py:110-112 too; GetAfterUpsert relates it to the upsert |
| Ledger.GetAfterUpsert | app.py:51-63 | After an upsert for month M, the lookup for M returns the amount just set and every other month's lookup is unchanged; a month with no row reads as 0 |
| Ledger.UpsertRowCount | app.py:51-54 | An upsert adds a row only when the month had none, otherwise the row count is unchanged: never a duplicate row |
| Ledger.SumCostWhereKey | app.py:117-118 | The SQL sum is NULL exactly when no expense's month key equals the current key |
| Ledger.TotalOrZero | app.py:119 | Reading a NULL sum as 0 and a zero sum as 0 gives exactly the sum, or 0 when there is none; TotalIsMonthSpend ties the result to the month's spending |
| Ledger.SumCostIsMonthSpend | app.py:117 | Filtering by month-key string sums exactly the costs of the expenses added in the calendar month of `now` |
| Ledger.TotalIsMonthSpend | app.py:117-119 | `total_expenses` equals the month's spending, and is 0 when no expense falls in the month |
| Ledger.MonthSpendPermutation | app.py:117 | The month's spending does not depend on row order: any permutation of the table has the same total |
| Ledger.Balance | app.py:104-127 | The balance uses one month key for both queries: `budget` is that month's lookup, `total_expenses` the month's spending, and `remaining == budget - total_expenses`, negative when overspent |
| Ledger.BalanceAfterAppend | app.py:86-91 | Appending an expense raises the total by its cost and lowers `remaining` by its cost when it is in the current month, and leaves both alone otherwise; the budget figure is unchanged |
| Ledger.QuantityIsMetadata | app.py:82-86 | Tables that differ only in the quantities of their rows have the same balance: quantity never multiplies cost |
| Ledger.InsertByDate | app.py:97 | Inserting a row into a newest-first list keeps it newest first and adds exactly that row |
| Ledger.ListExpenses | app.py:97-99 | The listing holds every expense row exactly once (same multiset) and is ordered by non-increasing `date_added` |
| Ledger.ListingKeepsMonthSpend | app.py:97-119 | The listed rows have the same month's spending as the table, so the listing and the balance see the same expenses |
| Store.Database.InitDb | app.py:9-35 | Init creates missing tables and adds `quantity` (default 1) when absent. No budget or expense row is lost, and the id counter is kept (a file without the expenses table has counter 0, so a new table starts at id 1). On a current file it changes nothing, so a second run is a no-op |
| Store.Database.SetBudget | app.py:45-57 | Upsert for the month of `now`: that month's row holds the amount set (0 if none given), other months keep theirs, and the row count grows only for a new month |
| Store.Database.AddExpense | app.py:70-94 | The insert appends exactly one row with the given item, the cost as given, the quantity (default 1), `now`, and the next id. Existing rows and the budget table are unchanged. A missing item writes nothing |
| Store.Database.Reset | app.py:129-137 | Reset leaves both tables empty and keeps the id counter |
| Store.MarchExample | app.py:103-127 | The March example: budget 500.00, expenses 20.00 with quantity 2 and 30.00, balance 500.00 / 50.00 / 450.00 |

## Left out

- HTTP routing, JSON request parsing and responses, and the page template (`index`, `jsonify`, `render_template`) are not modelled. The handlers' request and response shapes are parameters and results.
- Opening, committing and closing the sqlite connection is not modelled. Each write is a single statement here and happens atomically.
- The `float()` and `int()` conversions of request fields are not modelled, nor are their failures on malformed input. Values arrive already typed. A request without a JSON body is not modelled either.
- Floating-point `REAL` arithmetic is not modelled: amounts are exact integers (cents). The code's `... if expense_row[0] else 0` also turns a floating zero sum into `0`, which is the same value here.
- The clock is not modelled. `datetime.now()` becomes the parameter `now`, and calendar validity beyond field ranges (31 April, say) is not checked.
- The text round-trip of `date_added` through sqlite's default datetime adapter is not modelled. The stored value is the `DateTime` itself, and the database's `strftime('%Y-%m', ...)` is the same `KeyOf` as the handler's.
- MonthKeys.Format: always pads the year to four digits. Python's `%Y` on some C libraries does not pad years below 1000, so it could disagree with sqlite's `strftime`. That range is outside any real clock reading of this application.
- Budget row ids are not modelled: no operation returns them, and the upsert keeps the row.
- The `sqlite3.OperationalError` control flow of the migration is not modelled. It is the test "the `quantity` column is absent" in `InitDb`.
- `app.run` start-up and `static/script.js` are not modelled. The script is display code: currency formatting and a floating-point progress bar.
