# GreenGrow stock ledger in Dafny

This project models the stock ledger of the GreenGrow seedling-nursery manager
(`inventory_manager.py`). The ledger keeps tree types, storage locations, stock lots and an
append-only list of sale transactions. It adds lots, overwrites a lot's quantity, moves units
between lots, and records sales that drain lots oldest first. It also answers two filtered
reads: the inventory listing and the sales history.

Layout, one module per file:

- `models.dfy` (`Models`): the rows of the four tables, shaped after `models.py`. Money is
  held in integer cents and timestamps in integer seconds.
- `totals.dfy` (`Totals`): quantities summed over the lots of a type, of a type at a
  location, or of a type with positive quantity.
- `queries.dfy` (`Queries`): the first lot of a type at a location, the inventory listing,
  and the sales-history listing, each as a function.
- `fifo.dfy` (`Fifo`): the oldest-first order of a sale, and the draining a sale performs
  along it, with the sale theorems.
- `moves.dfy` (`Moves`): what a move does to the lots, with the conservation theorems.
- `inventory_manager.dfy` (`InventoryManager`): the `Ledger` class. Its fields are the four
  tables, each a `seq` that the operations reassign. Every operation is one atomic state
  transition, because each commits once at its end.

Modelling choices:

- A row's id is its position plus one. The store numbers rows from 1 and never deletes any.
  `Ledger.Valid()` states this for all four tables.
- Quantities are unbounded `int`s. `update_stock_quantity` may write any value, so "no lot is
  negative" (`Models.NonNegative`) is not part of `Valid()`. Instead, every mutator is proved
  to preserve it. Adding and overwriting preserve it only when given a value `>= 0`.
- The current time is a parameter `now`. A date filter is a day number `d`, and it names the
  seconds `[d * Day, (d + 1) * Day)`. The sales-history end bound `< end_date + 1 day` is
  therefore `< (endDay + 1) * Day`.
- `.first()` at inventory_manager.py:90-93 has no ordering. The model takes the
  lowest-positioned match. When the destination is the source's own location, that match
  can be the source lot itself, and the move then changes nothing.
- Sales draw on lots by `date_added` ascending. Two lots added at the same moment are
  ordered by position (id) ascending. The source leaves this tie-break open; the model chooses it.
- A new lot created by a move is dated `now`. Moved units therefore count as the newest stock
  for later sales. Units merged into an existing lot take that lot's date.
- The system's design describes every lot quantity as non-negative. The code does not
  enforce this in `update_stock_quantity`, so the model follows the code. A sale's
  availability check sums only lots with positive quantity, exactly as the code's query does.
  `Totals.AvailableIsTotal` shows this equals the type's total when no lot is negative.

## Model

| member | source | states |
|---|---|---|
| `InventoryManager.Ledger.CreateTreeType` | inventory_manager.py:13-19 | appends one tree type with the next id, name, description and base price; refused with no change when the name is already taken |
| `InventoryManager.Ledger.TreeTypeById` | inventory_manager.py:21-23 | returns the tree type with that id, or nothing exactly when no tree type has it |
| `InventoryManager.Ledger.CreateLocation` | inventory_manager.py:31-37 | appends one location with the next id; refused with no change when the name is already taken |
| `InventoryManager.Ledger.LocationById` | inventory_manager.py:39-41 | returns the location with that id, or nothing exactly when no location has it |
| `InventoryManager.Ledger.StockById` | inventory_manager.py:62-64 | returns the lot with that id, or nothing exactly when no lot has it |
| `InventoryManager.Ledger.AddStockEntry` | inventory_manager.py:49-60 | appends exactly one new lot with the given type, location, quantity, cost and the next id; every existing lot, including one of the same type and location, is unchanged; that location's total of the type rises by the quantity |
| `InventoryManager.Ledger.UpdateStockQuantity` | inventory_manager.py:75-82 | overwrites the quantity of the lot with that id and nothing else; returns nothing and changes nothing when no lot has that id |
| `InventoryManager.Ledger.MoveStockQuantity` | inventory_manager.py:84-111 | refused, with no lot changed, exactly when the source lot is missing or holds fewer than the amount; otherwise the lots become `MoveLots` of the old lots, the returned pair is the source and destination as they end up, every type's total is unchanged, and no quantity turns negative |
| `InventoryManager.Ledger.DrainOldestFirst` | inventory_manager.py:137-147 | the sale loop over the ordered lots leaves exactly `Drain` of the old lots; its invariant is that the remainder plus what has been taken from the type equals the amount sold, with the remainder non-negative |
| `InventoryManager.Ledger.RecordSale` | inventory_manager.py:116-162 | refused, with no lot changed and no transaction added, exactly when the tree type is missing or its positive lots hold less than the amount; otherwise the lots are drained oldest first, one transaction is appended with the type, the amount, the type's base price and total = price × amount, and the type's total drops by exactly the amount |
| `Queries.FirstOfTypeAt` | inventory_manager.py:90-93 | finds a lot of the given type at the given location, with no earlier such lot, or reports that none exists |
| `Queries.StockEntries` | inventory_manager.py:66-73 | lists exactly the lots matching each filter that is present and non-zero, with their multiplicities |
| `Queries.UnfilteredListsEverything` | inventory_manager.py:69-73 | with both filters absent or zero, the listing is every lot in store order |
| `Queries.SortNewestFirst` | inventory_manager.py:167 | orders by transaction date, most recent first, as a permutation of its input |
| `Queries.TransactionsBetween` | inventory_manager.py:165-172 | lists exactly the transactions from the start of the start day up to before the day after the end day, each bound applied only when given, newest first |
| `Queries.EndDayIncluded` | inventory_manager.py:170-171 | a sale made at any moment of the end day is listed |
| `Totals.AvailableIsTotal` | inventory_manager.py:127-132 | when no lot is negative, the units a sale may draw on are the type's whole quantity |
| `Fifo.FifoOrder` | inventory_manager.py:127-130 | orders exactly the lots of the type with positive quantity, oldest first with id as the tie-break, and they hold the type's available total between them |
| `Fifo.DrainStep` | inventory_manager.py:139-146 | one turn of the sale loop takes the whole lot, or just the remainder when the lot holds enough |
| `Fifo.DrainDone` | inventory_manager.py:138-140 | the loop stops changing lots once nothing remains or every lot has been visited |
| `Fifo.DrainFrame` | inventory_manager.py:137-147 | draining changes only quantities, and only of the lots in the order |
| `Fifo.DrainBounds` | inventory_manager.py:141-146 | every lot drawn on ends between zero and what it held |
| `Fifo.DrainConsumes` | inventory_manager.py:137-147 | draining takes exactly the amount from the type's total and from its available total, when the lots hold that much |
| `Fifo.DrainInOrder` | inventory_manager.py:138-146 | a lot later in the order changes only if every earlier lot ends at zero |
| `Fifo.SaleTakesExactly` | inventory_manager.py:127-147 | a covered sale takes exactly the amount from the type and changes nothing but the quantities of the lots it draws on; lots of other types and lots that are not positive are untouched |
| `Fifo.SaleKeepsQuantitiesInBounds` | inventory_manager.py:141-146 | a sale leaves every drawn lot between zero and what it held, so no quantity goes negative |
| `Fifo.SaleIsFifo` | inventory_manager.py:130-146 | a lot is touched only when every lot of the type added before it (or at the same moment with a lower id) ends at zero |
| `Fifo.SaleExample` | inventory_manager.py:116-147 | lots of 10 (day 1) and 5 (day 2) and a sale of 12 leave 0 and 3 |
| `Moves.Destination` | inventory_manager.py:90-105 | the moved units land in the first lot of the source's type at the destination, or in a new lot at the end when there is none |
| `Moves.MoveLots` | inventory_manager.py:95-107 | the number of lots grows by one exactly when no destination lot exists |
| `Moves.MoveEffect` | inventory_manager.py:95-107 | the source drops by the amount and the destination rises by it, or a new lot with the source's type and cost, the destination location and the amount is added; every other lot is unchanged; a move onto the source itself changes nothing |
| `Moves.MoveConserves` | inventory_manager.py:95-107 | every tree type's total is unchanged by a move; a move within one location leaves every per-location total unchanged |
| `Moves.MoveBetweenLocations` | inventory_manager.py:95-107 | between two different locations, the source location loses exactly the amount of the type and the destination gains it |
| `Moves.MoveKeepsNonNegative` | inventory_manager.py:86-107 | moving at most what the source holds keeps every quantity non-negative |
| `Moves.MoveExample` | inventory_manager.py:90-107 | moving 4 of 10 units to a location holding 3 of the type leaves 6 and 7, with no new lot |

## Left out

- `get_all_tree_types` and `get_all_locations` (inventory_manager.py:25-27, 43-45) are the `treeTypes` and `locations` fields themselves.
- The SQLAlchemy session, commit and refresh, and table creation (`database.py`) are not modelled. Each operation is one atomic transition of the `Ledger` object.
- The command-line layer (`main.py`) and `utils.py` (number parsing, date formatting, table printing) are not part of this model. The CLI's positivity checks become `requires quantityToMove > 0` and `requires quantitySold > 0`.
- Float prices, costs and the inventory valuation are modelled as integer cents. `total_amount` is therefore exact, where the code multiplies floats.
- `datetime.datetime.now()` becomes the parameter `now`. Dates are day numbers, and the string comparison SQLite performs between a stored datetime and a date becomes an integer comparison against the start of the day.
- The ledger does not check that referenced tree-type and location ids exist (the CLI does). The model keeps that: `Valid()` does not state referential integrity.
- The unique-name constraint on tree types and locations surfaces in the code as an exception at commit. The model returns `None` and changes nothing.
- Concurrency and row locking: the original has none.
- `Queries.StockEntries`: the source promises no order for this listing. The contract states membership and multiplicity, not order.
