# Inventory store of a grocery: a Dafny model

This project models `InventoryManagementSystem`, the fixed-capacity, in-memory
inventory store of a small grocery, and proves what its operations promise.
The store has three parts:

- **Item array.** At most 100 product records (`Item`: id, name, quantity, unit
  price) in an array with a live count. Insertion appends and refuses a full
  store or an id already present. Deletion shifts every later record down one
  slot, so there are no gaps and the survivors keep their order. Lookups by id
  and by name are front-to-back scans that return the first match.
- **Price/quantity table.** A 5 × 4 grid of values. It is zeroed at
  construction and changed only by the bounds-checked single-cell setter and by
  the public re-initialiser, which zeroes every cell. Two displays read it, one
  row by row and one column by column.
- **Rarely-restocked list.** Two parallel 100-slot arrays of (id, restock
  frequency) with their own count. As in the source, the two arrays start with
  arbitrary contents, and only the first `rareCount` slots are ever read. The
  list is append-only and is never checked against the item array.

There is also a low-stock report that lists, in order, the items with
`quantity <= threshold` (default threshold 10), and the total stock value
`sum of quantity * price`.

Layout:

- `inventory_item.dfy` (module `InventoryItems`): the `Item` record and the
  specification of the live item sequence as functions on `seq<Item>`. These
  are the first-match search `FirstIndex`, removal with compaction `RemoveAt`,
  the `LowStock` filter and `TotalValue`, together with their lemmas.
- `price_quantity_table.dfy` (module `PriceQuantityTable`): the table's
  dimensions and the two orders in which the displays visit its cells.
- `inventory_management_system.dfy` (module `InventoryManagement`): the class
  `InventoryManagementSystem`. Its fields are `array<Item>`, `array2<real>` and
  two `array<int>`, plus the two counts. `Valid()` is the store's invariant: the
  fixed sizes, both counts at most 100, and pairwise distinct live ids. The
  ghost views `Items()` and `RareList()` give the live contents as sequences.
  Every method is a loop or store over these arrays, and its contract relates
  them to the specification functions.
- `demo.dfy` (module `InventoryDemo`): the demonstration driver
  `demonstrateSystem` on one store, call for call and in its order: six
  insertions, the two searches, three table updates and both displays, three
  rare items, the stock check at threshold 25, the total value, and the
  deletion of product 106. Each step asserts what a caller can conclude from
  the contracts alone. The calls that only print (`displayAllItems`,
  `displayRareItems`) are omitted.
- `wrappers.dfy`: `Option`, the result type of the two searches.

Unit prices and table values are `float` in the source. Here they are Dafny
`real`, because the model only stores them and multiplies quantities by them.

## Model

| member | source | states |
|---|---|---|
| `InventoryItems.FirstIndex` | Data_Structures_Lab_Assignmant_1_2401350016.cpp:51-58 | the result is -1 exactly when no record matches the key; otherwise it is a matching index with no match before it, i.e. the smallest matching index |
| `InventoryItems.FirstIndexAbsent` | Data_Structures_Lab_Assignmant_1_2401350016.cpp:51-58 | the id search returns -1 if and only if no record carries the id |
| `InventoryItems.FirstIndexOfOwnId` | Data_Structures_Lab_Assignmant_1_2401350016.cpp:85-88 | with distinct ids, the id search finds each record at its own index, so the first match is the only one |
| `InventoryItems.RemoveAt` | Data_Structures_Lab_Assignmant_1_2401350016.cpp:103-106 | removal leaves a sequence one shorter: records before `k` stay in place and each later record moves down one position |
| `InventoryItems.ShiftedDownIsRemoveAt` | Data_Structures_Lab_Assignmant_1_2401350016.cpp:103-106 | slots that hold the old records before `k` and the next old record from `k` on hold `RemoveAt(old, k)` |
| `InventoryItems.AppendFresh` | Data_Structures_Lab_Assignmant_1_2401350016.cpp:85-92 | appending a record whose id is absent keeps ids pairwise distinct, and the id search then finds the new record at the end |
| `InventoryItems.RemoveKeepsDistinct` | Data_Structures_Lab_Assignmant_1_2401350016.cpp:97-108 | removing the record at `k` keeps ids distinct, makes the removed id unfindable, and leaves every other id exactly as findable as before |
| `InventoryItems.InsertThenDelete` | Data_Structures_Lab_Assignmant_1_2401350016.cpp:80-108 | inserting a record with a fresh id and then deleting that id gives back the original sequence (delete undoes insert) |
| `InventoryItems.LowStock` | Data_Structures_Lab_Assignmant_1_2401350016.cpp:214-224 | the low-stock report is never longer than the item list |
| `InventoryItems.LowStockMembers` | Data_Structures_Lab_Assignmant_1_2401350016.cpp:218-219 | a record is in the report if and only if it is a live record with `quantity <= threshold` |
| `InventoryItems.LowStockConcat` | Data_Structures_Lab_Assignmant_1_2401350016.cpp:218-224 | the report on `a + b` is the report on `a` followed by the report on `b`, so selected records keep their relative order |
| `InventoryItems.LowStockStep` | Data_Structures_Lab_Assignmant_1_2401350016.cpp:218-223 | one iteration of the scan: record `k` is appended to the report exactly when its quantity is at most the threshold |
| `InventoryItems.LowStockIdempotent` | Data_Structures_Lab_Assignmant_1_2401350016.cpp:218-224 | filtering a report again with the same threshold changes nothing |
| `InventoryItems.DemoItems` | Data_Structures_Lab_Assignmant_1_2401350016.cpp:254-259 | the six products the demonstration inserts, in insertion order |
| `InventoryItems.DemoLowStock` | Data_Structures_Lab_Assignmant_1_2401350016.cpp:284 | for stock levels 50, 30, 25, 40, 20, 15 and threshold 25, the report is exactly the third, fifth and sixth records, in that order |
| `InventoryItems.TotalValue` | Data_Structures_Lab_Assignmant_1_2401350016.cpp:232-236 | the summed `quantity * price` of the records; it is never negative when no quantity or price is negative |
| `InventoryItems.TotalValueStep` | Data_Structures_Lab_Assignmant_1_2401350016.cpp:234-235 | one iteration of the accumulation: the value of the first `k + 1` records is the value of the first `k` plus record `k`'s `quantity * price` |
| `InventoryItems.TotalValueConcat` | Data_Structures_Lab_Assignmant_1_2401350016.cpp:232-236 | the summed `quantity * price` of `a + b` is the sum for `a` plus the sum for `b` |
| `InventoryItems.TotalValueRemoveAt` | Data_Structures_Lab_Assignmant_1_2401350016.cpp:103-106 | deleting the record at `k` lowers the total value by exactly that record's `quantity * price` |
| `InventoryItems.DemoTotalValue` | Data_Structures_Lab_Assignmant_1_2401350016.cpp:254-259 | the first two demonstration products (101 and 102) are worth 7375.00 together, and all six are worth 18293.75, the value the total reports at line 285 |
| `PriceQuantityTable.RowMajorOrder` | Data_Structures_Lab_Assignmant_1_2401350016.cpp:151-153 | the row-major walk (price range outer, quantity range inner) has one step per cell |
| `PriceQuantityTable.ColumnMajorOrder` | Data_Structures_Lab_Assignmant_1_2401350016.cpp:165-167 | the column-major walk (quantity range outer, price range inner) has one step per cell |
| `PriceQuantityTable.RowMajorVisitsEachCellOnce` | Data_Structures_Lab_Assignmant_1_2401350016.cpp:151-153 | the row-major walk visits only cells of the table, and visits every cell exactly once, at step `priceRange * 4 + qtyRange` |
| `PriceQuantityTable.ColumnMajorVisitsEachCellOnce` | Data_Structures_Lab_Assignmant_1_2401350016.cpp:165-167 | the column-major walk visits only cells of the table, and visits every cell exactly once, at step `qtyRange * 5 + priceRange` |
| `PriceQuantityTable.Transposed` | Data_Structures_Lab_Assignmant_1_2401350016.cpp:149-174 | step `k` of the column-major walk visits the same cell as step `Transposed(k)` of the row-major walk |
| `PriceQuantityTable.TransposedIsBijective` | Data_Structures_Lab_Assignmant_1_2401350016.cpp:149-174 | every row-major step corresponds to exactly one column-major step, so the two walks are permutations of each other |
| `InventoryManagement.ShiftDown` | Data_Structures_Lab_Assignmant_1_2401350016.cpp:103-106 | the shift loop leaves `RemoveAt(old, k)` in the first `n - 1` slots and leaves slot `n - 1` and the slots after it unchanged |
| `InventoryManagement.InventoryManagementSystem.constructor` | Data_Structures_Lab_Assignmant_1_2401350016.cpp:62-68 | a new store is valid, has no items and no rare items, and holds 0 in every table cell |
| `InventoryManagement.InventoryManagementSystem.InitializePriceQuantityTable` | Data_Structures_Lab_Assignmant_1_2401350016.cpp:71-77 | after the nested loops, every cell of the 5 × 4 table is 0 |
| `InventoryManagement.InventoryManagementSystem.FindItemIndex` | Data_Structures_Lab_Assignmant_1_2401350016.cpp:51-58 | the scan returns `FirstIndex` of the live items: -1 exactly when no live item has the id, otherwise a live slot holding that id |
| `InventoryManagement.InventoryManagementSystem.InsertItem` | Data_Structures_Lab_Assignmant_1_2401350016.cpp:80-93 | succeeds if and only if the store holds fewer than 100 items and the id is absent. On success the live items become `old + [Item(id, name, qty, cost)]` and the new id is found at the old count. On failure nothing changes. Ids stay distinct and the count stays at most 100 |
| `InventoryManagement.InventoryManagementSystem.DeleteItem` | Data_Structures_Lab_Assignmant_1_2401350016.cpp:96-109 | succeeds if and only if the id is present. On success the live items become `RemoveAt(old, k)`, where `k` is the id's index. On failure nothing changes. Either way the id is unfindable afterwards and ids stay distinct |
| `InventoryManagement.InventoryManagementSystem.SearchItemById` | Data_Structures_Lab_Assignmant_1_2401350016.cpp:112-120 | returns no slot exactly when no live item has the id; a returned slot is live and holds that id |
| `InventoryManagement.InventoryManagementSystem.SearchItemByName` | Data_Structures_Lab_Assignmant_1_2401350016.cpp:123-132 | returns no slot exactly when no live item has the name. A returned slot is the first live item with that name, so later items with the same name are never returned |
| `InventoryManagement.InventoryManagementSystem.DisplayPriceQuantityRowMajor` | Data_Structures_Lab_Assignmant_1_2401350016.cpp:149-160 | the display's nested loops visit the cells in `RowMajorOrder` and read, at each cell, the value stored there |
| `InventoryManagement.InventoryManagementSystem.DisplayPriceQuantityColumnMajor` | Data_Structures_Lab_Assignmant_1_2401350016.cpp:163-174 | the display's nested loops visit the cells in `ColumnMajorOrder` and read, at each cell, the value stored there |
| `InventoryManagement.InventoryManagementSystem.AddRareItem` | Data_Structures_Lab_Assignmant_1_2401350016.cpp:177-186 | below capacity, `(itemId, restockFreq)` is appended to the rare list at index `rareCount`; at capacity nothing changes. The item array is outside the method's frame, so it is never touched, and no existence check is made |
| `InventoryManagement.InventoryManagementSystem.UpdatePriceQuantityTable` | Data_Structures_Lab_Assignmant_1_2401350016.cpp:204-211 | for an in-range `(priceRange, qtyRange)`, exactly that cell becomes `value` and every other cell keeps its value; for an out-of-range index the table is unchanged |
| `InventoryManagement.InventoryManagementSystem.CheckLowStock` | Data_Structures_Lab_Assignmant_1_2401350016.cpp:214-224 | the scan selects `LowStock(Items(), threshold)`: exactly the live items with `quantity <= threshold`, in their original order. The threshold defaults to 10 |
| `InventoryManagement.InventoryManagementSystem.CalculateTotalInventoryValue` | Data_Structures_Lab_Assignmant_1_2401350016.cpp:232-236 | the accumulation loop returns `TotalValue(Items())`, the sum of `quantity * price` over exactly the live items |
| `InventoryDemo.DemoIds` | Data_Structures_Lab_Assignmant_1_2401350016.cpp:254-259 | the demonstration's products carry the ids 101 to 106, in insertion order |
| `InventoryDemo.DemoPrefixLacksNext` | Data_Structures_Lab_Assignmant_1_2401350016.cpp:254-259 | no demonstration product's id occurs among the products inserted before it |
| `InventoryDemo.StockNext` | Data_Structures_Lab_Assignmant_1_2401350016.cpp:254-259 | inserting demonstration product `k` into a store that holds the products before it succeeds, and extends the live items by that product |
| `InventoryDemo.StockGrocery` | Data_Structures_Lab_Assignmant_1_2401350016.cpp:251-259 | a new store after the demonstration's six insertions holds exactly the six products, in insertion order |

## Left out

- Console output: all `cout` and `snprintf` output, and the text of the
  messages. The methods return only their status and change only the state.
- `InventoryItem::displayItem`, and the rupee/paise rendering of a price and of
  the total (lines 22-30 and 238-243). This is display logic.
- `displayAllItems` and `displayRareItems` only print. The values they read are
  the ghost views `Items()` and `RareList()`.
- CalculateTotalInventoryValue: computes in exact `real` arithmetic. It does not
  model the 32-bit `float` rounding of the source's running sum.
- UpdatePriceQuantityTable: stores an exact `real`, not a 32-bit `float`.
- InsertItem: the unit price is stored as an exact `real`, not a 32-bit `float`.
- SearchItemById: returns the slot index, not a pointer into the array. So the
  model does not capture a caller editing a record through that pointer, nor the
  pointer going stale after a later deletion.
- SearchItemByName: returns a slot index instead of a pointer, for the same
  reason as `SearchItemById`.
- Ids, quantities and restock frequencies are unbounded `int`s, and names are
  `string`s. The only arithmetic on these fields is `quantity * price` in the
  total value. In the source, the `int` quantity is converted to `float` before
  that product, so no integer overflow can arise there; the model computes it
  in `real`. The counts are bounded by 100, so their 32-bit increments cannot
  overflow either.
- `main` (lines 292-302) and the output of `demonstrateSystem`: the
  demonstration's calls are in `demo.dfy`, without the two calls that only
  print.
- `addRareItem` and `updatePriceQuantityTable` return `void` in the source, and
  the model keeps them that way; the outcome can be read off the state.
- The source does not check whether a quantity or price is non-negative, so
  neither does the model.
