# ManagemantOrder: stock ledger, order income and cart, modelled in Dafny

This project models the bookkeeping core of a small restaurant back office:

- the stock ledger. Items are created with a total or a unit cost and restocked at a weighted-average unit cost. Use and waste deduct quantity, guarded against going below zero. Every quantity change is logged, and purchases and removals post expense entries.
- the order lifecycle. An order is created as `Pending`. Completing it posts one `INCOME` "Sales" entry linked to the order. Any other status change is written with no guard. A repair pass posts the income entries that are missing.
- the financial report:
  - the date window, including Buddhist-era years;
  - the income and expense totals;
  - the 50/50, then 50/25/25 profit split;
  - manual-entry validation;
  - the full data sync, which back-fills income and then deletes and rebuilds every "Stock Purchase" expense from current stock.
- the front-end cart. It covers add, remove and decrease, the cart total, and the order payload sent at checkout.

Layout:

- `time.dfy` (`Time`): calendar instants, month lengths, and the JavaScript `Date` constructor's year and month roll-over.
- `timeline.dfy` (`Timeline`): newest-first ordering, with a sort and a take-the-newest-n.
- `records.dfy` (`Records`): the entities (stock item, stock log, transaction, order) and the shared result types.
- `tables.dfy` (`Tables`): reading a table that is kept as a map from id to row.
- `stock.dfy` (`StockLedger`): the pure parts of `stockController.ts`.
- `orders.dfy` (`OrderLifecycle`): the pure parts of `orderController.ts`.
- `finance.dfy` (`Finance`): `transactionController.ts`.
- `store.dfy` (`Store`): the database as one class, with one method per request handler that writes. Each handler runs as one atomic step and leaves the state unchanged when it fails.
- `cart.dfy` (`Cart`): the cart reducer of `frontend/src/app/order/page.tsx`.

Money and quantities are `real`. Database ids are `nat`, handed out from counters. A table holds its rows as a map from id to row.

Where the code and its description differ, the model follows the code:

- The `updateOrderStatus` branch that is not `Completed` has no transition guard, so a completed order can be reopened. The order keeps its income entry. The link from an entry to an order is one-to-one: `syncTransactions` filters on `transaction: null`, the form Prisma gives a one-to-one relation, which the schema backs with a unique `orderId`. So completing the reopened order again fails: creating its second sale breaks the unique link and the unit of work rolls back (a 500 reply). The model keeps the unique link as part of `Store.Store.Valid` and reports this failure as `LinkTaken`; `Store.ReopenedOrderStaysLinked` exhibits the case. The invariant "each order with an income entry exists and is completed" (`Store.IncomeSound`) holds only while no completed order is reopened.
- `createTransaction` accepts negative amounts. It rejects a missing amount, the number 0 and a text that does not read as a number. The text "0", which a multipart form sends, is truthy and is posted as an entry of 0.
- `createStockInit` tests `cost` for truthiness as well. A total cost sent as the text "0" takes the total-cost branch: the unit cost is 0, no purchase is posted, and a `costPerUnit` sent beside it is ignored.
- `getOrders` rejects only a negative skip. Prisma reads a negative `take` as counting from the far end of the ordering, so page 1 with limit -k lists the k oldest orders.
- `syncTransactions` counts an order as linked when any entry names it. `syncAllData` counts it only when an `INCOME` entry names it.

## Model

| member | source | states |
|---|---|---|
| Time.DaysInMonth | backend/src/controllers/transactionController.ts:26 | a month has 28 to 31 days, and it has 29 exactly when it is February of a leap year |
| Time.ConstructorYear | backend/src/controllers/transactionController.ts:25-26 | the `Date` constructor reads years 0 to 99 as 1900 to 1999 and keeps every other year |
| Time.RolledMonth | backend/src/controllers/transactionController.ts:25-26 | a month index outside 0..11 rolls over into neighbouring years: the result is a valid month, and it lies exactly `index` months after January of the constructed year |
| Time.MonthStart | backend/src/controllers/transactionController.ts:25 | the first instant of a month is a valid instant of that month, and every valid instant of the month is at or after it |
| Time.MonthEnd | backend/src/controllers/transactionController.ts:26 | 23:59:59 on the last day of a month is a valid instant of that month, and every valid instant of the month is at or before it |
| Time.InMonth | backend/src/controllers/transactionController.ts:25-27 | every valid instant of a month lies between that month's start and its end |
| Time.InYear | backend/src/controllers/transactionController.ts:31-33 | an instant lies between 1 January and 31 December 23:59:59 of a year exactly when it falls in that year |
| Timeline.InsertNewest | backend/src/controllers/transactionController.ts:66 | inserting into a newest-first sequence keeps it newest first and adds exactly that one element |
| Timeline.SortNewest | backend/src/controllers/transactionController.ts:66 | the result is newest first and a permutation of the input |
| Timeline.TakeNewest | backend/src/controllers/stockController.ts:243-247 | the result is newest first and holds min(n, size) of the input's elements. It is all of them when there are at most n. Every copy of each element strictly later than the last one kept is kept, as often as the input holds it |
| Timeline.TakeNewestKeepsCopies | backend/src/controllers/stockController.ts:243-247 | of two equal entries and a strictly older one, the newest two are both copies of the equal entry |
| Timeline.PrefixOfNewest | backend/src/controllers/stockController.ts:245-246 | a prefix of a newest-first sequence is newest first, and it holds every copy of each element strictly later than its last element |
| Tables.Rows | backend/src/controllers/orderController.ts:145-147 | listing a table yields exactly the rows stored under ids below the counter, and no more rows than the counter |
| Tables.RowsAscending | backend/src/controllers/transactionController.ts:270 | when every row carries its own key, the listing is in strictly ascending id order below the counter |
| StockLedger.OrDefault | backend/src/controllers/stockController.ts:64 | an empty category falls back to the default, and any other category is kept as it is |
| StockLedger.InitialCosting | backend/src/controllers/stockController.ts:47-58 | a truthy total cost that reads as a number is kept, and the unit cost is total/qty (or 0 when qty <= 0). Otherwise a truthy unit cost that reads as a number is kept, and the total is qty * cost. With neither truthy, both are 0. The costing fails exactly when it would give a NaN unit cost: a non-numeric total over a positive quantity, or a non-numeric unit cost. A non-numeric total over no quantity gives 0 and 0 |
| StockLedger.ZeroCostForms | backend/src/controllers/stockController.ts:52-58 | a total cost of text "0" is the total: the unit cost beside it is ignored and both are 0. A total of number 0 is false, so the unit cost is used |
| StockLedger.NewItem | backend/src/controllers/stockController.ts:61-70 | a new item has the given id, name, quantity, unit and unit cost, the category or "General", a low-stock threshold of 5, no supplier, and the creation time |
| StockLedger.InitialLog | backend/src/controllers/stockController.ts:73-81 | a new item's log is a RESTOCK of its whole quantity at its unit cost, with the initial-stock reason, for that item |
| StockLedger.CreationPurchase | backend/src/controllers/stockController.ts:84-94 | creating an item posts one "Stock Purchase" expense of the total cost exactly when that total is positive, and nothing otherwise |
| StockLedger.WeightedAverage | backend/src/controllers/stockController.ts:121-125 | the new quantity is old + added. When it is positive, new cost * new quantity = old quantity * old cost + batch cost; otherwise the cost is 0 |
| StockLedger.AfterRestock | backend/src/controllers/stockController.ts:127-134 | restocking adds the batch to the quantity and the batch cost to the item's value while stock remains. With no stock left the unit cost is 0. The supplier changes only when a new one is given. No other field changes |
| StockLedger.RestockLog | backend/src/controllers/stockController.ts:136-145 | a restock log is a RESTOCK of the amount added, for that item, at the new unit cost |
| StockLedger.RestockEntry | backend/src/controllers/stockController.ts:146-153 | a restock posts a "Stock Purchase" expense of the batch cost, linked to no order |
| StockLedger.RestocksCommute | backend/src/controllers/stockController.ts:121-125 | two restocks of the same item give the same quantity and cost in either order |
| StockLedger.RestockBlends | backend/src/controllers/stockController.ts:121-125 | the averaged unit cost lies between the old unit cost and the batch's unit cost |
| StockLedger.RestockScenario | backend/src/controllers/stockController.ts:52-58 | 100 units that cost 1000 in total, restocked with 50 units for 600, give 150 units at 1600/150 (about 10.667) each |
| StockLedger.AfterUse | backend/src/controllers/stockController.ts:179-182 | using stock lowers only the quantity, by the amount used; the unit cost and every other field stay |
| StockLedger.UseLog | backend/src/controllers/stockController.ts:185-193 | a usage log records minus the amount used and the item's current unit cost, for that item. Its type is the requested one, or USE when none is given. Its reason is the given one, or the default when that is empty. It is dated now |
| StockLedger.RemovalAdjustment | backend/src/controllers/stockController.ts:216-229 | deleting an item posts one negative "Stock Adjustment" expense of minus its value exactly when that value is positive, and nothing otherwise |
| StockLedger.StockValues | backend/src/controllers/stockController.ts:14-23 | the stock listing pairs each item, in order, with its quantity * unit cost |
| StockLedger.GrandTotal | backend/src/controllers/stockController.ts:21-26 | the grand total that `getStocks` computes (it is not sent in the reply) is non-negative when every item value is |
| StockLedger.GrandTotalIsPositiveValue | backend/src/controllers/stockController.ts:26 | with no negative values, the grand total is the total the expense rebuild posts, which counts only the positive values |
| StockLedger.LogsOf | backend/src/controllers/stockController.ts:243-244 | the logs of one item are exactly the logs that name it |
| StockLedger.LogsOfCounts | backend/src/controllers/stockController.ts:243-244 | each log of the item occurs there as often as in the whole log, and no log of another item occurs |
| StockLedger.StockHistory | backend/src/controllers/stockController.ts:243-247 | an item's history is min(20, n) of its n logs, newest first, each taken no more often than the item's logs hold it. It holds all of them when n <= 20. Every copy of each log of that item later than the oldest one shown is in the history |
| OrderLifecycle.Snapshot | backend/src/controllers/orderController.ts:24-31 | each order line is a copy of the request line in the same position: product id, name, quantity and price |
| OrderLifecycle.NewOrder | backend/src/controllers/orderController.ts:16-32 | a new order is Pending and carries the requested total and Discord ids. Its customer defaults to "General Customer" and its payment to "Cash". Its lines are the snapshot of the request lines, one per line |
| OrderLifecycle.WithStatus | backend/src/controllers/orderController.ts:105-108 | a status update sets the status and bumps `updatedAt`; nothing else changes |
| OrderLifecycle.SaleEntry | backend/src/controllers/orderController.ts:111-120 | completion posts an INCOME "Sales" entry of the order's total, linked to the order's id |
| OrderLifecycle.IncomeCountAppend | backend/src/controllers/orderController.ts:111-120 | the number of income entries of an order adds up over a split ledger |
| OrderLifecycle.IncomeCountPositive | backend/src/controllers/transactionController.ts:243-248 | an order has an income entry exactly when its id is among the income order ids, and those ids are among the linked ids |
| OrderLifecycle.CompletionPostsOnce | backend/src/controllers/orderController.ts:111-120 | completing an order adds exactly one income entry for it and none for any other order |
| OrderLifecycle.BackfillEntry | backend/src/controllers/orderController.ts:159-171 | a repaired entry is the order's income "Sales" entry, dated at the order's last update |
| OrderLifecycle.Missing | backend/src/controllers/orderController.ts:145-150 | an order is missing its income when it is completed and its id is not among the linked ids |
| OrderLifecycle.Backfill | backend/src/controllers/orderController.ts:145-171 | the entries a repair posts; the contents are stated by BackfillMembers, BackfillCount and BackfillCovers |
| OrderLifecycle.BackfillSize | backend/src/controllers/orderController.ts:159-171 | the repair posts at most one entry per order |
| OrderLifecycle.BackfillMembers | backend/src/controllers/orderController.ts:145-171 | the repair posts an entry for every completed, unlinked order and for nothing else. It posts nothing exactly when no order is missing |
| OrderLifecycle.BackfillSnoc | backend/src/controllers/orderController.ts:159-171 | one more order extends the repair by its entry exactly when that order is missing |
| OrderLifecycle.BackfillAppend | backend/src/controllers/orderController.ts:159-171 | the repair of two runs of orders is the repair of each, in order |
| OrderLifecycle.BackfillCountsMissing | backend/src/controllers/orderController.ts:159-171 | the repair posts as many income entries for an id as there are missing orders with that id |
| OrderLifecycle.MissingCountBound | backend/src/controllers/orderController.ts:145-150 | with distinct order ids, at most one order per id is missing, and one is exactly when such an order exists |
| OrderLifecycle.MissingCountZero | backend/src/controllers/orderController.ts:145-150 | an id that no order has is never missing |
| OrderLifecycle.BackfillCount | backend/src/controllers/orderController.ts:159-171 | with distinct ids, the repair posts one income entry for a missing order and none for any other id |
| OrderLifecycle.BackfillCovers | backend/src/controllers/orderController.ts:159-171 | after the repair, every completed order that was unlinked has an income entry |
| OrderLifecycle.SyncTransactionsSettles | backend/src/controllers/orderController.ts:152-154 | a second repair right after a first finds nothing missing and posts nothing |
| OrderLifecycle.Ranked | backend/src/controllers/orderController.ts:61 | the order list is a newest-first permutation of all orders |
| OrderLifecycle.GetOrders | backend/src/controllers/orderController.ts:58-63 | a page succeeds exactly when the skip is non-negative. It is newest first and holds only stored orders. For a limit >= 0 its size is min(limit, n - skip); for a negative limit it is min(-limit, n - skip); either is 0 past the end |
| OrderLifecycle.NegativeLimitTakesOldest | backend/src/controllers/orderController.ts:58-63 | page 1 with limit -k is the k oldest orders (all of them when fewer), newest first; a later page with a negative limit fails |
| OrderLifecycle.SliceOfNewest | backend/src/controllers/orderController.ts:61-63 | a window of the newest-first ranking is newest first and holds only ranked orders |
| OrderLifecycle.PagesAdjoin | backend/src/controllers/orderController.ts:58-63 | page p followed by page p + 1 is exactly the next 2 * limit orders of the ranking: nothing is skipped or shown twice |
| Finance.NormalizeEra | backend/src/controllers/transactionController.ts:24 | a year above 2400 is read as Buddhist era and lowered by 543, to a year after 1857; any other year is kept |
| Finance.BuildDateFilter | backend/src/controllers/transactionController.ts:13-37 | the report is unfiltered exactly when there is no full start-end range and no year; the other windows are stated by RangeTakesPrecedence, MonthFilterSelectsMonth and YearFilterSelectsYear |
| Finance.BuddhistEraRoundTrip | backend/src/controllers/transactionController.ts:24 | a Buddhist-era year maps back to its Gregorian year, and years up to 2400 are kept |
| Finance.ReportMonth | backend/src/controllers/transactionController.ts:23-26 | the month window always names a valid month |
| Finance.RangeTakesPrecedence | backend/src/controllers/transactionController.ts:17-21 | with both start and end dates, the filter is exactly the inclusive range, whatever month and year say |
| Finance.MonthFilterSelectsMonth | backend/src/controllers/transactionController.ts:22-27 | with month and year but no full range, the filter selects exactly the instants of that (era-normalised, rolled-over) month |
| Finance.YearFilterSelectsYear | backend/src/controllers/transactionController.ts:28-33 | with a year only, the filter selects exactly the instants of that era-normalised year |
| Finance.NoYearNoFilter | backend/src/controllers/transactionController.ts:15-36 | with no full range and no year, every instant passes |
| Finance.EraYearsSelectAlike | backend/src/controllers/transactionController.ts:24-30 | a year given in the Buddhist era selects the same window as its Gregorian year |
| Finance.MonthRollsOver | backend/src/controllers/transactionController.ts:25-26 | month 13 means January of the next year, and month 0 December of the previous year |
| Finance.Select | backend/src/controllers/transactionController.ts:64-67 | the selected entries are exactly the ledger entries dated inside the window |
| Finance.SelectCounts | backend/src/controllers/transactionController.ts:64-67 | each entry inside the window is selected as often as the ledger holds it, and no entry outside it is |
| Finance.CalculateDistribution | backend/src/controllers/transactionController.ts:39-53 | there is no split exactly when net profit <= 0. Otherwise retained + dividend pool = net profit in equal halves, and the 50/25/25 shares sum to the pool |
| Finance.TotalOf | backend/src/controllers/transactionController.ts:72-76 | the total of a kind is 0 when no entry has that kind; its sums are stated by TotalOfAppend, TotalOfRemove and TotalOfPermutation |
| Finance.TotalOfAppend | backend/src/controllers/transactionController.ts:72-76 | the total of one kind adds up over a split ledger |
| Finance.TotalOfRemove | backend/src/controllers/transactionController.ts:72-76 | removing one entry removes only its own contribution to a total |
| Finance.TotalOfPermutation | backend/src/controllers/transactionController.ts:64-76 | the totals do not depend on the order of the entries |
| Finance.PdfFoldAgrees | backend/src/controllers/transactionController.ts:127-130 | the PDF export's expense total, which counts every non-INCOME entry, equals the report's EXPENSE total |
| Finance.FinancialReport | backend/src/controllers/transactionController.ts:60-90 | the history is the window's entries newest first. The totals are the sums of its INCOME and EXPENSE amounts, net profit is their difference, and the split is that of the net profit |
| Finance.ManualEntry | backend/src/controllers/transactionController.ts:97-108 | a manual entry is refused exactly when the amount is not truthy (missing, number 0, empty text) or does not read as a number. Otherwise it is stored with the given type, the amount read, the category and the description, linked to no order |
| Finance.ZeroAmountForms | backend/src/controllers/transactionController.ts:97-104 | the number 0 is refused, the text "0" is posted as 0, and a negative amount is posted as it is |
| Finance.Keep | backend/src/controllers/transactionController.ts:266-268 | the entries the purchase delete leaves, never more than the ledger holds |
| Finance.Purchases | backend/src/controllers/transactionController.ts:266-268 | the entries the purchase delete removes; with the entries it leaves they account for the whole ledger |
| Finance.KeepMembers | backend/src/controllers/transactionController.ts:266-268 | the delete step keeps exactly the entries that are not "Stock Purchase" expenses |
| Finance.PurchasesMembers | backend/src/controllers/transactionController.ts:266-268 | the delete step removes exactly the "Stock Purchase" expenses |
| Finance.RebuiltEntry | backend/src/controllers/transactionController.ts:274-283 | a rebuilt entry is a "Stock Purchase" expense of the item's value, dated at the item's creation |
| Finance.RebuiltPurchases | backend/src/controllers/transactionController.ts:270-285 | the rebuild posts at most one entry per item, each a purchase of positive amount |
| Finance.RebuiltMembers | backend/src/controllers/transactionController.ts:270-285 | every rebuilt entry belongs to an item of positive value, and every such item has its entry |
| Finance.RebuiltSnoc | backend/src/controllers/transactionController.ts:271-285 | one more item extends the rebuild by its entry exactly when its value is positive |
| Finance.SyncAll | backend/src/controllers/transactionController.ts:235-297 | the ledger after the full sync has at most one entry more per order and per stock item; its contents are stated by SyncAllPurchases, SyncAllKeepsOthers, SyncAllSettlesIncome and SyncAllIdempotent |
| Finance.KeepAppend | backend/src/controllers/transactionController.ts:266-268 | the delete step works entry by entry over a split ledger |
| Finance.PurchasesAppend | backend/src/controllers/transactionController.ts:266-268 | the deleted purchases of a split ledger are those of each part |
| Finance.IncomeCountKeep | backend/src/controllers/transactionController.ts:266-268 | the delete step removes no income entry |
| Finance.KeepWithoutPurchases | backend/src/controllers/transactionController.ts:266-268 | a ledger without purchases is untouched by the delete step |
| Finance.KeepOnlyPurchases | backend/src/controllers/transactionController.ts:266-268 | a ledger of purchases only is emptied by the delete step |
| Finance.BackfillIsNotPurchase | backend/src/controllers/transactionController.ts:251-260 | back-filled income entries are never removed by the expense delete |
| Finance.SyncAllPurchases | backend/src/controllers/transactionController.ts:266-285 | after the full sync, the "Stock Purchase" expenses are exactly the rebuilt ones, one per positive-valued item, in item order |
| Finance.SyncAllKeepsOthers | backend/src/controllers/transactionController.ts:242-268 | the full sync keeps every other entry (e.g. "Stock Adjustment") in order, followed by the back-filled income |
| Finance.SyncAllSettlesIncome | backend/src/controllers/transactionController.ts:242-263 | after the full sync, no completed order lacks an income entry |
| Finance.SyncAllIdempotent | backend/src/controllers/transactionController.ts:235-297 | running the full sync twice gives the same ledger as running it once |
| Finance.RebuiltTotal | backend/src/controllers/transactionController.ts:270-285 | the rebuilt purchases sum to the total positive stock value |
| Finance.SyncedPurchasesMatchStockValue | backend/src/controllers/transactionController.ts:266-285 | when no item has negative value, after the sync the purchase expenses sum to the grand total that `getStocks` computes |
| Store.IncomeCountUnlinked | backend/src/controllers/stockController.ts:84-94 | entries that are expenses or linked to no order are not income of any order |
| Store.LinkedIdsAreIncomeIds | backend/src/controllers/transactionController.ts:243-247 | when only income entries are linked, the ids linked to any entry are the ids linked to an income entry, so both syncs skip the same orders |
| Store.UnlinkedKeepsLinksUnique | backend/src/controllers/stockController.ts:84-94 | appending entries linked to no order keeps the one-to-one order link |
| Store.SaleKeepsLinksUnique | backend/src/controllers/orderController.ts:111-120 | the sale of an order no entry is linked to keeps the one-to-one order link |
| Store.BackfillKeepsLinksUnique | backend/src/controllers/orderController.ts:145-171 | the repair, skipping at least the orders that have income, keeps the one-to-one order link |
| Store.RebuildKeepsLinksUnique | backend/src/controllers/transactionController.ts:266-285 | deleting and rebuilding the purchases keeps the one-to-one order link |
| Store.UnlinkedKeepsIncomeSound | backend/src/controllers/stockController.ts:84-94 | appending expenses or unlinked entries keeps the one-income-per-completed-order invariant |
| Store.NewOrderKeepsIncomeSound | backend/src/controllers/orderController.ts:16-32 | adding a new order keeps the invariant |
| Store.CompletionKeepsIncomeSound | backend/src/controllers/orderController.ts:101-120 | completing a not-yet-completed order and posting its sale keeps the invariant |
| Store.StatusChangeKeepsIncomeSound | backend/src/controllers/orderController.ts:128-134 | a status change keeps the invariant unless it reopens a completed order |
| Store.ReopenedOrderStaysLinked | backend/src/controllers/orderController.ts:102-148 | reopening a completed order breaks IncomeSound. The order stays linked to its entry, and a second sale for it would break the one-to-one link |
| Store.BackfillKeepsIncomeSound | backend/src/controllers/orderController.ts:145-171 | the repair, skipping at least the orders that already have income, keeps the invariant |
| Store.SyncAllKeepsIncomeSound | backend/src/controllers/transactionController.ts:235-297 | the full sync keeps the invariant |
| Store.RebuiltFor | backend/src/controllers/transactionController.ts:270-285 | the loop over the stock items posts exactly the rebuilt purchases |
| Store.Store.CreateStockInit | backend/src/controllers/stockController.ts:40-105 | a costing that fails writes nothing. Otherwise it stores the new item under a fresh id, appends its RESTOCK log and posts the purchase when positive. Orders do not change, and the invariants are kept |
| Store.Store.RestockItem | backend/src/controllers/stockController.ts:108-160 | a missing item fails with nothing written. Otherwise it stores the averaged item and appends one RESTOCK log (amount added, new cost) and one purchase of the batch cost |
| Store.Store.UseStockItem | backend/src/controllers/stockController.ts:163-204 | fails with nothing written when the item is missing or the amount exceeds its quantity. Otherwise it lowers the quantity, appends one usage log, posts no entry and keeps stock non-negative |
| Store.Store.DeleteStock | backend/src/controllers/stockController.ts:207-237 | a missing item fails with nothing written. Otherwise it removes the item, posts the adjustment when its value is positive and keeps its logs |
| Store.Store.CreateOrder | backend/src/controllers/orderController.ts:9-53 | stores the new Pending order under a fresh id and changes nothing else |
| Store.Store.UpdateOrderStatus | backend/src/controllers/orderController.ts:93-139 | completion fails for a missing or already-completed order, and for an order that already has a linked entry; any other status fails only for a missing order. A failure writes nothing. Completion posts the sale, and its order then has exactly one income entry. Other statuses change only the order. While IncomeSound holds, the linked-entry failure cannot occur |
| Store.Store.PostMissingIncome | backend/src/controllers/orderController.ts:159-171 | appends exactly the repair entries for the orders in id order, and counts them |
| Store.Store.SyncTransactions | backend/src/controllers/orderController.ts:142-179 | appends an income entry for every completed order no entry is linked to, counts them and keeps the invariant |
| Store.Store.CreateTransaction | backend/src/controllers/transactionController.ts:93-114 | a refused amount writes nothing; an accepted one appends exactly that entry |
| Store.Store.RebuildPurchases | backend/src/controllers/transactionController.ts:266-285 | replaces every "Stock Purchase" expense by the entries rebuilt from the current items, and counts them |
| Store.Store.SyncAllData | backend/src/controllers/transactionController.ts:235-297 | the ledger becomes the full sync of the old ledger, the counts are the back-filled and the rebuilt entries, and the invariant is kept |
| Cart.CartTotal | frontend/src/app/order/page.tsx:151-154 | the cart total is non-negative when every line total is; its sums are stated by CartTotalAppend, CartTotalSplice and CartTotalReplace |
| Cart.IndexOf | frontend/src/app/order/page.tsx:110 | finds the first line with the id |
| Cart.CartTotalAppend | frontend/src/app/order/page.tsx:151-154 | the cart total adds up over a split cart |
| Cart.CartTotalSplice | frontend/src/app/order/page.tsx:151-154 | replacing one line by others changes the total by exactly their difference |
| Cart.SpliceKeepsCartValid | frontend/src/app/order/page.tsx:110-136 | replacing a line by at most one positive line with the same id keeps ids unique and quantities at least 1 |
| Cart.Bump | frontend/src/app/order/page.tsx:112-116 | the bumped cart has the same number of lines |
| Cart.BumpLines | frontend/src/app/order/page.tsx:112-116 | every line keeps its product, and only lines with the id gain exactly one unit |
| Cart.AddToCart | frontend/src/app/order/page.tsx:108-120 | adding a product keeps the number of lines when it is already in the cart, and adds one line otherwise |
| Cart.AddToCartShape | frontend/src/app/order/page.tsx:108-120 | adding a product already in the cart raises that line by one and leaves the rest; otherwise it appends the product with quantity 1 |
| Cart.AddKeepsCartValid | frontend/src/app/order/page.tsx:108-120 | adding keeps ids unique and quantities at least 1 |
| Cart.AddRaisesTotal | frontend/src/app/order/page.tsx:108-120 | adding raises the total by the price on the existing line, or by the product's price when it is new |
| Cart.AddAtListedPrice | frontend/src/app/order/page.tsx:108-120 | when the cart holds the product at its listed price, adding raises the total by exactly that price |
| Cart.AddOneUnitTotal | frontend/src/app/order/page.tsx:114 | one more unit on a line raises the total by its price |
| Cart.CartTotalReplace | frontend/src/app/order/page.tsx:151-154 | replacing one line changes the total by the difference of the two line totals |
| Cart.RemoveFromCart | frontend/src/app/order/page.tsx:122-124 | removal leaves no line with the id and never more lines than before |
| Cart.RemoveMembers | frontend/src/app/order/page.tsx:122-124 | the lines kept are exactly the lines with another id |
| Cart.RemoveAbsent | frontend/src/app/order/page.tsx:122-124 | removing an id that is not in the cart changes nothing |
| Cart.RemoveAppend | frontend/src/app/order/page.tsx:122-124 | removal works line by line over a split cart |
| Cart.RemoveShape | frontend/src/app/order/page.tsx:122-124 | removing an id deletes exactly its one line and keeps the others in order |
| Cart.RemoveOnly | frontend/src/app/order/page.tsx:122-124 | when only the line at k has the id, removal yields the cart without that line |
| Cart.RemoveKeepsCartValid | frontend/src/app/order/page.tsx:122-124 | removal keeps ids unique and quantities at least 1 |
| Cart.RemoveLowersTotal | frontend/src/app/order/page.tsx:122-124 | removal lowers the total by the removed line's total, or by nothing |
| Cart.Lower | frontend/src/app/order/page.tsx:128-134 | lowering keeps the number of lines |
| Cart.LowerLines | frontend/src/app/order/page.tsx:128-134 | every line keeps its product, and lines with the id lose one unit, stopping at 0 |
| Cart.DropEmpty | frontend/src/app/order/page.tsx:135 | dropping empty lines leaves only lines with a positive quantity, and never more lines than before |
| Cart.DropEmptyAppend | frontend/src/app/order/page.tsx:135 | dropping empty lines works line by line over a split cart |
| Cart.DropEmptyPositive | frontend/src/app/order/page.tsx:135 | a cart without empty lines is unchanged by the drop |
| Cart.LowerShape | frontend/src/app/order/page.tsx:128-134 | lowering changes only the line with the id |
| Cart.LowerAbsent | frontend/src/app/order/page.tsx:128-134 | lowering an id that is not in the cart changes nothing |
| Cart.AllPositiveSlices | frontend/src/app/order/page.tsx:135 | the lines before and after a position keep quantities at least 1 |
| Cart.DecreaseQuantity | frontend/src/app/order/page.tsx:126-137 | after a decrease every line has a positive quantity, and there are never more lines than before |
| Cart.DecreaseSplit | frontend/src/app/order/page.tsx:126-137 | decreasing touches only the lowered line, which is kept only when still positive |
| Cart.DropEmptyAround | frontend/src/app/order/page.tsx:135 | dropping empty lines leaves positive surroundings as they are |
| Cart.DecreaseShape | frontend/src/app/order/page.tsx:126-137 | decreasing lowers the line with the id by one, and drops it when it had one unit |
| Cart.DecreaseAbsent | frontend/src/app/order/page.tsx:126-137 | decreasing an id that is not in the cart changes nothing |
| Cart.DecreaseKeepsCartValid | frontend/src/app/order/page.tsx:126-137 | decreasing keeps ids unique and every remaining quantity at least 1 |
| Cart.DecreaseLowersTotal | frontend/src/app/order/page.tsx:126-137 | decreasing lowers the total by the line's price when the id is present, and otherwise changes nothing |
| Cart.DecreasePresentTotal | frontend/src/app/order/page.tsx:126-137 | decreasing a present id lowers the total by its price |
| Cart.DropLastUnitTotal | frontend/src/app/order/page.tsx:131-135 | dropping a line with a single unit lowers the total by its price |
| Cart.LoseOneUnitTotal | frontend/src/app/order/page.tsx:131 | one unit off a line lowers the total by its price |
| Cart.TrimStart | frontend/src/app/order/page.tsx:163 | the result is a suffix of the input, and everything cut off is white space |
| Cart.TrimEnd | frontend/src/app/order/page.tsx:163 | the result is a prefix of the input, and everything cut off is white space |
| Cart.Trim | frontend/src/app/order/page.tsx:163 | the trimmed name neither starts nor ends with white space. It is empty exactly when the name is all white space, and never longer than the name |
| Cart.TrimmedEmpty | frontend/src/app/order/page.tsx:163 | trimming both ends gives the empty string exactly when the name is all white space |
| Cart.TrimIdempotent | frontend/src/app/order/page.tsx:163 | trimming twice is trimming once |
| Cart.PayloadItems | frontend/src/app/order/page.tsx:166-171 | one payload item per cart line, in order, with its id, name, quantity and price |
| Cart.Checkout | frontend/src/app/order/page.tsx:157-172 | an empty cart sends nothing. Otherwise the customer is the trimmed name or "Walk-in Customer" (never empty). The payment is Cash, the total is the cart total, and the items are the payload items |
| Cart.PayloadTotal | frontend/src/app/order/page.tsx:151-171 | the payload items add up to the cart total |
| Cart.SnapshotTotal | backend/src/controllers/orderController.ts:24-31 | the stored order lines add up to the request lines' total |
| Cart.CheckoutCreatesOrder | frontend/src/app/order/page.tsx:157-175 | the order the backend stores from a checkout is Pending, has one line per cart line with that line's product and quantity, and its lines and total both equal the cart total |

## Left out

- Express request and response handling, HTTP status codes and the Prisma client: each handler's reply is reduced to a pass or a typed failure (`Outcome`).
- Parsing of numbers (`Number`, `parseFloat`) and floating-point rounding: amounts are exact `real`s. A numeric request field is a `Field`: missing, a number, or a text with the number it reads as (or NaN). The quantities and costs of `restockItem` and `useStockItem`, and the quantity of `createStockInit`, are taken as numbers.
- JavaScript `Date` parsing, time zones and milliseconds: an instant is a calendar date and a time of day to the second.
- The Discord notification of `createOrder`, the slip upload, and authentication: network and file I/O.
- `exportFinancialPDF`: PDF rendering is not modelled. Its fold is covered by `Finance.PdfFoldAgrees`.
- `getStocks` orders items by name under the database's collation: the model lists them in id order. The other unordered `findMany` calls are in id order as well.
- Concurrency and the isolation of `prisma.$transaction`: each handler is one atomic step.
- The database schema (backend/prisma/schema.prisma) is not part of this model. The unique `orderId` is inferred from the one-to-one relation filter at orderController.ts:148. The stock log delete rule is not modelled: deleting an item keeps its logs.
- Description texts (the Thai and English messages in entries and logs). They are a structured `Description` value rather than rendered strings.
- Cart ids are strings in the front end and numbers in the payload. Both are a `nat` here, so `Number(item.id)` is the identity.
- `getOrderById`, the product controller, the route files and the front-end mock pages hold no logic over this state.
- Store.Store.UpdateOrderStatus: also bumps `updatedAt`, which the source leaves to the database's automatic update stamp.
- Cart.Trim: states that the result has no white space at either end and is no longer than the input. It does not state that the result is a contiguous slice of the input; Cart.TrimStart and Cart.TrimEnd state that for each end.
- StockLedger.StockHistory: the take-20 is stated through sizes, counts and newest-first order. It does not fix which of several distinct logs sharing the oldest shown timestamp are kept.
- StockLedger.InitialCosting: assumes that a NaN unit cost fails the item write, so the unit of work rolls back; the database's handling of NaN is not part of this model. It also assumes that `Number` and `parseFloat` agree on the text sent (they differ on texts such as "12abc").
- Finance.ManualEntry: assumes that `isNaN` (which reads the whole text) and `parseFloat` (which reads a leading number) agree on the text sent.
- OrderLifecycle.GetOrders: page and limit are taken as integers. A fractional or non-numeric query value, which Prisma rejects, is not modelled.
- Enumerated request fields are taken to be valid: the entry type of `createTransaction`, the status of `updateOrderStatus` and the log type of `useStockItem` are `TxType`, `OrderStatus` and `LogType` values. The handlers pass these strings to the database unchecked. An unknown value cannot be expressed, and neither can a missing type or status; a missing log type is modelled, as the fallback to USE. What the database does with such a value (refuse it or store it) is not modelled.
