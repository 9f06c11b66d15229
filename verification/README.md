# The money and stock ledger of a point-of-sale backend, modelled and proved

The repository is a multi-tenant point-of-sale API. This project models the part that moves stock and records
money, and proves what that part keeps:

* checkouts, returns, purchase orders and their receipt into a branch, as the services run them: loops with 64-bit
  wrap-around arithmetic, one SQL statement at a time, inside a transaction that commits or rolls back;
* the statements themselves, as methods of a `Db` object whose open transaction works on a private copy, with the
  columns, `CHECK` and `UNIQUE` constraints and foreign keys that reject rows;
* the catalogue edits and threshold changes that may happen between those calls;
* what is derived from the same tables: sales reports, low-stock alerts, receipt numbers, and list pages.

## How it is built

There are two layers.

The **serial layer** takes one call at a time. Each service method is proved against a pure description of the call:
`Verdict` (which error comes first, if any), `Effect` (the tables afterwards) and `Apply` (the effect, or exactly the
tables of before on every error). `Commits` / `Creates` then says in exact arithmetic, without any order of checks,
when a call goes through, and a lemma proves it equivalent to the chain of checks and wrapping guards. `Ledger.Run`
is a run of such calls. `Ledger.Inv` is the invariant of all runs, and `Conservation`, `Lifecycle`, `RoundTrip`,
`ReturnCaps`, `Reports` and `Inventory` build on it.

The **interleaved layer** (`Interleaving`) lets any number of clients run checkouts, returns and receives one
statement at a time, with the row locks of `FOR UPDATE`, `UPDATE` and upsert held until commit or rollback. Its main
result is that every schedule leaves the stock rows that its committed works leave when they run one after the other.
`Refinement` shows that a serial run of ledger calls moves stock in exactly that form. On that ground
`LedgerSchedules` lets whole transactions overlap, reading prices without a lock while others commit and prices
change, and proves that the ledger invariant holds in every schedule all the same.

| file | content |
|---|---|
| `Machine`, `Outcomes`, `Sums` | integers and columns; options and first errors; finite sums and the grouping law |
| `Schema`, `Database`, `Stock` | the tables, the statements, and what the two stock statements do |
| `Checkout`, `Returns`, `PurchaseOrders`, `Catalog` | the services, with their specifications |
| `Receipts`, `ReceiptRaces`, `Pagination` | receipt numbers; overlapping checkouts and their numbers; page parameters and slices |
| `Ledger` | runs of calls and the invariant every call keeps |
| `Conservation`, `RoundTrip`, `ReturnCaps`, `Lifecycle` | stock over runs; refunds and restored stock; returns beyond what was sold; received orders, tenants, numbering |
| `Reports`, `Inventory` | reports that agree with the ledger; alerts that follow it |
| `Interleaving`, `Refinement` | concurrent schedules, their serial meaning, and conservation over them |
| `LedgerSchedules` | the ledger invariant when transactions overlap |
| `Witnesses` | a one-product shop in which what the code does not guarantee goes wrong through its own calls |

## What the code does not guarantee

Where a natural property is false of the code, the model keeps the code and states exactly when the property holds.

* **Repeated products in one cart.** Each line is checked on its own, and a guarded `UPDATE` that finds too little
  stock affects no row and reports nothing. `Witnesses.OversoldCart` is the concrete case;
  `Stock.DeductAllAt`, `Conservation.Conserved` and `RoundTrip.RestoredIffCovered` give the condition: the cart's sum
  per product is within the row. Carts of distinct products always meet it (`Stock.DistinctLinesCovered`).
* **Cumulative returns.** Nothing counts earlier returns. `ReturnCaps.GoodsCappedIff` and `ReturnCaps.MoneyCappedIff`
  say over whole runs exactly when no more comes back, in goods or in money, than was sold: when each committed return
  passed, at its turn, a check the code does not make. `Witnesses.OverRefund` refunds 20 for a sale of 10.
* **The branch.** Returns and receives credit the branch of the caller, not the one stored on the sale or the order.
  `RoundTrip.RestoredIffCovered` and `Lifecycle.ReceiveCredits` say so, and what follows for a full return.
* **Concurrent receives of one order.** The status is read before the transaction and without a lock.
  `Interleaving.CreditedTwiceIffOverlapping`: the order is credited more than once exactly when two receives overlap
  and both commit. `Interleaving.OverlappingReceivesCreditTwice` is such a schedule.
* **Overlapping checkouts of one day** count the same receipts. `ReceiptRaces.RefusedIffOvertaken`: the insert of a
  number is refused exactly when a receipt of that day was committed after the checkout had counted. What is
  committed stays numbered 1..k all the same.
* **Two clocks.** The receipt number takes its count from the database's day and prints the service's day.
  `Lifecycle.RefusedForItsNumberIff` says exactly when a checkout is refused for that, and
  `Lifecycle.StuckUntilAClockMoves` that then all are, until one of the clocks moves on.
  `Witnesses.RefusedAfterMidnight` is the case; `ReceiptRaces.RefusedIffPrinted` covers overlapping checkouts.
* **Page numbers** have no upper bound, so the start offset can wrap: `Pagination.PaginateCorrectIff` and
  `Pagination.LaterPageEmptyIff` say exactly when that shows.
* `LockProductsForOrg` (internal/domain/transaction/repository.go:258, internal/domain/purchaseorder/repository.go:263)
  takes no lock, whatever its name says. The model follows the query.

## Model

| member | source | states |
|---|---|---|
| Machine.ExactQuotient | internal/domain/returns/repository.go:194 | price times quantity divided by quantity is the price: the unit price of a sold row is recovered exactly |
| Database.LastByIdOf | internal/domain/returns/service.go:110-113 | a map filled row by row is independent of row order and repetition when rows of one id agree |
| Database.PricesAre | internal/domain/transaction/repository.go:250-273 | the product lookup finds exactly the requested ids the organisation owns, each with its price |
| Database.BranchStocksAre | internal/domain/transaction/repository.go:196-219 | the stock lookup finds exactly the requested products with a row in the branch, each with its stock |
| Database.Db.LockProductsForOrg | internal/domain/transaction/repository.go:250-273 | the rows of the query: each owned product of the id list, once, with its price |
| Database.Db.LockBranchStocks | internal/domain/transaction/repository.go:196-219 | the rows of the query: each stock row of the branch among the ids, once, with its stock |
| Database.Db.UpdateBranchStock | internal/domain/transaction/repository.go:221-224 | the guarded update takes the quantity when the row holds it, otherwise changes nothing and reports success all the same |
| Database.Db.UpsertBranchStock | internal/domain/returns/repository.go:219-225 | the upsert adds to the row or creates it, and is rejected, changing nothing, exactly when a foreign key or the stock column would be violated |
| Database.Db.InsertSale | internal/domain/transaction/repository.go:290-300 | appends the sale exactly when the total fits its column and organisation, branch and customer exist |
| Database.Db.InsertDetails | internal/domain/transaction/repository.go:308-333 | one multi-row insert: all offered rows, or none when the sale or a product is missing or a column rejects a value |
| Database.Db.InsertPayment | internal/domain/transaction/repository.go:302-306 | appends the payment exactly when its amount is positive and fits the column, and sale and payment type exist |
| Database.Db.InsertReceipt | internal/domain/receipt/repository.go:55-58 | appends the receipt exactly when the sale exists and neither it nor the number has a receipt yet |
| Database.Db.InsertRefund | internal/domain/returns/repository.go:234-239 | appends the return exactly when the refund fits its column and organisation and sale exist |
| Database.Db.InsertRefundItems | internal/domain/returns/repository.go:241-269 | one multi-row insert: all offered rows, or none when the return or a product is missing or a column rejects a value |
| Database.Db.InsertOrder | internal/domain/purchaseorder/repository.go:194-199 | appends the pending order exactly when the total fits a plain INTEGER and organisation, branch and supplier exist |
| Database.Db.InsertOrderItems | internal/domain/purchaseorder/repository.go:201-230 | one multi-row insert: all offered rows, or none when the order or a product is missing or a quantity, price or subtotal is rejected |
| Database.Db.MarkReceivedForOrg | internal/domain/purchaseorder/repository.go:297-300 | sets the status of the organisation's order and touches no other row |
| Database.Db.UpdateProductForOrg | internal/domain/product/repository.go:143-147 | rewrites name, price and category of an owned product exactly when the columns and the category key accept them |
| Database.Db.UpsertThreshold | internal/domain/inventory/repository.go:95-111 | writes the threshold of an owned product, affects no row for any other |
| Stock.DeductAllAt | internal/domain/transaction/service.go:131-142 | a cart's guarded updates never drive a row below zero, never take more than the requested sum, and take exactly it if and only if the row held it; other branches are untouched |
| Stock.DeductAllInRange | migrations/000014_create_orgs_branches.up.sql:17-23 | a checkout keeps every stock row within its column and neither adds nor drops rows |
| Stock.DeductAllOrderFree | internal/domain/transaction/service.go:131-142 | on a covered cart, any two carts with the same per-product sums leave the same stock, so line order is irrelevant |
| Stock.DemandPermuted | internal/domain/transaction/service.go:131-142 | reordering the lines of a cart changes no per-product sum |
| Stock.DistinctLinesCovered | internal/domain/transaction/service.go:121-130 | for distinct products the line-by-line check implies that every row covers the cart |
| Stock.RepeatedLinesLoseADecrement | internal/domain/transaction/service.go:121-142 | two lines of 3 of one product pass the check against a stock of 5, and the second decrement is lost |
| Witnesses.OversoldCart | internal/domain/transaction/service.go:121-142 | carried to a call: the checkout commits, records 6 units sold and takes 3 |
| Stock.CreditAllAt | internal/domain/returns/service.go:114-128 | the upserts of a return or receive add the per-product sums, create exactly the missing rows, and change nothing else |
| Stock.CreditUndoesDeduct | internal/domain/returns/service.go:114-128 | crediting a cart's sums after its deduction restores all rows if and only if the rows covered the cart |
| Stock.CreditElsewhere | internal/domain/returns/service.go:125 | crediting another branch never restores the stock |
| Checkout.Checkout | internal/domain/transaction/service.go:69-189 | returns the first error in the order of the checks or the new sale's id; commits the whole effect or leaves the committed tables exactly as before, also when a mismatch is found after all stock updates |
| Checkout.NoFaultIffCommits | internal/domain/transaction/service.go:70-184 | the chain of checks lets a checkout through exactly when an order-free condition in exact arithmetic holds |
| Checkout.MismatchIff | internal/domain/transaction/service.go:143-161 | exactly when a payment mismatch is reported, and with which two amounts |
| Checkout.NumberRefusedIff | internal/domain/transaction/service.go:178-184 | a checkout is refused for its receipt number exactly when nothing else is wrong with it and the number is taken |
| Checkout.BranchIsKnown | migrations/000014_create_orgs_branches.up.sql:17-23 | the sale's insert never fails on its branch: a branch with a stock row exists |
| Checkout.ShapeIff | internal/domain/transaction/service.go:70-80 | the opening checks pass exactly for 1 to 100 lines of positive quantity |
| Checkout.ReserveIff | internal/domain/transaction/service.go:99-161 | the checks inside the transaction pass exactly when products are owned, each line is in stock, the exact total fits, and payments are absent or settle it |
| Checkout.TendersFaultFree | internal/domain/transaction/service.go:145-157 | the guarded payment loop passes exactly for positive amounts of known types whose exact sum fits |
| Checkout.RowsFit | internal/domain/transaction/repository.go:308-333 | after the checks no column rejects a detail or payment row, and the total is not negative |
| Checkout.TakeStock | internal/domain/transaction/service.go:131-142 | the wrapping loop computes the exact total, reports overflow exactly when that exceeds 2^31-1, and issues every line's update |
| Checkout.BuildDetails | internal/domain/transaction/repository.go:319-328 | one row per line of a known product, in order, the others skipped; the checks before it leave none to skip |
| Returns.UnitPrice | internal/domain/returns/repository.go:194 | integer division of subtotal by quantity: the largest price whose multiple does not exceed the subtotal |
| Returns.LookupOrderFree | internal/domain/returns/service.go:110-113 | when unit prices agree, the refund lookup is the same for every order and repetition of the detail rows |
| Returns.PricedIffSold | internal/domain/returns/service.go:116-119 | a product is found for refunding exactly when the sale has a row of it |
| Returns.UnitPriceOf | internal/domain/returns/repository.go:193-212 | the price found is that of every row of the product in the sale |
| Returns.NoLineFaultIffAcceptable | internal/domain/returns/service.go:114-132 | guard and columns together accept exactly what exact arithmetic would, whatever quantity makes the product wrap |
| Returns.AcceptableExact | internal/domain/returns/service.go:114-132 | an accepted refund total is exact and within 0..2^31-1, and every quantity fits its column |
| Returns.NoFaultIffCommits | internal/domain/returns/service.go:85-138 | a return commits exactly when an order-free condition in exact arithmetic holds |
| Returns.RestoreStock | internal/domain/returns/service.go:114-128 | the loop reports the first fault, or yields the exact refund and the credited stock |
| Returns.RowsFit | internal/domain/returns/repository.go:241-269 | no column rejects a row of an accepted return |
| Returns.FindTransactionDetailsForOrg | internal/domain/returns/repository.go:193-212 | the set of product and unit-price rows of the organisation's sale, in no promised order |
| Returns.BuildRefundItems | internal/domain/returns/repository.go:252-261 | one row per line of a product of the sale, in order, valued at the price that was refunded, the others skipped |
| Returns.ProcessReturnForOrg | internal/domain/returns/service.go:85-140 | every error leaves the committed tables alone, every success credits exactly the returned lines; where stored unit prices agree, as they do in every reachable state, the result and the whole new state are determined |
| PurchaseOrders.NormalizeAndTotal | internal/domain/purchaseorder/service.go:112-125 | normalises prices in place and accumulates the guarded wrapping total, or stops with the first error having touched only lines it normalised |
| PurchaseOrders.TotalledExact | internal/domain/purchaseorder/service.go:112-125 | on lines that fit their columns the wrapping loop yields the exact sum, or overflow exactly when that exceeds 2^31-1 |
| PurchaseOrders.AffordableIff | internal/domain/purchaseorder/repository.go:212-229 | at whatever prices the lines were normalised, guard and item columns together let through exactly the lines that fit with an exact total that fits |
| PurchaseOrders.OffersFit | internal/domain/purchaseorder/repository.go:217-220 | for such lines the stored subtotal is the exact cost, so the negative fallback never reaches a stored row |
| PurchaseOrders.CreatedIffCreates | internal/domain/purchaseorder/service.go:81-135 | an order is created exactly when exact arithmetic allows it: every wrapped product or total ends in a rejection |
| PurchaseOrders.CreatedThenCreates | internal/domain/purchaseorder/repository.go:201-230 | success implies owned products, in-range lines and an exact total that fits |
| PurchaseOrders.CreatesThenCreated | internal/domain/purchaseorder/service.go:81-135 | and those conditions suffice |
| PurchaseOrders.BuildOrderItems | internal/domain/purchaseorder/repository.go:212-224 | one row per line of a known product, in order, with the fallback for a subtotal that wrapped below zero |
| PurchaseOrders.CreatePOForOrg | internal/domain/purchaseorder/service.go:81-137 | creates the order with its exact effect or commits nothing; the caller's lines end up normalised |
| PurchaseOrders.NoLineFaultIffFits | internal/domain/purchaseorder/service.go:185-189 | the upserts of a receive all go through exactly when every product's resulting sum fits its column |
| PurchaseOrders.CreditLines | internal/domain/purchaseorder/service.go:185-189 | credits every line, or reports the first one rejected |
| PurchaseOrders.ReceivePOForOrg | internal/domain/purchaseorder/service.go:169-197 | receives a pending order into the caller's branch, or fails and commits nothing |
| Catalog.EditedIff | internal/domain/product/service.go:106-131 | an edit is accepted exactly for an owned product, a name of 1 to 255 characters, a price that fits and a category of the organisation; it rewrites that product, which keeps its organisation, and nothing else |
| Ledger.StaysInRange | migrations/000014_create_orgs_branches.up.sql:17-23 | no call takes a stock row out of 0..2^31-1 |
| Ledger.NewDetails | internal/domain/transaction/repository.go:319-328 | one detail row per requested line, in order, at the price that was read, and they add up to the total |
| Ledger.SaleRows | internal/domain/transaction/service.go:162-177 | the rows a checkout adds: priced alike per product, owned by its organisation, summing to its total; payments none or summing to it |
| Ledger.SellKeepsInv | internal/domain/transaction/service.go:107-184 | a checkout keeps the invariant: totals equal detail sums, payments none or equal, one receipt per sale, tenant links |
| Ledger.RecordedKeepsInv | internal/domain/transaction/service.go:162-184 | recording a checkout keeps the invariant at whatever prices it has read, also when they have changed since |
| Ledger.TakeBackKeepsInv | internal/domain/returns/service.go:94-135 | a return keeps it: refunds equal item sums, items were sold in that sale and are valued at its unit price |
| Ledger.CreateOrderKeepsInv | internal/domain/purchaseorder/service.go:104-135 | an order keeps it: the total equals the exact sum of quantity times price and of the stored subtotals |
| Ledger.OrderedKeepsInv | internal/domain/purchaseorder/service.go:126-132 | so does recording an order at whatever prices its lines were normalised |
| Ledger.ReceiveKeepsInv | internal/domain/purchaseorder/service.go:169-197 | a receive keeps it |
| Ledger.EditKeepsInv | internal/domain/product/service.go:106-131 | catalogue edits and thresholds keep it: no product changes hands |
| Ledger.ApplyKeepsInv | internal/domain/transaction/service.go:69-189 | every call keeps the ledger invariant |
| Ledger.RunKeepsInv | internal/domain/transaction/service.go:69-189 | every run of calls keeps it |
| Ledger.Reachable | migrations/000003_create_transactions.up.sql:1-13 | it holds in every state reached from a ledger with no sales, returns or orders |
| Conservation.Conserved | internal/domain/transaction/service.go:131-142 | over every run, stock summed over branches is at least initial stock plus received plus returned minus sold, and equal if and only if no committed checkout asked for more of the product than its branch held |
| Conservation.DistinctCartsConserve | internal/domain/transaction/service.go:112-142 | with carts of distinct products it is exactly equal |
| Conservation.CallBalance | internal/domain/purchaseorder/service.go:185-192 | the same for a single call of any kind |
| Conservation.DeductedShelves | internal/domain/transaction/repository.go:221-224 | the stock summed over branches drops by at most the cart's sum, and by exactly it if and only if the row covered it |
| Conservation.OrderMarked | internal/domain/purchaseorder/repository.go:297-300 | marking an order received moves exactly its lines into the received total |
| Conservation.SellSold | internal/domain/transaction/repository.go:308-333 | a checkout's recorded sales are what its cart asked for |
| Lifecycle.CallSteps | internal/domain/purchaseorder/service.go:169-197 | a call does exactly one of these and nothing else to any table: adds one sale of the caller's organisation with its details, payments and receipt, one refund with its items, one pending order with its items, marks one of its pending orders received, or edits its products |
| Lifecycle.RunExtends | internal/domain/purchaseorder/repository.go:284-300 | runs only append: no stored row is rewritten, except that an order may go from pending to received |
| Lifecycle.CreditedOnce | internal/domain/purchaseorder/service.go:177-192 | in a serial run an order credits stock once if the run ends with it received and began otherwise, else never |
| Lifecycle.ReceiveAgainChangesNothing | internal/domain/purchaseorder/service.go:177-179 | once received, any later receive, after any run, fails with the right error and changes nothing |
| Lifecycle.ReceiveCredits | internal/domain/purchaseorder/service.go:185-192 | the one receive adds each product's sum to the caller's branch, repeated products added up, missing rows created, others untouched |
| Lifecycle.OtherTenantsUntouched | internal/domain/returns/service.go:94-119 | a call leaves the sales, returns, orders and products of every other organisation as they were and adds none |
| Lifecycle.OtherTenantsStockKept | internal/domain/transaction/service.go:99-142 | in every reachable state a call leaves the stock rows of other organisations' products as they were, present or absent, in every branch |
| Lifecycle.OrdersAfter | internal/domain/purchaseorder/repository.go:194-199 | no call other than a receive changes an order, and a new order is pending |
| Lifecycle.ReceiptsStayNumbered | internal/domain/receipt/repository.go:45-58 | with one clock every run keeps the numbering of each day gapless |
| Lifecycle.NeverRefusedForItsNumber | internal/domain/transaction/service.go:178-184 | so in serial runs with one clock no checkout is refused for its receipt number |
| Lifecycle.RefusedForItsNumberIff | internal/domain/receipt/repository.go:45-58 | with any two clocks, after any run: a checkout is refused for its number if and only if nothing else is wrong and an earlier receipt printed the service's day at the rank the database's day has reached |
| Lifecycle.RunNumbered | internal/domain/receipt/repository.go:45-58 | with any two clocks every receipt prints the service's day and its rank on the database's day |
| Lifecycle.StuckUntilAClockMoves | internal/domain/transaction/service.go:178-184 | once a number is taken, every later checkout with the same clocks is refused, whatever else is called |
| Receipts.ReadBack | internal/domain/receipt/repository.go:52 | date and count can be read back from the printed number, also past 9999 |
| Receipts.ReceiptNumberInjective | internal/domain/receipt/repository.go:52 | two numbers are equal exactly when date and count are |
| Receipts.NumbersOfTheDay | internal/domain/receipt/repository.go:45-53 | a day with k receipts has issued exactly the numbers 1..k |
| Receipts.NumbersDistinct | migrations/000013_create_receipts.up.sql:1-7 | no two receipts share a number |
| Receipts.NextNumberNumbered | internal/domain/receipt/repository.go:45-58 | issuing count plus one keeps the numbering |
| Receipts.NextNumberFree | migrations/000013_create_receipts.up.sql:4 | the next number is never taken |
| Receipts.TakenIff | internal/domain/receipt/repository.go:46-52 | with any two clocks: exactly when the next number is taken |
| Receipts.TwoClocksCanCollide | internal/domain/receipt/repository.go:47-52 | the smallest case: the database stamps yesterday on a receipt that prints today, and today's first number is taken |
| Witnesses.RefusedAfterMidnight | internal/domain/transaction/service.go:178-184 | carried to calls: a sale after midnight on the service's clock only, and the next sale is refused for its number |
| ReceiptRaces.SchedulesStayNumbered | migrations/000013_create_receipts.up.sql:1-7 | overlapping checkouts, in every schedule: the committed receipts of a day with k of them carry exactly 1..k |
| ReceiptRaces.RefusedIffOvertaken | internal/domain/receipt/repository.go:45-58 | in every schedule an insert is refused if and only if a receipt of its day was committed after its checkout had counted |
| ReceiptRaces.RefusedIffPrinted | internal/domain/receipt/repository.go:45-58 | whatever the clocks of the overlapping checkouts, in every schedule: an insert is refused if and only if a committed receipt prints the service's day at the rank that follows the count |
| ReceiptRaces.SerialPrints | internal/domain/receipt/repository.go:47-52 | what serial checkouts print, under any two clocks, in the same terms |
| ReceiptRaces.OverlappingCheckoutIsRefused | internal/domain/receipt/repository.go:45-58 | two checkouts that count before either commits: the second is refused |
| RoundTrip.TotalByProduct | internal/domain/transaction/repository.go:319-327 | a sale's total is its sold quantities valued at its unit prices |
| RoundTrip.RefundsAreItems | internal/domain/returns/service.go:129-135 | all refunds of a sale add up to its refunded item rows |
| RoundTrip.RefundsByProduct | internal/domain/returns/service.go:114-124 | and to the returned quantities valued at the sale's unit prices, however they were split |
| RoundTrip.RefundWithinTotal | internal/domain/returns/service.go:110-128 | returning no more than was sold refunds at most the total, and all of it exactly when everything sold at a price has come back |
| RoundTrip.FullyReturnedIsFullyRefunded | internal/domain/returns/service.go:110-128 | any split into returns that adds up to what was sold refunds exactly the total |
| RoundTrip.SaleStays | internal/domain/product/service.go:106-131 | later calls, price changes included, leave a sale and what it sold as they were |
| RoundTrip.SoldInNewSale | internal/domain/transaction/repository.go:308-333 | a new sale sold what its cart asked for |
| RoundTrip.RefundRoundTrip | internal/domain/returns/service.go:110-128 | after a checkout and any later calls, returns that add up to the cart refund exactly what the cart cost |
| RoundTrip.SoldAtPrice | internal/domain/returns/repository.go:193-198 | after any later calls, price changes included, the unit prices of a sale are the prices its products were sold at |
| RoundTrip.FullReturnRestores | internal/domain/returns/service.go:114-128 | a covered checkout followed, after any calls that left the stock as it was, by a full return: it always passes guard and columns, refunds the cost and restores every stock row |
| RoundTrip.RestoredIffCovered | internal/domain/returns/service.go:125 | stock goes to the caller's branch: a committed full return restores the stock if and only if the caller is at the sale's branch and the cart was covered |
| RoundTrip.ReturnedAdds | internal/domain/returns/repository.go:241-269 | a committed return counts exactly its lines as returned from its sale, and nothing from any other sale |
| ReturnCaps.GoodsCappedIff | internal/domain/returns/service.go:114-128 | over any run that starts within the cap: no more of any product comes back from a sale than it sold if and only if every committed return of it kept, at its turn, what had come back plus its own lines within what was sold |
| ReturnCaps.CappedGoodsCapMoney | internal/domain/returns/service.go:110-128 | such a run refunds at most the sale's total |
| ReturnCaps.MoneyCappedIff | internal/domain/returns/service.go:120-129 | over any run, refunds stay within the sale's total if and only if each committed return's refund did at its turn |
| ReturnCaps.CallCapsGoods | internal/domain/returns/service.go:114-128 | one call keeps the cap exactly when its returned lines are within what is left |
| ReturnCaps.ReturnsAreNotCapped | internal/domain/returns/service.go:114-128 | a committed return commits again exactly when the stock columns have room for it twice |
| ReturnCaps.RefundsTwice | internal/domain/returns/service.go:114-128 | and then refunds its lines a second time |
| Witnesses.TeaSells | internal/domain/transaction/service.go:69-189 | an opening ledger in which a covered checkout commits: the hypotheses of the round trips can be met |
| Witnesses.OverRefund | internal/domain/returns/service.go:114-128 | in that ledger the unit sold for 10 is returned twice for 20 |
| Reports.GroupsAddUp | internal/domain/report/service.go:246-251 | for any grouping key the groups' totals and counts add up to those of all detail rows in scope |
| Reports.RevenueIsDetails | internal/domain/report/service.go:88-95 | in every reachable state the revenue summed over sales is the value of the detail rows in scope |
| Reports.ReportsAgree | internal/domain/report/service.go:86-95 | summary, category report and product report show the same revenue, though same-named groups merge and uncategorised rows have their own |
| Reports.RevenueSplits | internal/domain/report/service.go:88-92 | revenue adds up over adjacent date ranges |
| Reports.GroupedReport | internal/domain/report/service.go:289-295 | one row per group with detail rows, largest total first |
| Reports.GetSalesByCategoryForOrg | internal/domain/report/service.go:245-265 | the grouped rows, in order, unnamed group labelled, adding up to the revenue |
| Reports.GetSalesByProductForOrg | internal/domain/report/service.go:289-309 | the grouped rows, in order, adding up to the revenue |
| Reports.GetSalesSummaryForOrg | internal/domain/report/service.go:86-114 | revenue, count, and a named top product that no other name outsells; absent when nothing was sold or the best name is empty |
| Inventory.FindAlertsForOrg | internal/domain/inventory/repository.go:62-85 | exactly the alerted rows of the organisation's branches, each once, lowest stock first |
| Inventory.SetThresholdForOrg | internal/domain/inventory/repository.go:95-111 | sets the threshold of an owned product and reports any other as missing |
| Inventory.CheckoutClearsNoAlert | internal/domain/inventory/repository.go:69-70 | a checkout never clears an alert |
| Inventory.ReturnRaisesNoAlert | internal/domain/inventory/repository.go:69-70 | a return never raises one on an existing row |
| Inventory.ReceiveRaisesNoAlert | internal/domain/inventory/repository.go:69-70 | neither does a receive |
| Inventory.CreatedRowIsAlertedIff | internal/domain/inventory/repository.go:69-70 | a row that a return creates is alerted exactly when what came back is within an enabled threshold |
| Inventory.DashboardCountsAlerts | internal/domain/report/service.go:167-171 | the dashboard's low-stock count is the number of distinct products with a threshold among the listed alerts |
| Pagination.ParsePagination | internal/pkg/helpers/request.go:46-66 | which parameters are refused, the defaults, and that an accepted page has number at least 1 and size 1..200 |
| Pagination.PaginateCorrectIff | internal/pkg/helpers/request.go:68-81 | the requested page comes back if and only if its start offset does not wrap into the list or below zero |
| Pagination.PagesTile | internal/pkg/helpers/request.go:68-81 | while start offsets lie in the list, the pages returned concatenate to a prefix of it |
| Pagination.AllPages | internal/pkg/helpers/request.go:68-81 | the pages returned for 1..ceil(n/size) concatenate to the whole list |
| Pagination.LaterPageEmptyIff | internal/pkg/helpers/request.go:68-81 | a later page is empty if and only if its start offset does not wrap into the list or below zero |
| Pagination.WrappedPageRepeatsTheFirst | internal/pkg/helpers/request.go:72 | page 2^62+1 of size 4 is the first page again |
| Pagination.WrappedPagePanics | internal/pkg/helpers/request.go:72-80 | page 2^61+1 of size 4 panics |
| Interleaving.ScheduleKeepsInv | internal/domain/transaction/repository.go:196-224 | every schedule keeps: locked rows carry the values their client read or wrote, and committed stock is the serial replay |
| Interleaving.SchedulesAreSerial | internal/domain/transaction/service.go:112-142 | after any schedule, stock is what the committed works leave one after the other in commit order, each cart passing its check at its turn, no row outside its column |
| Interleaving.GuardNeverMisses | internal/domain/transaction/service.go:112-142 | in every reachable state the guarded update of a cart of distinct products neither waits nor misses, so ignoring the row count loses nothing |
| Interleaving.AllTakenIffCovered | internal/domain/transaction/service.go:121-142 | for any cart, all its units have been taken at the end of its updates if and only if its locked rows cover it |
| Interleaving.CreditedTwiceIffOverlapping | internal/domain/purchaseorder/service.go:170-194 | in every schedule, an order is credited more than once if and only if two receives of it commit and the later one was under way when the earlier committed |
| Interleaving.OverlappingReceivesCreditTwice | internal/domain/purchaseorder/service.go:170-180 | two overlapping receives of 5 units leave 10 |
| Interleaving.ClientUndisturbed | internal/domain/transaction/repository.go:204 | other clients' commits change no row a client relies on |
| Refinement.RunIsReplay | internal/domain/transaction/service.go:112-142 | the stock a serial run leaves is the replay of its works, the form every schedule reduces to |
| Refinement.CallIsWork | internal/domain/returns/service.go:114-128 | one call moves stock as its work does, and a committing cart has passed its availability check |
| Refinement.SchedulesConserve | internal/domain/transaction/service.go:112-142 | conservation in every schedule: stock over branches is at least the initial stock plus what returns and receives brought less what carts asked for, and equal if and only if every committed cart found its whole sum at its turn |
| Refinement.DistinctSchedulesConserve | internal/domain/transaction/service.go:112-142 | with carts of distinct products it is equal in every schedule |
| LedgerSchedules.SchedulesKeepTheLedger | internal/domain/transaction/service.go:94-187 | the whole ledger invariant in every state of every schedule of overlapping transactions, although prices are read without a lock and may change before the rows are stored, and an order may be received twice |
| LedgerSchedules.SchedulesRefundExactly | internal/domain/returns/service.go:110-128 | so under concurrency too, goods that all came back were refunded exactly what they cost |
| LedgerSchedules.ReturnedIsEffect | internal/domain/returns/service.go:106-135 | a return that commits late commits exactly what the serial call would commit then |
| LedgerSchedules.UnitPricesStay | internal/domain/returns/repository.go:193-212 | the unit prices a return has read stay those of the sale, whatever is committed meanwhile |
| LedgerSchedules.CommitKeeps | internal/domain/transaction/service.go:162-187 | one late commit keeps the invariant and steps table by table as a serial call does |

## Left out

- Database.Db.InsertSale: ids are row positions, so gaps and exhaustion of SERIAL sequences are not modelled; nor are the nullable organization_id and branch_id columns of old rows.
- LedgerSchedules.SchedulesKeepTheLedger: takes a transaction's effect on stock to happen at its commit, which Interleaving.SchedulesAreSerial justifies; a receipt number may be drawn at any point of the transaction, not only at its end.
- Database.Db.LockProductsForOrg: returns id and price only; the product name is selected by the query but not used by the services.
- Database.Db.MarkReceivedForOrg: received_at, like every timestamp finer than a day, is not modelled.
- Checkout.Checkout: returns the new id; reading the sale again after the commit, and errors of the driver or network, are not modelled. Ids outside 32 bits count as unknown rather than as a query error. The same holds for the other services.
- Returns.ProcessReturnForOrg: for stored details whose unit prices disagree, which no run produces, only the error and stock clauses are stated, because the refund then depends on an unspecified row order.
- Reports.GetSalesSummaryForOrg: sums are unbounded integers; the width of the scanned Go and SQL values is not modelled.
- Inventory.FindAlertsForOrg: product and branch names, which are only copied, are left out of the alert.
- Inventory.SetThresholdForOrg: threshold values outside their 32-bit columns are not modelled.
- Pagination.PaginateCorrectIff: assumes a list shorter than 2^63 - 200 elements, which every list in memory is.
- Receipts.NumbersDistinct: the 50-character width of the number column is not modelled; it would need a count of more than 30 digits.
- Interleaving.SchedulesAreSerial: covers stock rows, their locks and the received status of orders; the other tables are those of LedgerSchedules, and the order in which waiting clients proceed is not modelled. An upsert of a missing row locks its key at once, as the unique index makes others wait for it. Deadlock and progress of lock waiting are not promised by the code.
- Handlers, routing, authentication, tokens, configuration and CSV export: plumbing around library calls.
- The dashboard's lists of recent sales and top five products, and the plain CRUD of categories, customers, suppliers, branches and products (deleting a product that a ledger or stock row refers to is refused by its foreign key).
- The variants without an organisation (`CreatePO`, `ReceivePO`, `ProcessReturn`, `LockProducts`, `UpdateStock`): no handler calls them, and some use a dropped column.
- SQL text, placeholders and PostgreSQL's limit on their number: each statement is modelled by its effect on the tables.
