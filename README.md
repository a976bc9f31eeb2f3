# SistemaInventario core, modelled in Dafny

SistemaInventario is a Qt/C++ point-of-sale and inventory program on
SQLite. This project models its core as Dafny and proves properties of the
model:

- The value types: `Product`, `Sale` and `SaleItem`, `StockMovement` and
  `Customer`.
- The two repositories. Each one is a set of functions over an in-memory
  picture of the database tables. Each one also has methods on a
  `Connection` object, and the methods are proved equal to those functions.
- The product and sales services: validation, uniqueness checks, stock
  movements with their kardex entries, and sale creation and cancellation
  inside a transaction.
- The sales cart and its view model.
- The barcode scanner's keystroke buffer.
- The spreadsheet import service and its view model.
- The product list behind the inventory screens.
- The report screen's period arithmetic and summary.

The modules follow the source files:

| module | file | models |
|---|---|---|
| `Common` | common.dfy | the QString operations the program uses: trimming, lower-casing, `contains`, `split`, `toInt`, `toDouble`, number formatting |
| `Calendar` | calendar.dfy | the QDate operations: day numbers, `addDays`, `addMonths`, `daysTo`, `dayOfWeek` |
| `ProductModel`, `SaleModel`, `StockMovementModel`, `CustomerModel` | product.dfy, sale.dfy, stock_movement.dfy, customer.dfy | src/models/*.h |
| `Database` | database.dfy | the tables, the connection and its transactions (DatabaseManager) |
| `ProductRepository`, `SaleRepository` | product_repository.dfy, sale_repository.dfy | src/repositories |
| `ProductService`, `SalesService`, `ExcelImportService` | product_service.dfy, sales_service.dfy, excel_import_service.dfy | src/services |
| `SalesCart`, `ExcelImportViewModel`, `ProductListModel`, `ReportsViewModel` | sales_cart.dfy, excel_import_view_model.dfy, product_list_model.dfy, reports_view_model.dfy | src/viewmodels |
| `BarcodeScanner` | barcode_scanner.dfy | src/utils/BarcodeScannerHandler |

Some of the source's operations only compute a value. They become functions
with lemmas about them. The others change state: the database, a view
model's fields, the scanner's buffer. They become methods on classes, and
each method's `ensures` ties the new state to a specification function of
the old one.

Several things are parameters of the model:

- The database engine's failures are a set of failing statements fixed per
  connection, so every failure of a write, BEGIN or COMMIT can be reached.
  Reads never fail; see "## Left out".
- The clock is a date fixed per connection or screen.
- A spreadsheet file is a map from paths to loaded sheets.

The screens' methods call the services as the program has them, including
the two faults listed under "## Findings": the sale screen's `ProcessSale`
runs the `createSale` that never stores a sale, and the import screen hands
its mappings over under names the import service does not handle for the
amounts. The corrected behaviour is stated separately, by the members the
Findings table names and by `SaleProcessed` with `asWritten` false.

## Model

| member | source | states |
|---|---|---|
| ProductModel.ProfitMargin | src/models/Product.h:48-51 | 0 when the purchase price is not positive; otherwise margin × purchase price = (sale − purchase) × 100, so the margin is positive exactly when the sale price exceeds the purchase price and zero exactly when they are equal |
| ProductModel.DefaultProduct | src/models/Product.h:15-43 | a default-constructed product is active, counts as low on stock (0 ≤ 0), fails isValid (empty name) and has margin 0 |
| SaleModel.CalculateSubtotal | src/models/Sale.h:21-23 | the item's subtotal becomes quantity × unit price and no other field changes |
| SaleModel.CalculateTotals | src/models/Sale.h:51-57 | the loop over the items gives the sale with its totals recomputed (`WithTotals`) |
| SaleModel.TotalsShape | src/models/Sale.h:51-57 | recomputing keeps the items, sets subtotal to the sum of the item subtotals and total to subtotal + tax − discount, and changes nothing else |
| SaleModel.TotalsIdempotent | src/models/Sale.h:51-57 | recomputing the totals twice gives the same sale as once |
| SaleModel.TotalQuantity | src/models/Sale.h:67-73 | the loop returns the sum of the item quantities |
| SaleModel.NewSaleDefaults | src/models/Sale.h:29-65 | a new sale is COMPLETED, has no items (itemCount is 0) and zero amounts, is not valid, and its totals are already consistent |
| CustomerModel.DisplayName | src/models/Customer.h:26-31 | the display name starts with the name; it is the name alone without a document number, and otherwise the name followed by " (", the document number and ")" |
| CustomerModel.DisplayNameLength | src/models/Customer.h:26-31 | the display name is exactly as long as the name if and only if the document number is empty |
| CustomerModel.CustomerValidity | src/models/Customer.h:22-24 | a customer is valid exactly when it has a name: a default customer is invalid, the document number never changes validity, and a valid customer's display name is never empty (without a document number it is empty exactly for an invalid customer) |
| StockMovementModel.DefaultInvalid | src/models/StockMovement.h:10-33 | a default movement is not valid and is worth 0 |
| StockMovementModel.QueriesIgnoreSnapshot | src/models/StockMovement.h:26-32 | isValid and totalValue depend only on product, movement type, quantity and unit price, not on the stock snapshot or the texts |
| Database.AppendProduct | src/database/DatabaseManager.cpp:182-198 | inserting a product row with the next AUTOINCREMENT id keeps the table's ids ascending and below the counter |
| Database.AppendMovement | src/database/DatabaseManager.cpp:227-241 | the same for a stock movement row |
| Database.AppendSale | src/database/DatabaseManager.cpp:285-300 | the same for a sale row |
| Database.AppendSaleItem | src/database/DatabaseManager.cpp:307-317 | the same for a sale item, whose sale reference is an existing sale id |
| Database.ReplaceProduct | src/database/DatabaseManager.cpp:182-198 | an UPDATE that keeps a product's id keeps the tables well formed |
| Database.ReplaceSale | src/database/DatabaseManager.cpp:285-300 | the same for a sale row |
| Database.ProductIndex | src/repositories/ProductRepository.cpp:88-109 | the row position of an id: the first row with that id, or the table length when there is none |
| Database.SaleIndex | src/repositories/SaleRepository.cpp:82-106 | the same for sales |
| Database.ProductIdsOrdered | src/database/DatabaseManager.cpp:182-198 | in a well-formed table, product ids strictly increase in row order |
| Database.SaleIdsOrdered | src/database/DatabaseManager.cpp:285-300 | the same for sale ids |
| Database.Begin | src/database/DatabaseManager.cpp:83-87 | BEGIN succeeds exactly when no transaction is open and the engine accepts it; it then snapshots the tables; a failed BEGIN changes nothing |
| Database.Commit | src/database/DatabaseManager.cpp:89-93 | COMMIT succeeds exactly when a transaction is open and the engine accepts it; it keeps the tables and drops the snapshot; a failed COMMIT leaves the transaction open |
| Database.Rollback | src/database/DatabaseManager.cpp:95-99 | ROLLBACK succeeds exactly when a transaction is open and restores the snapshot |
| Database.RollbackUndoesAll | src/database/DatabaseManager.cpp:83-99 | whatever was written inside a transaction, rolling it back gives the tables it began with |
| Database.NestedBeginFails | src/database/DatabaseManager.cpp:83-87 | a second BEGIN inside an open transaction fails and changes nothing |
| Database.Connection.constructor | src/database/DatabaseManager.cpp:162-358 | a new connection has empty tables, no open transaction, and the given faults and date |
| Database.Connection.BeginTransaction | src/database/DatabaseManager.cpp:83-87 | the connection's new state and result are those of `Begin` |
| Database.Connection.CommitTransaction | src/database/DatabaseManager.cpp:89-93 | the connection's new state and result are those of `Commit` |
| Database.Connection.RollbackTransaction | src/database/DatabaseManager.cpp:95-99 | the connection's new state and result are those of `Rollback` |
| ProductRepository.TextLeTotal | src/repositories/ProductRepository.cpp:157-183 | SQLite's binary text collation, used by ORDER BY name, orders any two names one way or the other |
| ProductRepository.Insert | src/repositories/ProductRepository.cpp:157-183 | inserting into a sorted list keeps it sorted and adds exactly that product |
| ProductRepository.Sort | src/repositories/ProductRepository.cpp:157-183 | ORDER BY gives a sorted permutation of the selected rows |
| ProductRepository.Select | src/repositories/ProductRepository.cpp:157-183 | a WHERE clause keeps exactly the rows that satisfy it, and no more rows than there were |
| ProductRepository.FindById | src/repositories/ProductRepository.cpp:88-109 | a product is found exactly when some row has the id, and the row found has it |
| ProductRepository.FindBySkuSpec | src/repositories/ProductRepository.cpp:111-132 | a product is found exactly when the sku is non-empty (an empty sku is stored as NULL and matches nothing) and some row holds it; the row found holds it |
| ProductRepository.FirstWithSkuSpec | src/repositories/ProductRepository.cpp:111-132 | the first row with the sku is found exactly when one exists |
| ProductRepository.FindByBarcodeSpec | src/repositories/ProductRepository.cpp:134-155 | the same as for the sku, for the barcode |
| ProductRepository.FirstWithBarcodeSpec | src/repositories/ProductRepository.cpp:134-155 | the first row with the barcode is found exactly when one exists |
| ProductRepository.FindAll | src/repositories/ProductRepository.cpp:157-183 | the products sorted by name; with activeOnly, exactly the active rows, else all rows, each as often as in the table |
| ProductRepository.SearchByName | src/repositories/ProductRepository.cpp:185-209 | sorted by name; a product is listed exactly when it is active and its name contains the term (LIKE %term%, ASCII case-insensitive) |
| ProductRepository.FindByCategory | src/repositories/ProductRepository.cpp:211-235 | sorted by name; exactly the active products of the category (none for a category id ≤ 0, which is stored as NULL) |
| ProductRepository.FindLowStock | src/repositories/ProductRepository.cpp:237-258 | sorted by stock; exactly the active products whose stock is at or below their minimum, each as often as in the table |
| ProductRepository.LowStockQueryMatchesIsLowStock | src/models/Product.h:41-43 | the low-stock query and Product::isLowStock agree: a stored active product is listed exactly when it reports low stock, stock equal to the minimum is listed (both compare with ≤), and everything listed is active and reports low stock |
| ProductRepository.Count | src/repositories/ProductRepository.cpp:275-287 | the number of active products, which is the length of findAll(true) |
| ProductRepository.CreatedWellFormed | src/repositories/ProductRepository.cpp:8-39 | an insert keeps the tables well formed |
| ProductRepository.Updated | src/repositories/ProductRepository.cpp:41-71 | an update keeps the tables well formed |
| ProductRepository.Removed | src/repositories/ProductRepository.cpp:73-86 | a removal keeps the tables well formed |
| ProductRepository.StockUpdated | src/repositories/ProductRepository.cpp:260-273 | a stock update keeps the tables well formed |
| ProductRepository.CreateResult | src/repositories/ProductRepository.cpp:8-39 | create returns 0 exactly when it writes nothing, and that happens exactly when the engine rejects the INSERT, the category id names none of the three seeded categories (foreign key) or the sku or barcode is taken; otherwise it returns the next fresh id, the stored row is the product under that id with NULL for a non-positive category, and the old rows are kept |
| ProductRepository.UpdateKeepsStock | src/repositories/ProductRepository.cpp:41-71 | a successful update names an existing category or none, rewrites the row with the product's id from the product but keeps its id and its current stock, and leaves every other row alone |
| ProductRepository.UpdateStockOnlyStock | src/repositories/ProductRepository.cpp:260-273 | a successful stock update changes that row's current stock and nothing else |
| ProductRepository.UnknownIdFails | src/repositories/ProductRepository.cpp:41-86 | update, remove and updateStock of an id that no row has return false and change nothing |
| ProductRepository.RemoveIsSoft | src/repositories/ProductRepository.cpp:73-86 | remove keeps the row, clears only its active flag, and the product drops out of findAll(true) |
| ProductRepository.RemovedSkuStillFound | src/repositories/ProductRepository.cpp:73-86 | a removed product is still found by its sku, so a new product cannot reuse it |
| ProductRepository.Create | src/repositories/ProductRepository.cpp:8-39 | the connection's tables and the returned id are those of `Created`; on success the caller's product gets its id |
| ProductRepository.Update | src/repositories/ProductRepository.cpp:41-71 | the tables and result are those of `Updated` |
| ProductRepository.Remove | src/repositories/ProductRepository.cpp:73-86 | the tables and result are those of `Removed` |
| ProductRepository.SetStock | src/repositories/ProductRepository.cpp:260-273 | the tables and result are those of `StockUpdated` |
| SaleRepository.FirstRejected | src/repositories/SaleRepository.cpp:54-70 | the position of the first item whose INSERT fails: every item before it is accepted, and the one at it (if any) is rejected |
| SaleRepository.StampItems | src/repositories/SaleRepository.cpp:54-70 | every item gets the sale's id and the next item id in order, nothing else changes |
| SaleRepository.AppendItems | src/repositories/SaleRepository.cpp:54-70 | inserting the items leaves the products and the sale counter alone and advances the item counter by the number of items |
| SaleRepository.AppendItemsWellFormed | src/repositories/SaleRepository.cpp:54-70 | inserting items under an existing sale keeps the tables well formed |
| SaleRepository.AppendItemsRows | src/repositories/SaleRepository.cpp:54-70 | the inserted item rows are exactly the stamped items, appended in order |
| SaleRepository.InsertedRows | src/repositories/SaleRepository.cpp:21-70 | inserting the header and the items keeps the tables well formed |
| SaleRepository.Created | src/repositories/SaleRepository.cpp:8-80 | create keeps the connection's state well formed |
| SaleRepository.ItemsOf | src/repositories/SaleRepository.cpp:264-292 | loadSaleItems returns no more rows than there are |
| SaleRepository.ItemsOfMembers | src/repositories/SaleRepository.cpp:264-292 | an item is loaded for a sale exactly when it is stored with that sale's id |
| SaleRepository.FindSaleRow | src/repositories/SaleRepository.cpp:82-106 | a header is found exactly when some row has the id, and the row found has it |
| SaleRepository.FindById | src/repositories/SaleRepository.cpp:82-106 | a sale is found exactly when its header exists; it carries the id and exactly the items stored under it, in order |
| SaleRepository.InsertedRowsSucceed | src/repositories/SaleRepository.cpp:21-70 | a successful insert means no statement was rejected; it adds one header under the next sale id and one row per item in order under that id, touches no product or movement, and gives back the sale with its id and stamped items |
| SaleRepository.InsertedSaleReadsBack | src/repositories/SaleRepository.cpp:21-106 | a freshly inserted sale reads back by its id with its invoice, its status and exactly its new items |
| SaleRepository.InsertedRowsFail | src/repositories/SaleRepository.cpp:39-66 | the insert reports 0 exactly when the header is rejected (engine failure, invoice number taken, a customer id > 0 while the customers table is empty, an unknown payment method) or some item is (engine failure, unknown product); so every sale with a customer is refused |
| SaleRepository.CreateInsideTransaction | src/repositories/SaleRepository.cpp:13-16 | when BEGIN fails, in particular when a transaction is already open, create returns 0 and changes nothing |
| SaleRepository.CreateAllOrNothing | src/repositories/SaleRepository.cpp:13-79 | outside a transaction, create either stores the whole sale and commits, or returns 0 with the tables exactly as before; no transaction is left open either way |
| SaleRepository.CancelRow | src/repositories/SaleRepository.cpp:170-182 | the status update keeps the tables well formed |
| SaleRepository.CancelEffect | src/repositories/SaleRepository.cpp:170-182 | cancel succeeds exactly for an existing sale when the engine accepts the update; the sale then reads back CANCELLED and otherwise unchanged, and no other row of any table changes; a failed cancel changes nothing |
| SaleRepository.NextSequence | src/repositories/SaleRepository.cpp:200-208 | the next sequence stays within the C++ int range |
| SaleRepository.LastOn | src/repositories/SaleRepository.cpp:189-193 | the latest row stored on the day, or none: no later row is from that day |
| SaleRepository.NextInvoiceNumber | src/repositories/SaleRepository.cpp:184-212 | the number always starts with today's yyyyMMdd and a dash |
| SaleRepository.LastOnIsLatest | src/repositories/SaleRepository.cpp:189-193 | among today's sales, the one read has the largest id (ORDER BY id DESC LIMIT 1) |
| SaleRepository.InvoiceRoundTrip | src/repositories/SaleRepository.cpp:205-211 | splitting a generated number at '-' gives back today's prefix and the padded sequence, which has at least four digits and parses back to the sequence |
| SaleRepository.FirstOfTheDay | src/repositories/SaleRepository.cpp:199-211 | with no sale today the number ends in -0001 |
| SaleRepository.SuccessiveInvoices | src/repositories/SaleRepository.cpp:202-211 | when today's latest sale carries number n, the next number is n + 1 |
| SaleRepository.SequenceAfter | src/repositories/SaleRepository.cpp:205-208 | a well-formed number of today with sequence n is followed by n + 1 |
| SaleRepository.ForeignInvoiceRestarts | src/repositories/SaleRepository.cpp:205-209 | a number that does not split into today's prefix and one more part restarts the sequence at 1 |
| SaleRepository.CountIn | src/repositories/SaleRepository.cpp:224-228 | the counted sales are no more than the rows |
| SaleRepository.StatsForRange | src/repositories/SaleRepository.cpp:219-242 | the count is never negative; the average ticket is 0 without transactions and otherwise total / count |
| SaleRepository.UncountOne | src/repositories/SaleRepository.cpp:224-228 | turning one counted row into an uncounted one lowers the count by one and the sum by that row's total |
| SaleRepository.CancelLeavesStats | src/repositories/SaleRepository.cpp:170-242 | cancelling a sale inside the range removes it from the range's count and sales total |
| SaleRepository.InsertWithinTransaction | src/repositories/SaleRepository.cpp:21-70 | the header and item inserts leave the tables, id and stored sale of `InsertedRows` |
| SaleRepository.InsertItem | src/repositories/SaleRepository.cpp:55-69 | one item insert succeeds exactly when the engine accepts it; it then appends the item under the sale with the next item id, and otherwise changes nothing |
| SaleRepository.InsertItems | src/repositories/SaleRepository.cpp:54-70 | the loop stops at the first rejected item; the items before it are inserted and stamped in order, the rest are left as they were |
| SaleRepository.InsertedRowsStop | src/repositories/SaleRepository.cpp:54-70 | the insert loop's stopping point and rows agree with `InsertedRows` |
| SaleRepository.Create | src/repositories/SaleRepository.cpp:8-80 | the id, connection state and stored sale are those of `Created` |
| SaleRepository.Cancel | src/repositories/SaleRepository.cpp:170-182 | the tables and result are those of `CancelRow` |
| ProductService.MovementTypeId | src/services/ProductService.cpp:360-371 | 0 exactly for a code that is not a seeded movement type; otherwise the id of the row holding that code |
| ProductService.AffectsStock | src/database/DatabaseManager.cpp:217-223 | every seeded movement type adds to or takes from the stock (affects_stock is 1 or −1) |
| ProductService.MovementSignsAsSeeded | src/database/DatabaseManager.cpp:217-223 | the six seeded codes have ids 1 to 6 in seeding order; purchases, positive adjustments and sale returns add, sales, negative adjustments and purchase returns take away |
| ProductService.SkuUniqueMeansNoOtherHolder | src/services/ProductService.cpp:267-275 | with distinct stored skus, a sku is unique for a product exactly when no other product holds it; an empty sku always is |
| ProductService.ValidateProduct | src/services/ProductService.cpp:287-322 | no failure exactly when the trimmed name is non-empty, sale price, purchase price and minimum stock are not negative, and sku and barcode are unique; each of the six failures (name, sale price, purchase price, minimum stock, sku in use, barcode in use) is reported exactly when the checks before it pass and it does not |
| ProductService.OwnCodesPass | src/services/ProductService.cpp:267-285 | a product whose sku and barcode are held only by itself passes the uniqueness checks, so only the field checks decide |
| ProductService.Logged | src/services/ProductService.cpp:331-358 | logging appends exactly the movement under the next movement id and touches nothing else; a failed insert changes nothing |
| ProductService.LoggedWellFormed | src/services/ProductService.cpp:331-358 | logging keeps the tables well formed |
| ProductService.Registered | src/services/ProductService.cpp:123-205 | registering a movement keeps the tables well formed |
| ProductService.RegisterRefusals | src/services/ProductService.cpp:130-171 | a missing product, an unknown movement code or a stock that would go below zero fail with their own message before any write |
| ProductService.RegisterSuccess | src/services/ProductService.cpp:146-204 | on success both writes went through: the product's stock is previous + quantity × affects_stock and exactly one movement is appended recording the old and the new stock; no other row changes |
| ProductService.RegisterStockStands | src/services/ProductService.cpp:173-191 | when the movement cannot be logged the stock write is not undone: the product has the new stock and the ledger has no entry |
| ProductService.Adjusted | src/services/ProductService.cpp:207-225 | adjusting keeps the tables well formed |
| ProductService.AdjustedRegisters | src/services/ProductService.cpp:215-224 | a change of stock is registered as AJUSTE_POSITIVO or AJUSTE_NEGATIVO by the absolute difference at unit price 0 |
| ProductService.AdjustReachesTarget | src/services/ProductService.cpp:207-225 | a successful adjustment leaves the stock at exactly the requested value; a negative target is never reached |
| ProductService.AdjustToCurrentWritesNothing | src/services/ProductService.cpp:218-220 | adjusting to the current stock succeeds without writing anything |
| ProductService.RegisterReaches | src/services/ProductService.cpp:146-204 | a successful movement leaves the stock at the computed value; a negative value is never reached |
| ProductService.AdjustArithmetic | src/services/ProductService.cpp:215-224 | the adjustment's code exists and its signed quantity takes the stock exactly to the requested value |
| ProductService.CreatedProductWellFormed | src/services/ProductService.cpp:12-35 | creating a product keeps the tables well formed |
| ProductService.CreatedWithItsStock | src/services/ProductService.cpp:12-35 | a created product reads back with the stock it was given |
| ProductService.CreateLogsOpeningStock | src/services/ProductService.cpp:26-31 | a created product with positive stock gets exactly one AJUSTE_POSITIVO movement from 0 to that stock at the purchase price, unless the ledger rejects it (the creation stands); without stock there is no movement |
| ProductService.InvalidNotCreated | src/services/ProductService.cpp:14-17 | an invalid product fails with the validation's failure and nothing is written |
| ProductService.UpdatedProduct | src/services/ProductService.cpp:37-65 | updating keeps the tables well formed |
| ProductService.UpdateNeverMovesStock | src/services/ProductService.cpp:37-65 | an update never changes any product's stock and logs no movement |
| ProductService.DeletedProduct | src/services/ProductService.cpp:67-86 | deleting keeps the tables well formed |
| ProductService.DeleteKeepsRow | src/services/ProductService.cpp:67-86 | a deleted product is still stored, inactive, with its stock |
| ProductService.LogStockMovement | src/services/ProductService.cpp:331-358 | the tables and result are those of `Logged` |
| ProductService.RegisterStockMovement | src/services/ProductService.cpp:123-205 | the tables and outcome are those of `Registered` |
| ProductService.AdjustStock | src/services/ProductService.cpp:207-225 | the tables and outcome are those of `Adjusted` |
| ProductService.CreateProduct | src/services/ProductService.cpp:12-35 | the tables, outcome and new id are those of `CreatedProduct`; the caller's product gets the id |
| ProductService.UpdateProduct | src/services/ProductService.cpp:37-65 | the tables and outcome are those of `UpdatedProduct` |
| ProductService.DeleteProduct | src/services/ProductService.cpp:67-86 | the tables and outcome are those of `DeletedProduct` |
| SalesService.ItemProblem | src/services/SalesService.cpp:179-190 | no problem exactly when every line has a positive quantity and a price that is not negative; otherwise the problem of the first bad line, all lines before it being fine |
| SalesService.ValidateSale | src/services/SalesService.cpp:167-193 | no failure exactly when the sale has lines, a positive total and only good lines; "no items" is reported exactly for an empty sale, "total not positive" exactly for a non-empty sale whose total is not positive |
| SalesService.ValidationPrecedesTotals | src/services/SalesService.cpp:15-30 | validation reads the total the caller gives, before it is recomputed: a sale whose lines sum to 0 passes when its stated total is positive |
| SalesService.ValidationMatchesIsValid | src/models/Sale.h:59-61 | Sale::isValid holds exactly when the sale has an invoice number and validateSale reports neither "no items" nor "total not positive"; a sale validateSale accepts is valid once it has an invoice number; after createSale numbers it and recomputes its totals it is valid exactly when the recomputed total is positive |
| SalesService.MovedStockWellFormed | src/services/SalesService.cpp:195-241 | moving stock keeps the tables well formed, however far it gets |
| SalesService.MovedStockStep | src/services/SalesService.cpp:199-213 | the loop registers the first line, stops with that product's name and cause when it fails, and otherwise goes on with the rest |
| SalesService.MovementSign | src/services/SalesService.cpp:199-237 | VENTA takes the quantity out of stock and DEVOLUCION_VENTA puts it back |
| SalesService.MovedStockEffect | src/services/SalesService.cpp:195-241 | when every line goes through, each product's stock moves by the total quantity of its lines, one ledger row is added per line, and sales are untouched |
| SalesService.LineMoved | src/services/SalesService.cpp:202-209 | one successful line moves its product's stock by its quantity and appends one ledger row |
| SalesService.StockComposes | src/services/SalesService.cpp:199-214 | the first line's move followed by the others' moves is the move of all the lines |
| SalesService.QuantityOfSameLines | src/services/SalesService.cpp:219-241 | lines with the same products and quantities move every product by the same amount |
| SalesService.StockMovedStage | src/services/SalesService.cpp:15-47 | up to the stock update, a refusal leaves the tables and the transaction state as they were; readiness means the sale was valid, was prepared, and the open transaction holds the tables from before it |
| SalesService.AsWrittenNeverSaves | src/services/SalesService.cpp:33-58 | as written, createSale never stores a sale: the repository's own BEGIN meets the open transaction, and the rollback leaves the tables as before |
| SalesService.AsWrittenRefusesWhatCorrectedStores | src/services/SalesService.cpp:51-58 | every sale the corrected createSale stores, the code as written refuses with "Error guardando la venta" |
| SalesService.CreateSaleAllOrNothing | src/services/SalesService.cpp:33-68 | (corrected) a refused sale leaves the tables as they were; a stored one has all its stock moves and its rows; no transaction is left open |
| SalesService.CreatedSaleWellFormed | src/services/SalesService.cpp:11-74 | createSale keeps the connection well formed |
| SalesService.PreparedShape | src/services/SalesService.cpp:23-30 | the prepared sale keeps the lines and status, takes the caller's invoice number or else the next one of the day, and has total = sum of line subtotals + tax − discount |
| SalesService.CreatedSaleOk | src/services/SalesService.cpp:33-73 | a stored sale went through every step: all stock moved, the rows were inserted, the commit succeeded |
| SalesService.CreateSaleEffect | src/services/SalesService.cpp:23-73 | a stored sale has the caller's or the generated invoice number and recomputed totals, and reads back with its lines and status |
| SalesService.CreateSaleMovesStock | src/services/SalesService.cpp:42-58 | a stored sale lowers each product's stock by its quantity sold, adds one ledger row per line and one sale header |
| SalesService.CancelSaleAllOrNothing | src/services/SalesService.cpp:76-118 | an unknown sale fails with "Venta no encontrada" and a cancelled one with "La venta ya está cancelada", both before BEGIN and without change; any later failure rolls back; no transaction is left open |
| SalesService.CancelledSaleWellFormed | src/services/SalesService.cpp:76-118 | cancelSale keeps the connection well formed |
| SalesService.CancelSaleEffect | src/services/SalesService.cpp:90-117 | a cancelled sale gives back each line's quantity, adds one ledger row per line and reads back CANCELLED and otherwise unchanged |
| SalesService.SellThenReturn | src/services/SalesService.cpp:195-241 | taking out the quantities of some lines and putting back those of the same lines restores every product |
| SalesService.CreateThenCancelRestoresStock | src/services/SalesService.cpp:11-118 | a stored sale that is then cancelled leaves every product exactly as before, with two ledger rows per line, and the sale reads back CANCELLED |
| SalesService.StoredLines | src/repositories/SaleRepository.cpp:54-70 | the stored sale's lines carry the caller's products and quantities, in order |
| SalesService.MoveStock | src/services/SalesService.cpp:195-241 | the loop leaves the tables and the failure of `MovedStock` |
| SalesService.MoveStockForSale | src/services/SalesService.cpp:15-47 | the connection reaches the stage of `StockMovedForSale` |
| SalesService.CreateSaleAsWritten | src/services/SalesService.cpp:11-74 | the result, connection and sale are those of `CreatedSaleAsWritten` |
| SalesService.CreateSale | src/services/SalesService.cpp:11-74 | the result, connection and sale are those of the corrected `CreatedSale` |
| SalesService.CancelSale | src/services/SalesService.cpp:76-118 | the result and connection are those of `CancelledSale` |
| SalesCart.LineOf | src/viewmodels/SalesCartViewModel.cpp:83-94 | the index found is that of the first line for the product, or the cart's length when no line has it |
| SalesCart.InCart | src/viewmodels/SalesCartViewModel.cpp:234-243 | the quantity already in the cart is that of the product's line, or zero when it has none |
| SalesCart.NewLine | src/viewmodels/SalesCartViewModel.cpp:96-116 | a new line carries the product, name, quantity and price given and a subtotal of quantity times price |
| SalesCart.RemoveEffect | src/viewmodels/SalesCartViewModel.cpp:119-135 | removing a line shifts the later lines down by one, keeps the earlier ones, and forgets only that product's maximum |
| SalesCart.RemoveKeepsWellKept | src/viewmodels/SalesCartViewModel.cpp:119-135 | removing a line keeps one line per product, a maximum for exactly the products on a line, and every subtotal up to date |
| SalesCart.QuantitySetEffect | src/viewmodels/SalesCartViewModel.cpp:137-160 | an index outside the cart changes nothing; a quantity above the line's maximum is refused with a stock error; zero or less removes the line; otherwise only that line's quantity and subtotal change |
| SalesCart.QuantitySetKeepsWellKept | src/viewmodels/SalesCartViewModel.cpp:137-160 | setting a quantity keeps the cart's invariant |
| SalesCart.SetKeepsWellKept | src/viewmodels/SalesCartViewModel.cpp:150-159 | an accepted positive quantity keeps the cart's invariant |
| SalesCart.AddNewProduct | src/viewmodels/SalesCartViewModel.cpp:96-116 | a product without a line is refused above the caller's maximum; otherwise it is appended after the unchanged lines with the maximum recorded |
| SalesCart.AppendKeepsWellKept | src/viewmodels/SalesCartViewModel.cpp:96-116 | appending an accepted new product keeps the cart's invariant |
| SalesCart.AddExistingProduct | src/viewmodels/SalesCartViewModel.cpp:83-94 | a product already on a line is never appended: the summed quantity is refused above the caller's maximum, and otherwise only that line's quantity becomes the sum |
| SalesCart.AddKeepsWellKept | src/viewmodels/SalesCartViewModel.cpp:78-117 | adding an item keeps the cart's invariant in every case |
| SalesCart.EmptyLinesEmptyCart | src/viewmodels/SalesCartViewModel.cpp:162-174 | a well-kept cart with no lines holds no maxima either |
| SalesCart.StockProblem | src/viewmodels/SalesCartViewModel.cpp:329-342 | there is no problem exactly when the product is active and its stock covers the quantity, and an inactive product is reported as such |
| SalesCart.AddByIdOutcomes | src/viewmodels/SalesCartViewModel.cpp:219-257 | an unknown id is reported not found and a product failing the stock check is refused, both with the cart unchanged; a valid product is added, a new one with its sale price and whole stock as maximum |
| SalesCart.AddByIdKeepsWellKept | src/viewmodels/SalesCartViewModel.cpp:219-257 | adding by id keeps the cart's invariant |
| SalesCart.AddByIdCountsCartTwice | src/viewmodels/SalesCartViewModel.cpp:234-256 | for a product already in the cart the quantity on its line is counted twice against the stock, and a refused addition is still reported as added |
| SalesCart.SearchPrefersBarcode | src/viewmodels/SalesCartViewModel.cpp:196-217 | an empty code finds nothing; a barcode match wins over a SKU match; a code matching neither is reported not found with the cart unchanged |
| SalesCart.SaleFromCartShape | src/viewmodels/SalesCartViewModel.cpp:264-285 | the sale built from the cart has its lines, customer, payment method and discount, no tax, and a total of the subtotals less the discount that recomputing keeps |
| SalesCart.ProcessSaleClearsOnlyOnSuccess | src/viewmodels/SalesCartViewModel.cpp:259-295 | with the corrected createSale: an empty cart is refused with nothing touched; a failed sale keeps the cart and leaves the tables as they were; a stored sale records its invoice number and empties the cart |
| SalesCart.ProcessSaleAsWrittenKeepsCart | src/viewmodels/SalesCartViewModel.cpp:259-295 | with createSale as written, processSale never completes a sale: a non-empty cart ends in SaleFailed, and the cart, last invoice number and tables stay as they were |
| SalesCart.CartItemModel.constructor | src/viewmodels/SalesCartViewModel.cpp:8-11 | a new cart is empty and well kept |
| SalesCart.CartItemModel.RowCount | src/viewmodels/SalesCartViewModel.cpp:13-18 | the row count is the number of lines |
| SalesCart.CartItemModel.Subtotal | src/viewmodels/SalesCartViewModel.cpp:63-70 | the loop sums the line subtotals |
| SalesCart.CartItemModel.Total | src/viewmodels/SalesCartViewModel.cpp:72-76 | the total equals the sum of the line subtotals |
| SalesCart.CartItemModel.RemoveItem | src/viewmodels/SalesCartViewModel.cpp:119-135 | the new cart and signal are those of `RemovedAt`, and the invariant holds |
| SalesCart.CartItemModel.UpdateQuantity | src/viewmodels/SalesCartViewModel.cpp:137-160 | the new cart and signal are those of `QuantitySet`, and the invariant holds |
| SalesCart.CartItemModel.AddItem | src/viewmodels/SalesCartViewModel.cpp:78-117 | the new cart and signal are those of `ItemAddedTo`, and the invariant holds |
| SalesCart.CartItemModel.Clear | src/viewmodels/SalesCartViewModel.cpp:162-174 | the cart is empty afterwards |
| SalesCart.SalesCartViewModel.constructor | src/viewmodels/SalesCartViewModel.cpp:187-192 | a new till has an empty cart and no last invoice number |
| SalesCart.SalesCartViewModel.AddProductById | src/viewmodels/SalesCartViewModel.cpp:219-257 | the outcome and the new cart are those of `AddedById` |
| SalesCart.SalesCartViewModel.SearchAndAddProduct | src/viewmodels/SalesCartViewModel.cpp:196-217 | the outcome and the new cart are those of `SearchedAndAdded` |
| SalesCart.SalesCartViewModel.ProcessSale | src/viewmodels/SalesCartViewModel.cpp:259-295 | the outcome, till and connection are those of `SaleProcessed` with createSale as written, so by `ProcessSaleAsWrittenKeepsCart` a non-empty cart is never cleared |
| SalesCart.SalesCartViewModel.CancelSale | src/viewmodels/SalesCartViewModel.cpp:297-300 | the cart is empty afterwards |
| BarcodeScanner.Cleared | src/utils/BarcodeScannerHandler.cpp:67-71 | a reset empties the buffer and stops the timer, keeping the enabled flag and the timeout |
| BarcodeScanner.DisabledIgnores | src/utils/BarcodeScannerHandler.cpp:34-36 | a disabled handler ignores every character and releases nothing |
| BarcodeScanner.TerminatorReleases | src/utils/BarcodeScannerHandler.cpp:38-45 | a carriage return or line feed releases the buffered code and resets, or does nothing when the buffer is empty |
| BarcodeScanner.OtherInputBuffers | src/utils/BarcodeScannerHandler.cpp:48-52 | any other input is appended to the buffer, releasing nothing; the restarted timer runs afterwards exactly when the interval is not negative |
| BarcodeScanner.ExpiryAfterInput | src/utils/BarcodeScannerHandler.cpp:48-65 | after buffered input the timer's expiry discards the partial code when the interval is not negative; with a negative interval no expiry comes and the input stays in the buffer |
| BarcodeScanner.SetEnabledEffect | src/utils/BarcodeScannerHandler.cpp:12-22 | the flag takes the new value; disabling an enabled handler discards the buffer and stops the timer; enabling keeps the buffer |
| BarcodeScanner.EveryCharacterAccounted | src/utils/BarcodeScannerHandler.cpp:32-53 | over any input, the released codes followed by the remaining buffer are exactly the old buffer followed by every non-terminator input, and no released code is empty |
| BarcodeScanner.Characters | src/utils/BarcodeScannerHandler.cpp:32-53 | a code typed one character at a time is a sequence of one-character inputs of the same length |
| BarcodeScanner.ScanRoundTrip | src/utils/BarcodeScannerHandler.cpp:32-53 | typing a code without line breaks and then a carriage return on an idle handler releases exactly that code and leaves the buffer empty |
| BarcodeScanner.BufferThrough | src/utils/BarcodeScannerHandler.cpp:48-52 | inputs without terminators release nothing and are appended to the buffer |
| BarcodeScanner.FedAppend | src/utils/BarcodeScannerHandler.cpp:32-53 | feeding two input runs one after the other is feeding their concatenation |
| BarcodeScanner.BarcodeScannerHandler.constructor | src/utils/BarcodeScannerHandler.cpp:4-10 | a new handler is enabled, with the default timeout, an empty buffer and the timer stopped |
| BarcodeScanner.BarcodeScannerHandler.Reset | src/utils/BarcodeScannerHandler.cpp:67-71 | the new state is `Cleared` of the old |
| BarcodeScanner.BarcodeScannerHandler.SetEnabled | src/utils/BarcodeScannerHandler.cpp:12-22 | a change is reported exactly when the value differs, and the new state is `EnabledSet` of the old |
| BarcodeScanner.BarcodeScannerHandler.SetTimeout | src/utils/BarcodeScannerHandler.cpp:24-30 | a change is reported exactly when the value differs, and only the timeout changes |
| BarcodeScanner.BarcodeScannerHandler.ProcessCharacter | src/utils/BarcodeScannerHandler.cpp:32-53 | the new state and the released code are those of `CharacterProcessed` |
| BarcodeScanner.BarcodeScannerHandler.SimulateScan | src/utils/BarcodeScannerHandler.cpp:55-59 | the code given is released unchanged |
| BarcodeScanner.BarcodeScannerHandler.OnTimeout | src/utils/BarcodeScannerHandler.cpp:61-65 | expiry of a running timer resets the handler; a stopped timer delivers no expiry and the state stays |
| ExcelImportService.DisplayNameKnown | src/services/ExcelImportService.cpp:223-253 | exactly the nine available fields have a label of their own; any other name is shown as it is |
| ExcelImportService.HeadersShape | src/services/ExcelImportService.cpp:30-37 | there is at most one header per column of the used range, each without surrounding white space |
| ExcelImportService.LoadExcelFile | src/services/ExcelImportService.cpp:18-40 | a file that does not load gives no columns; otherwise the columns are the trimmed non-empty header cells, left to right |
| ExcelImportService.ConvertIdempotent | src/services/ExcelImportService.cpp:330-344 | converting twice is converting once; a numeric field keeps the number the cell reads as, any other field becomes the trimmed text |
| ExcelImportService.RowReadHas | src/services/ExcelImportService.cpp:313-328 | the row read has a field exactly when some mapped column with a non-negative index carries that field name |
| ExcelImportService.RowReadValue | src/services/ExcelImportService.cpp:313-328 | a field's value is the converted cell of the last column read under that name |
| ExcelImportService.ValidateProductData | src/services/ExcelImportService.cpp:292-311 | a row is valid exactly when its trimmed name is non-empty and its sale price is not negative; a missing name is reported first, a negative price otherwise |
| ExcelImportService.MappedTexts | src/services/ExcelImportService.cpp:255-290 | name, SKU and barcode come trimmed from the row, and the description as it is, when a mapped column carries that field; otherwise they keep their starting value |
| ExcelImportService.MappedAmounts | src/services/ExcelImportService.cpp:276-283 | stock, minimum stock and both prices come from the row as numbers when a mapped column carries that field, and keep their starting value otherwise |
| ExcelImportService.MappedKeepsOthers | src/services/ExcelImportService.cpp:255-290 | the mapping changes no product field other than those eight |
| ExcelImportService.AppliedTexts | src/services/ExcelImportService.cpp:263-272 | one mapping sets the text field it names, and only when it is mapped |
| ExcelImportService.AppliedAmounts | src/services/ExcelImportService.cpp:276-283 | one mapping sets the amount it names, and only when it is mapped |
| ExcelImportService.UnhandledNamesIgnored | src/services/ExcelImportService.cpp:273-286 | mappings naming only "category" or unknown fields give the blank active product |
| ExcelImportService.MapRow | src/services/ExcelImportService.cpp:255-290 | the loop's product is `MapRowToProduct` of the row |
| ExcelImportService.GetPreview | src/services/ExcelImportService.cpp:42-69 | a file that does not load is flagged with no rows; otherwise the total excludes the header, and the preview holds the first rows from sheet row 2, at most maxRows of them |
| ExcelImportService.ProgressBounds | src/services/ExcelImportService.cpp:95 | the percentage announced stays within 0 to 100, never goes down, and is 100 exactly at the last row |
| ExcelImportService.RowImported | src/services/ExcelImportService.cpp:99-124 | a row refused before the product service leaves the tables unchanged |
| ExcelImportService.ImportedSplit | src/services/ExcelImportService.cpp:93-125 | the rows imported so far followed by the rows still to come make the whole import |
| ExcelImportService.TallyCounts | src/services/ExcelImportService.cpp:104-124 | every row is counted once, as imported or failed, with one error per failed row; none fails exactly when every row succeeded |
| ExcelImportService.TallyErrors | src/services/ExcelImportService.cpp:106-123 | each error names a failed row and its problem, in row order |
| ExcelImportService.EmitProgress | src/services/ExcelImportService.cpp:95-97 | announcing a row adds its percentage after those announced before |
| ExcelImportService.PercentagesRise | src/services/ExcelImportService.cpp:93-97 | the per-row percentages stay within 0 to 100, never go down, and reach 100 exactly at the last row |
| ExcelImportService.ImportAccounting | src/services/ExcelImportService.cpp:71-132 | success means at least one product created; a file that does not load reports only that and changes nothing; otherwise imported plus failed rows is the row count, with one error per failed row |
| ExcelImportService.ImportProgress | src/services/ExcelImportService.cpp:91-128 | a loaded file announces 0, one percentage per row, then 100, never going down |
| ExcelImportService.ImportRow | src/services/ExcelImportService.cpp:99-124 | one row's tally and tables are those of `RowImported` |
| ExcelImportService.ImportedSoFarWellFormed | src/services/ExcelImportService.cpp:93-125 | importing rows keeps the tables well formed |
| ExcelImportService.ImportedFromFront | src/services/ExcelImportService.cpp:87-131 | the import of a loaded sheet is its rows from the start row, taken one after another |
| ExcelImportService.ImportProducts | src/services/ExcelImportService.cpp:71-132 | the result, announced percentages and tables are those of `Imported` |
| ExcelImportService.ImportRows | src/services/ExcelImportService.cpp:93-125 | the loop leaves the tally and tables of the rows taken in order, and announces `Percentages` |
| ExcelImportViewModel.AutoMapColumn | src/viewmodels/ExcelImportViewModel.cpp:226-250 | the proposed field is "ninguno" or one of the fields the screen offers |
| ExcelImportViewModel.AutoMapUnmapped | src/viewmodels/ExcelImportViewModel.cpp:226-250 | a header is left unmapped exactly when, lower-cased, it contains none of the rules' keywords |
| ExcelImportViewModel.ServiceField | src/services/ExcelImportService.cpp:276-283 | every field the screen offers has a name the import service handles |
| ExcelImportViewModel.ServiceMappings | src/services/ExcelImportService.cpp:276-283 | the corrected hand-over, which the program does not make: the screen's mappings entry for entry, with only the field name translated to the service's |
| ExcelImportViewModel.AutoMappedAmountIgnored | src/viewmodels/ExcelImportViewModel.cpp:237-244 | as written, a column auto-mapped to one of the four amounts is dropped by the import, which leaves the product blank |
| ExcelImportViewModel.PrecioColumnIgnored | src/viewmodels/ExcelImportViewModel.cpp:243-244 | as written, a header "Precio" is auto-mapped to the sale price and the import then reads a sale price of 0 |
| ExcelImportViewModel.PrecioIsSalePrice | src/viewmodels/ExcelImportViewModel.cpp:231-244 | a header "Precio" in any case matches no earlier rule and is auto-mapped to the sale price |
| ExcelImportViewModel.ServiceMappingReadsAmount | src/services/ExcelImportService.cpp:282-283 | under the service's names an auto-mapped sale-price column sets the product's sale price from the row |
| ExcelImportViewModel.MappingFor | src/viewmodels/ExcelImportViewModel.cpp:53-67 | a column's entry keeps its header and position and is mapped exactly when a field is proposed, to that field |
| ExcelImportViewModel.AutoMapped | src/viewmodels/ExcelImportViewModel.cpp:52-68 | the loop builds one auto-mapped entry per column, in column order |
| ExcelImportViewModel.InitialWellNumbered | src/viewmodels/ExcelImportViewModel.cpp:52-68 | each entry carries its own position as column index, and a mapped entry names a field while an unmapped one names none |
| ExcelImportViewModel.FirstWith | src/viewmodels/ExcelImportViewModel.cpp:83-93 | the search stops at the first entry for the column, or at the end when there is none |
| ExcelImportViewModel.RemappedEffect | src/viewmodels/ExcelImportViewModel.cpp:78-95 | only the first entry for the column changes: "" or "ninguno" unmaps it, any other name maps it; an unknown column changes nothing; numbering and coherence are kept |
| ExcelImportViewModel.MappingUpToKeys | src/viewmodels/ExcelImportViewModel.cpp:255-259 | the partial mapping's keys are the columns of the mapped entries seen so far |
| ExcelImportViewModel.MappingUpToValue | src/viewmodels/ExcelImportViewModel.cpp:255-259 | a column's value is the field of its last mapped entry seen so far |
| ExcelImportViewModel.CurrentMappingSpec | src/viewmodels/ExcelImportViewModel.cpp:252-261 | the mapping has a key for a column exactly when one of its entries is mapped, and the value is the field of the last such entry |
| ExcelImportViewModel.RemapThenRead | src/viewmodels/ExcelImportViewModel.cpp:78-95 | after remapping a column that has one entry, the current mapping shows the new field, or no key when it was unmapped |
| ExcelImportViewModel.HasFieldMappedName | src/viewmodels/ExcelImportViewModel.cpp:152-158 | the required-field check agrees with the field names the import service collects from the mapped entries |
| ExcelImportViewModel.ErrorTexts | src/viewmodels/ExcelImportViewModel.cpp:180-183 | there is one text per import error |
| ExcelImportViewModel.SummaryListsAtMostFive | src/viewmodels/ExcelImportViewModel.cpp:179-186 | the summary holds one bullet per error up to five, whatever the number of errors |
| ExcelImportViewModel.SummaryDependsOnFirstFive | src/viewmodels/ExcelImportViewModel.cpp:179-186 | errors past the fifth are only counted: two lists with the same length and first five give the same summary |
| ExcelImportViewModel.Summarize | src/viewmodels/ExcelImportViewModel.cpp:179-187 | the loop's message is `ErrorSummary` of the errors |
| ExcelImportViewModel.LocalPathRestores | src/viewmodels/ExcelImportViewModel.cpp:35-38 | putting "file:///" back in front of the local path gives the URL; a path without it is kept as it is |
| ExcelImportViewModel.ImportEndsAtHundred | src/viewmodels/ExcelImportViewModel.cpp:263-268 | a loaded workbook's import leaves the screen's progress at 100 |
| ExcelImportViewModel.ImportScreen.constructor | src/viewmodels/ExcelImportViewModel.cpp:4-11 | a new screen has no file, columns, mappings, preview, error or progress |
| ExcelImportViewModel.ImportScreen.LoadFile | src/viewmodels/ExcelImportViewModel.cpp:27-76 | the local path is kept; the columns are the workbook's headers; with none the error is set and the old mappings stay, otherwise every column gets its auto-mapped entry |
| ExcelImportViewModel.ImportScreen.SetColumnMapping | src/viewmodels/ExcelImportViewModel.cpp:78-95 | the mappings become `Remapped` of the old ones and nothing else changes |
| ExcelImportViewModel.ImportScreen.GetCurrentMapping | src/viewmodels/ExcelImportViewModel.cpp:252-261 | the loop's map is `CurrentMapping` of the entries |
| ExcelImportViewModel.ImportScreen.LoadPreview | src/viewmodels/ExcelImportViewModel.cpp:97-142 | the old preview is dropped; without a file or with a workbook that does not load the error says so; otherwise the row count and the first rows come from the service |
| ExcelImportViewModel.ImportScreen.RequiredFields | src/viewmodels/ExcelImportViewModel.cpp:152-158 | each flag is set exactly when some mapped entry names that field |
| ExcelImportViewModel.ImportScreen.StartImport | src/viewmodels/ExcelImportViewModel.cpp:144-193 | without a file, or without name and SKU mapped, only the message changes; otherwise the tables and progress are those of the import run with the screen's mappings as they are (camel-case amount names, which the service drops), and the errors are summarised when nothing was imported |
| ExcelImportViewModel.ImportScreen.RunImport | src/viewmodels/ExcelImportViewModel.cpp:165-192 | the tables, progress and message are those of the import with the header row skipped and the screen's mappings handed over untranslated |
| ExcelImportViewModel.ImportScreen.Clear | src/viewmodels/ExcelImportViewModel.cpp:195-207 | the file, columns, mappings, counters and message are cleared and the preview is kept |
| ExcelImportViewModel.ImportScreen.ResetImport | src/viewmodels/ExcelImportViewModel.cpp:209-224 | as clear, and the preview rows go too |
| ExcelImportViewModel.ImportScreen.OnImportProgress | src/viewmodels/ExcelImportViewModel.cpp:263-268 | the percentage announced becomes the screen's and nothing else changes |
| ProductListModel.AsMap | src/viewmodels/ProductListModel.cpp:301-318 | a product's map is never empty |
| ProductListModel.FormMessage | src/viewmodels/ProductListModel.cpp:242-271 | every validation problem has a message |
| ProductListModel.FirstProblem | src/viewmodels/ProductListModel.cpp:242-271 | the form is valid exactly when no problem is found, and each problem is reported exactly when every earlier check passes and its own fails: missing name, missing SKU, sale price not above 0, negative stock, negative purchase price |
| ProductListModel.ValidateProductData | src/viewmodels/ProductListModel.cpp:242-271 | the message is empty exactly when the form is valid, and is otherwise that of the first problem |
| ProductListModel.SalePriceMustBePositive | src/viewmodels/ProductListModel.cpp:255-258 | a form with name and SKU but no sale price, or a sale price of 0, is refused for its sale price |
| ProductListModel.MergeKeepsMissing | src/viewmodels/ProductListModel.cpp:201-210 | the edit keeps the id, image, category name and active flag; every field missing from the form keeps its current value; every text comes out trimmed |
| ProductListModel.MergeOwnMap | src/viewmodels/ProductListModel.cpp:201-210 | saving the edit form unchanged gives the stored product back |
| ProductListModel.NewFromOwnMap | src/viewmodels/ProductListModel.cpp:151-161 | adding from another product's map copies its texts and numbers, and the new product is active, with no id, image or category name |
| ProductListModel.ValidFormMeetsServiceChecks | src/viewmodels/ProductListModel.cpp:139-172 | a form that passes validation is never refused by the service for its name, sale price or purchase price |
| ProductListModel.FieldInMap | src/viewmodels/ProductListModel.cpp:16-51 | every role answered by `data` shows the same value the product's map holds under that role's key |
| ProductListModel.ForEdit | src/viewmodels/ProductListModel.cpp:273-291 | the map is empty exactly when the product is neither listed nor stored |
| ProductListModel.ListedFirst | src/viewmodels/ProductListModel.cpp:276-280 | a listed product is answered from the list, by its first entry, whatever the tables hold |
| ProductListModel.ProductList.constructor | src/viewmodels/ProductListModel.cpp:5-8 | a new list is empty and not loading |
| ProductListModel.ProductList.Data | src/viewmodels/ProductListModel.cpp:16-51 | there is no value exactly for a row outside the list or an unknown role; otherwise the value is the product's field for the role |
| ProductListModel.ProductList.GetProduct | src/viewmodels/ProductListModel.cpp:131-137 | the map is empty exactly for an index outside the list, and is otherwise that product's map |
| ProductListModel.ProductList.LoadProducts | src/viewmodels/ProductListModel.cpp:71-84 | the list becomes the active products |
| ProductListModel.ProductList.SearchProducts | src/viewmodels/ProductListModel.cpp:86-99 | the list becomes the products matching the search |
| ProductListModel.ProductList.FilterByCategory | src/viewmodels/ProductListModel.cpp:101-114 | the list becomes the category's products |
| ProductListModel.ProductList.FilterLowStock | src/viewmodels/ProductListModel.cpp:116-129 | the list becomes the low-stock products |
| ProductListModel.ProductList.AddProduct | src/viewmodels/ProductListModel.cpp:139-172 | an invalid form changes nothing and reports its problem; otherwise the service creates the product built from the form, and the list is reloaded exactly when it succeeds |
| ProductListModel.ProductList.UpdateProduct | src/viewmodels/ProductListModel.cpp:174-223 | an invalid form or an unknown id changes nothing and says why; otherwise the stored product merged with the form is handed to the service, and the list is reloaded exactly when it succeeds |
| ProductListModel.ProductList.DeleteProduct | src/viewmodels/ProductListModel.cpp:225-240 | the tables are those the service's delete leaves, and the list is reloaded exactly when it succeeds |
| ProductListModel.ProductList.GetProductForEdit | src/viewmodels/ProductListModel.cpp:273-291 | the loop's answer is `ForEdit`: the listed product first, then the stored one, else an empty map |
| ReportsViewModel.WeekStart | src/viewmodels/ReportsViewModel.cpp:50 | the start of the week is a valid date |
| ReportsViewModel.QuickPeriod | src/viewmodels/ReportsViewModel.cpp:39-74 | every quick period that is recognised has valid start and end dates |
| ReportsViewModel.WeekHoldsToday | src/viewmodels/ReportsViewModel.cpp:48-52 | "week" runs from a Monday to the Sunday six days later, and today falls within it |
| ReportsViewModel.LastWeekIs | src/viewmodels/ReportsViewModel.cpp:63-68 | "lastWeek" is a weekly period from the Monday seven days before this week's to six days later |
| ReportsViewModel.WeekBefore | src/viewmodels/ReportsViewModel.cpp:65-67 | that Monday is seven days before this week's start, and its Sunday is the day before this week's start |
| ReportsViewModel.LastWeekBeforeThisWeek | src/viewmodels/ReportsViewModel.cpp:63-68 | "lastWeek" runs from the Monday to the Sunday of the week just before the current one |
| ReportsViewModel.MonthHoldsToday | src/viewmodels/ReportsViewModel.cpp:53-57 | "month" runs from the first to the last day of today's month, and today falls within it |
| ReportsViewModel.LastMonthBeforeThisMonth | src/viewmodels/ReportsViewModel.cpp:69-74 | "lastMonth" is one whole month whose last day is followed by the first of today's month |
| ReportsViewModel.YearHoldsToday | src/viewmodels/ReportsViewModel.cpp:58-62 | "year" spans 365 days, or 366 in a leap year, and today falls within it |
| ReportsViewModel.PreviousPeriod | src/viewmodels/ReportsViewModel.cpp:154-157 | the previous period's dates are valid |
| ReportsViewModel.PreviousPeriodAdjoins | src/viewmodels/ReportsViewModel.cpp:154-157 | the previous period is as long as the current one and ends the day before it starts |
| ReportsViewModel.Growth | src/viewmodels/ReportsViewModel.cpp:161-164 | with no earlier sales the growth is 0; otherwise it is the percentage change, positive exactly when sales rose and 0 exactly when they stayed the same |
| ReportsViewModel.SummaryFigures | src/viewmodels/ReportsViewModel.cpp:130-169 | the summary carries the period's total sales, the average ticket times the transaction count gives that total, and the growth compares it with the adjoining earlier period |
| ReportsViewModel.ReportScreen.constructor | src/viewmodels/ReportsViewModel.cpp:5-12 | a new screen shows a daily report for today, with no figures yet |
| ReportsViewModel.ReportScreen.LoadReport | src/viewmodels/ReportsViewModel.cpp:83-95 | the summary becomes `SummaryOf` the period, and the period is unchanged |
| ReportsViewModel.ReportScreen.SetPeriodType | src/viewmodels/ReportsViewModel.cpp:14-21 | the type takes the new name; the report is reloaded only when the name changed |
| ReportsViewModel.ReportScreen.SetStartDate | src/viewmodels/ReportsViewModel.cpp:23-29 | only the start date changes, and the report is not reloaded |
| ReportsViewModel.ReportScreen.SetEndDate | src/viewmodels/ReportsViewModel.cpp:31-37 | only the end date changes, and the report is not reloaded |
| ReportsViewModel.ReportScreen.SetQuickPeriod | src/viewmodels/ReportsViewModel.cpp:39-81 | a recognised period sets the type and dates as `QuickPeriod` says, any other name keeps them; the report is reloaded either way |
| Calendar.DaysInMonth | src/viewmodels/ReportsViewModel.cpp:56 | a month has 28 to 31 days, and February has 29 exactly in a leap year |
| Calendar.YearLength | src/viewmodels/ReportsViewModel.cpp:58-62 | a year has 366 days exactly when it is a leap year, and 365 otherwise |
| Calendar.NextNumber | src/viewmodels/ReportsViewModel.cpp:50-51 | the next day is numbered one more |
| Calendar.PrevNumber | src/viewmodels/ReportsViewModel.cpp:65 | the previous day is numbered one less |
| Calendar.AddDaysNumber | src/viewmodels/ReportsViewModel.cpp:50-67 | adding n days moves the day number by exactly n, in either direction |
| Calendar.WeekdayShift | src/viewmodels/ReportsViewModel.cpp:65 | dates a whole number of weeks apart fall on the same weekday |
| Calendar.MondayOf | src/viewmodels/ReportsViewModel.cpp:50-51 | stepping back to day 1 of the week lands on a Monday, and six days later is a Sunday |
| Calendar.AddMonths | src/viewmodels/ReportsViewModel.cpp:71 | adding months moves the month count by exactly n and keeps the day, cut to the length of the new month |
| Calendar.FirstOfMonth | src/viewmodels/ReportsViewModel.cpp:55 | the first of the month is day 1 of the same month and year |
| Calendar.LastOfMonth | src/viewmodels/ReportsViewModel.cpp:56 | the last of the month is in the same month and is followed by a first of the month |
| Calendar.MonthBounds | src/viewmodels/ReportsViewModel.cpp:53-57 | every date lies between the first and the last of its month |
| Common.Trim | src/services/ExcelImportService.cpp:35 | trimming never lengthens a text and leaves no white space at either end |
| Common.ToLower | src/viewmodels/ExcelImportViewModel.cpp:228 | in this model (ASCII and the Latin-1 capitals only) lower-casing maps each character on its own, so it keeps the length, and turns A to Z into a to z |
| Common.ToLowerIdempotent | src/viewmodels/ExcelImportViewModel.cpp:228 | lower-casing an already lower-cased text changes nothing |
| Common.Split | src/repositories/SaleRepository.cpp:205 | splitting gives at least one part, no part holds the separator, and joining the parts with it gives the text back |
| Common.ToInt | src/repositories/SaleRepository.cpp:207 | the number read always fits in a 32-bit int |
| Common.PadLeft | src/repositories/SaleRepository.cpp:211 | padding gives at least the width, ends with the text and fills the front with the fill character |
| Common.PercentChangeSign | src/viewmodels/ReportsViewModel.cpp:163 | a percentage change over a positive base scales back to the difference times 100, and is positive or zero exactly when the difference is |
| Calendar.AddDays | src/viewmodels/ReportsViewModel.cpp:50-51 | adding days to a valid date gives a valid date |
| Calendar.DayOfWeek | src/viewmodels/ReportsViewModel.cpp:50 | the weekday is a number from 1 (Monday) to 7 (Sunday) |
| Common.PaddedRoundTrip | src/repositories/SaleRepository.cpp:206-211 | a sequence number written with at least four digits, zero-padded, reads back as the same number |
| Common.SplitTwo | src/repositories/SaleRepository.cpp:205-206 | splitting "prefix-sequence" at the dash gives back the two parts when neither holds a dash |
| Common.TrimIdempotent | src/services/ExcelImportService.cpp:343 | trimming twice is trimming once |

## Left out

- SQL itself, the SQLite connection, the schema, migrations, sample data and the mutex of `DatabaseManager`: the tables are in-memory sequences, and a failing statement is named in the connection's `failing` set.
- Row mapping from query results (`mapFromQuery`, `loadSaleItems`): rows are read straight from the in-memory tables.
- The joins that fill `categoryName`, `customerName` and `paymentMethodName` on reads: these names are carried as stored. The category, customer and payment-method tables are present only through the ids their foreign keys accept: the three categories and five payment methods the first migration seeds, and no customer, since no part of the program inserts one.
- `SaleRepository` finders and reports outside the core (`findById` is kept; `findByInvoiceNumber`, `findByDateRange`, `findToday`, `getStatsForDate`, `getTopProducts`, `getDailySalesInRange`): they are SQL filters with no logic of their own beyond the range statistics that are modelled.
- The report screen's `getTopProducts` list, `loadSalesHistory`, `getChartData` and `exportToPdf`: the last is an unwritten placeholder and the others only copy query results into view lists.
- The import templates (`saveTemplate`, `loadTemplate`, `getTemplates`, `deleteTemplate`): JSON serialisation and database I/O.
- Reading the workbook through QXlsx: a file is a map from path to a sheet of cells, and a path missing from the map is a file that does not load.
- `CellNumber` and `CellText` stand for QVariant's `toDouble` and `toString`; the text Qt renders for a number is carried in the cell, not computed.
- `ProductListModel.AsText`: the shortest decimal text Qt gives a fractional number is not modelled; a fractional number where the form expects text reads as empty text.
- `Common.ToInt`: QString's `toInt` is modelled for optional signs and decimal digits within the 32-bit range; other bases and locale forms are not.
- `roleNames` and the `QAbstractListModel` reset notifications: presentation only.
- Qt signals and property notifications: each view-model method returns the notice or outcome it would signal instead; signal payloads that only repeat the new id (`productAdded`, `productUpdated`, `productDeleted`) are not carried.
- `getProductInfo` and the cart's display-only members declared in its header: they only copy fields for the screen.
- `filterByCategoryName` and the other members declared without code in the headers: there is nothing to model.
- Failed reads: a SELECT never fails in the model, so the branches that handle a failed query are not modelled. These are the lookups by id, SKU and barcode (src/repositories/ProductRepository.cpp:99-101, 122-124, 145-147); the sale lookup, the invoice-number query and the item loading (src/repositories/SaleRepository.cpp:94-96, 195-197, 274-276); and the movement-type queries (src/services/ProductService.cpp:154-158, 366-370). In the program a failed SELECT answers as an absent row, an empty list or "Error obteniendo tipo de movimiento". For example, cancelSale of an existing sale would end in "Venta no encontrada"; the model cannot produce that outcome.
- The QTimer of the barcode scanner: its expiry is the explicit `OnTimeout` event and its running state a boolean; time itself is not modelled, so the model does not say when a running timer expires, and `start` with a negative interval is modelled only by its outcome, a stopped timer.
- Floating point: amounts are `real`, so rounding and the `'f', 2` formatting of the "Stock insuficiente" messages are not modelled; the message text is the fixed part only, and the stock and quantity travel in the failure value.
- ProductRepository.SearchByName: the term is bound into `LIKE '%term%'` without escaping, so `%` and `_` in it are wildcards in the program; the model matches them literally.
- Common.ToReal: QString's `toDouble` also reads exponents ("1e3"), `inf` and `nan`; the model reads only optional signs with decimal digits and a point, and gives 0 for the rest.
- Common.Trim: white space is Latin-1 white space only; the other Unicode spaces QChar::isSpace knows (U+2000 to U+200A, U+3000 and the like) are not trimmed.
- Common.ToLower: only ASCII capitals and the Latin-1 capitals U+00C0 to U+00DE (without U+00D7) are lowered; QString::toLower covers all of Unicode, where for example the Kelvin sign U+212A becomes "k" and U+0130 becomes two characters, so the length is not always kept there.
- Calendar.Valid: year 0 is accepted and earlier years are counted astronomically, while QDate's proleptic Gregorian calendar has no year 0; the program only handles current dates.
- `QDate::currentDate`: the date is a parameter fixed per connection or screen, and the difference between local and UTC dates in SQLite's `date('now')` is not modelled.
- Printing, PDF generation, the dashboard and the program's start-up: outside the modelled core.

## Findings

| source | as written | input that shows it | evidently intended | confidence | as-written member | corrected member |
|---|---|---|---|---|---|---|
| src/services/SalesService.cpp:33-58 with src/repositories/SaleRepository.cpp:13-16 | `createSale` opens a transaction, then `SaleRepository::create` opens another; the nested BEGIN fails, `create` returns 0 and the sale is refused with "Error guardando la venta" after rolling back the stock moves | any valid sale whose products all have enough stock | the sale's rows are written inside the service's transaction, and the sale is stored and committed | high; not executed | SalesService.AsWrittenNeverSaves | SalesService.CreateSaleAllOrNothing |
| src/viewmodels/ExcelImportViewModel.cpp:237-244 with src/services/ExcelImportService.cpp:276-283 | auto-mapping names amount columns `currentStock`, `minimumStock`, `purchasePrice`, `salePrice`, while `mapRowToProduct` only handles `stock`, `minimum_stock`, `purchase_price`, `sale_price`, so such columns are silently dropped | a sheet whose header row has "Nombre", "SKU" and "Precio", imported after auto-mapping: every product gets a sale price of 0 | the field names are translated to the service's names before the import, so an auto-mapped amount column sets its product field | high; not executed | ExcelImportViewModel.PrecioColumnIgnored | ExcelImportViewModel.ServiceMappingReadsAmount |
