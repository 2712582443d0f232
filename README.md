# smart-pos: the stock ledger and sale engine in Dafny

This project models the back office of the smart-pos point-of-sale system. It covers:

- the product catalogue;
- the inventory ledger, which derives stock by folding signed log entries;
- the sale and refund engine, which validates a cart against that stock, stores the sale and posts ledger entries;
- the request validators for sales and inventory logs;
- the three sales reports;
- two pieces of pure client logic: CSV export and the point-of-sale cart.

## Data and state

The database is a `class Database` (module `Store`) with three tables. Each table is a sequence in storage order:

- `products`;
- `inventoryLogs`;
- `sales`.

`Database.Valid()` collects the constraints the services rely on:

- product ids and barcodes are unique;
- sale ids and receipt numbers are unique;
- every log entry and every sale line refers to an existing product.

The services are module-level methods that take the database and `modifies` it:

- `InventoryService.CreateLog`;
- `ProductsService.Update` and `ProductsService.Remove`;
- `SalesService.Create` and `SalesService.Refund`.

Each of these methods keeps `Valid()` and states its whole new state. Read-only queries are functions over the table sequences. The report loops (`GetTopProducts`, `GetSalesByHour`) are methods proved equal to the functions that specify them.

Money is integer cents, quantities are `int`, and times are integer milliseconds. Everything that comes from the environment is a parameter of the operation that uses it:

- the clock;
- the UTC calendar date used in receipt numbers;
- the random base-36 text behind the receipt suffix;
- the id the database assigns to a new sale;
- the local time-zone offset;
- dates already parsed from query strings.

## What is proved

- **Ledger.** The fold is a signed sum. Its result does not depend on the order of the entries, and it ignores other products. Appending an entry changes only its own product's stock, by exactly its signed delta.
- **Sale and refund postings.** The SALE entry stores the negated line quantity, and the fold subtracts SALE entries. As coded, a sale therefore raises the folded stock by the quantity sold, and a sale followed by its refund raises it by twice that quantity. The model keeps this behaviour as written and proves it (see Findings).
- **Sale validation.** Lines are checked one by one, in input order, against the stock before the sale. A failure writes nothing. Duplicate lines for one product are not aggregated.
- **Refund of an unknown sale.** The sale lookup returns `null` for an unknown id. A refund of a missing sale therefore fails with a null dereference (`NullReference`), not a NotFound, and writes nothing.
- **Inventory paging.** Page p skips (p − 1)·limit entries. Page 0 or a negative page gives a negative skip, which the database client refuses before running the query (`InvalidQueryArgument`). Every other page holds exactly the matching entries at its positions in newest-first order.
- **Receipt numbers.** A receipt number is generated before validation and is never retried. Two sales on the same day with the same random suffix collide, and the model shows the insert is then refused by the unique constraint.

## Model

| member | source | states |
|---|---|---|
| Ledger.ParseAction | packages/shared/dist/types/inventory.d.ts:1-9 | a parsed action name is one of the seven action kinds and prints back to the same text |
| Ledger.ParseActionName | packages/shared/dist/types/inventory.d.ts:1-9 | every action kind parses back from its name |
| Ledger.SignedDelta | apps/api/src/inventory/inventory.service.ts:59-68 | an entry moves stock by exactly its quantity, in one direction or the other |
| Ledger.ReduceStep | apps/api/src/inventory/inventory.service.ts:59-68 | the string-compare reducer adds the entry's signed delta: +q for STOCK_IN, RETURN, TRANSFER_IN and ADJUSTMENT, −q for STOCK_OUT, SALE and TRANSFER_OUT |
| Ledger.ReduceIsSum | apps/api/src/inventory/inventory.service.ts:59-68 | the reduce from any start value is that value plus the sum of the signed deltas |
| Ledger.DeltaSumConcat | apps/api/src/inventory/inventory.service.ts:59-68 | the signed sum of a concatenation is the sum of the parts |
| Ledger.DeltaSumPermutation | apps/api/src/inventory/inventory.service.ts:55-68 | any reordering of the entries, the createdAt order included, gives the same stock |
| Ledger.ForProduct | apps/api/src/inventory/inventory.service.ts:54-57 | the `where productId` selection keeps exactly the entries of that product |
| Ledger.ForProductInOrder | apps/api/src/inventory/inventory.service.ts:54-57 | the `where productId` selection keeps the product's entries in ledger order |
| Ledger.ForProductCounts | apps/api/src/inventory/inventory.service.ts:54-57 | the selection keeps every copy of each of the product's entries and no copy of any other entry, so equal entries are never merged |
| Ledger.GetCurrentStock | apps/api/src/inventory/inventory.service.ts:53-69 | getCurrentStock (select the product's entries, sort by createdAt, reduce from 0) equals the reference stock StockOf |
| Ledger.StockOf | apps/api/src/inventory/inventory.service.ts:53-68 | a product with no entries in the ledger has stock 0 |
| Ledger.StockOfIsForProductSum | apps/api/src/inventory/inventory.service.ts:53-68 | the stock of a product is the signed sum of its own entries |
| Ledger.StockIgnoresOtherProducts | apps/api/src/inventory/inventory.service.ts:53-59 | other products' entries never affect a stock, and a product with no entries has stock 0 |
| Ledger.StockAfterAppend | apps/api/src/inventory/inventory.service.ts:59-68 | appending an entry changes its product's stock by exactly its signed delta and leaves every other product's stock unchanged |
| Ledger.StockOfConcat | apps/api/src/inventory/inventory.service.ts:59-68 | the stock over a concatenated ledger is the sum of the stocks over the parts |
| Sorting.SortBy | apps/api/src/inventory/inventory.service.ts:35 | the ordering used for every `orderBy`/`sort`: a permutation of the input, ordered by the key |
| Sorting.SortByKeepsDistinct | apps/api/src/reports/reports.service.ts:78-79 | sorting keeps entries distinct by product id |
| Sorting.SubsequenceSnoc | apps/api/src/inventory/inventory.service.ts:18-21 | one step of a `where`/`filter`: keeping or dropping the next row extends an order-preserving selection |
| Sorting.SubsequenceMembers | apps/api/src/inventory/inventory.service.ts:18-21 | a selection holds only rows of the table it was taken from |
| Sorting.SubsequenceByMembers | apps/api/src/reports/reports.service.ts:7-13 | from a table without duplicate rows (unique ids), an order-preserving selection is fixed by which rows it holds: each selected row appears once, in table order |
| Catalog.PatchChangesOnlyPresentFields | apps/api/src/products/products.service.ts:63-72 | an update sets name, barcode, price, isActive, trackInventory, description, cost, category, imageUrl and supplierId to the patch's value where present and keeps the stored value where absent; id and createdAt are always kept |
| Catalog.ApplyPatch | apps/api/src/products/products.service.ts:63-72 | an update never changes id or createdAt, and the empty patch changes nothing |
| Catalog.PatchIdempotent | apps/api/src/products/products.service.ts:63-72 | applying the same patch twice gives the same product as applying it once |
| Catalog.IndexOf | apps/api/src/products/products.service.ts:31-36 | the lookup finds a row with the requested id, and finds none exactly when no row has it |
| Catalog.FindOne | apps/api/src/products/products.service.ts:30-43 | findOne fails with NotFound(id) exactly when no product has the id; otherwise it returns that stored product |
| Catalog.Lower | apps/api/src/products/products.service.ts:12-13 | case folding keeps the length, leaves no letter A–Z in the result, and keeps every character that is not A–Z |
| Catalog.LowerIdempotent | apps/api/src/products/products.service.ts:12-13 | folding twice is folding once, so matching a pre-folded term gives the same answer as matching the raw term |
| Catalog.FilterQuery | apps/api/src/products/products.service.ts:8-19 | the rows kept are an order-preserving selection of the table, and a product is kept iff it is stored and matches the search (case-insensitive substring of name or barcode) and the exact category, with an empty term treated as absent |
| Catalog.FindAll | apps/api/src/products/products.service.ts:7-28 | findAll returns the filtered rows, each as often as the filter keeps it (same multiset), newest first |
| Catalog.FindAllHonoursFilters | apps/api/src/products/products.service.ts:10-19 | every product returned is stored, contains the search term in its name or barcode ignoring case, and has the requested category |
| Catalog.Categories | apps/api/src/products/products.service.ts:82-89 | the categories are distinct, never empty, and are exactly the non-empty categories of stored products |
| SaleRecords.ParsePaymentMethod | packages/shared/dist/types/sale.d.ts:1-7 | a parsed payment method is one of the five and prints back to the same text |
| SaleRecords.ParsePaymentMethodName | packages/shared/dist/types/sale.d.ts:1-7 | every payment method parses back from its name |
| SaleRecords.SaleIndex | apps/api/src/sales/sales.service.ts:139-141 | finds the row with the requested sale id, and finds none exactly when no row has it |
| SaleRecords.FindSale | apps/api/src/sales/sales.service.ts:139-157 | sale findOne returns None (null) exactly for an unknown id, otherwise the stored sale with that id |
| SaleDto.Validate | apps/api/src/sales/dto/create-sale.dto.ts:6-77 | a request passes iff every line has quantity ≥ 1 and unitPrice, discount and total ≥ 0, all six header amounts are ≥ 0, the payment method is one of the five, and items is present; the DTO then carries the same lines, subtotal, discount, tax, total, amount paid, change and notes |
| SaleDto.ValidateToRequest | apps/api/src/sales/dto/create-sale.dto.ts:32-77 | a DTO passes validation iff its bounds hold, and validation then gives the same DTO back |
| SaleDto.EmptyCartWithInconsistentTotalsAccepted | apps/api/src/sales/dto/create-sale.dto.ts:33-57 | an empty cart whose total does not equal subtotal − discount + tax still passes, because there is no minimum length and no cross-field rule |
| SaleDto.ZeroQuantityOrUnknownMethodRefused | apps/api/src/sales/dto/create-sale.dto.ts:6-61 | a line with quantity 0 or an unknown payment method is refused |
| InventoryLogDto.Validate | apps/api/src/inventory/dto/create-inventory-log.dto.ts:5-27 | a log request passes iff productId, quantity and a known action are present; notes and reference are optional and copied |
| InventoryLogDto.AnyQuantityAccepted | apps/api/src/inventory/dto/create-inventory-log.dto.ts:10-12 | every integer quantity, negative ones included, passes for every action |
| InventoryLogDto.MissingOrUnknownFieldsRefused | apps/api/src/inventory/dto/create-inventory-log.dto.ts:6-16 | a missing productId or quantity, or an unknown action, is refused |
| Receipt.Pad | apps/api/src/sales/sales.service.ts:225 | zero padding gives exactly `width` digits |
| Receipt.DigitsValuePad | apps/api/src/sales/sales.service.ts:225 | reading the padded digits back gives the number |
| Receipt.RemoveDashes | apps/api/src/sales/sales.service.ts:225 | the result holds no dash |
| Receipt.DateStamp | apps/api/src/sales/sales.service.ts:225 | removing the dashes from the ISO date gives the padded YYYY, MM and DD |
| Receipt.Substring | apps/api/src/sales/sales.service.ts:226 | JS substring never returns more than end − start characters |
| Receipt.ToUpper | apps/api/src/sales/sales.service.ts:226 | upper-casing keeps the length, leaves no letter a–z in the result, sends each a–z to a letter A–Z and keeps every other character |
| Receipt.RandomSuffix | apps/api/src/sales/sales.service.ts:226 | the suffix has at most 6 characters, all from [0-9A-Z] when the random text is lower-case base 36 |
| Receipt.GenerateReceiptNumber | apps/api/src/sales/sales.service.ts:223-228 | "RCP-", 8 digits, "-", then the suffix: 13 to 19 characters |
| Receipt.ReceiptDateRoundTrip | apps/api/src/sales/sales.service.ts:223-228 | the date read back from a receipt number is the UTC date it was made on |
| Receipt.SameDaySameSuffixCollide | apps/api/src/sales/sales.service.ts:223-228 | the same day and the same random suffix give the same receipt number: nothing makes them unique |
| Store.SaleConstraintsAfterRowUpdate | apps/api/src/sales/sales.service.ts:191-196 | updating a sale row without touching its id, receipt or items keeps the sale constraints |
| Store.FindSaleOfUnique | apps/api/src/sales/sales.service.ts:139-141 | with unique ids, finding a stored sale's id gives that row |
| Store.Database.constructor | packages/prisma/src/index.ts:10-14 | a fresh client starts with empty tables, which satisfy every constraint |
| InventoryService.CreateLog | apps/api/src/inventory/inventory.service.ts:7-14 | createLog appends exactly one entry carrying the request's product, quantity, action, notes and reference, stamped with the clock, and changes nothing else; an unknown product is refused by the foreign key with nothing written |
| InventoryService.FilterLogs | apps/api/src/inventory/inventory.service.ts:18-21 | an order-preserving selection of the ledger keeping exactly the entries matching the given product and action filters |
| InventoryService.FilterLogsCounts | apps/api/src/inventory/inventory.service.ts:18-39 | the filter keeps every copy of each matching entry and none of the others, so the total that `count()` reports counts repeated entries |
| InventoryService.CeilDiv | apps/api/src/inventory/inventory.service.ts:48 | `Math.ceil(total/limit)`: the least page count covering total |
| InventoryService.Window | apps/api/src/inventory/inventory.service.ts:36-37 | skip/take returns exactly min(limit, entries left after skip) entries, entry m being entry skip+m of the input, and none when skip passes the end |
| InventoryService.FindAll | apps/api/src/inventory/inventory.service.ts:16-51 | a page below 1 (a negative skip) fails with InvalidQueryArgument; otherwise the page holds exactly min(limit, total − skip) entries (none past the end), and the meta echoes page and limit, counts the filtered entries and reports ceil(total/limit) pages |
| InventoryService.PageEntriesMatch | apps/api/src/inventory/inventory.service.ts:16-38 | every entry on a returned page matches the filters |
| InventoryService.PagesTileMatches | apps/api/src/inventory/inventory.service.ts:17-48 | entry m of page p is the matching entry at position (p−1)·limit+m in newest-first order, and that page is within totalPages |
| InventoryService.GetStockLevels | apps/api/src/inventory/inventory.service.ts:71-97 | each level names a tracked, active product and carries that product's name and barcode and folded stock, echoes the threshold and has isLowStock iff stock ≤ threshold; with unique product ids there is one level per product |
| InventoryService.LevelsFromPrefix | apps/api/src/inventory/inventory.service.ts:72-90 | levels drawn from the earlier products still name products of the table, and with unique ids none of them is the next product |
| InventoryService.LevelsAppend | apps/api/src/inventory/inventory.service.ts:72-90 | appending the next product's level keeps every level drawn from the table and one level per product |
| InventoryService.StockLevelsCoverTrackedActive | apps/api/src/inventory/inventory.service.ts:72-77 | there is a level for a product iff it is tracked and active |
| InventoryService.OnlyLow | apps/api/src/inventory/inventory.service.ts:101 | the filter is an order-preserving subsequence holding exactly the low levels |
| InventoryService.GetLowStockProducts | apps/api/src/inventory/inventory.service.ts:99-102 | low-stock products are the order-preserving subsequence of the stock levels with stock ≤ threshold |
| ProductsService.UpdateRows | apps/api/src/products/products.service.ts:63-72 | NotFound iff the id is unknown; the only other error is the barcode clash; on success the row becomes the patched product, every other row is unchanged, and ids and barcodes stay unique |
| ProductsService.UpdateRefusedOnlyForClash | apps/api/src/products/products.service.ts:65-71 | a known product's update fails iff the new barcode belongs to another product |
| ProductsService.RemoveRows | apps/api/src/products/products.service.ts:74-80 | NotFound iff the id is unknown; otherwise the product is kept but inactive, and every other row is unchanged |
| ProductsService.RemoveIsDeactivatingUpdate | apps/api/src/products/products.service.ts:74-80 | remove is the update whose patch holds only isActive = false |
| ProductsService.RemoveIdempotent | apps/api/src/products/products.service.ts:74-80 | removing twice gives the same table as removing once |
| ProductsService.Update | apps/api/src/products/products.service.ts:63-72 | the stored table becomes UpdateRows' result, or stays unchanged on error; logs and sales are untouched and the store stays valid |
| ProductsService.Remove | apps/api/src/products/products.service.ts:74-80 | the stored table becomes RemoveRows' result, or stays unchanged on NotFound; logs and sales are untouched |
| SalesService.CheckLine | apps/api/src/sales/sales.service.ts:21-34 | a line passes iff its product exists, is active and, when tracked, has stock ≥ quantity; the failures are NotFound, ProductInactive(name) and InsufficientStock(name, stock, quantity) |
| SalesService.FirstFailing | apps/api/src/sales/sales.service.ts:20-35 | reports the first failing line in input order, and reports none iff every line passes |
| SalesService.UntrackedIgnoresLedger | apps/api/src/sales/sales.service.ts:27-28 | an untracked product's check never consults the ledger |
| SalesService.DuplicateLinesNotAggregated | apps/api/src/sales/sales.service.ts:20-35 | with stock 5, two lines of 3 for the same product both pass: each line is checked against the stock before the sale |
| SalesService.PostingEntry | apps/api/src/sales/sales.service.ts:81-87 | a SALE posting carries −quantity and a RETURN posting +quantity, both with the receipt as reference, and either one moves the folded stock by +quantity |
| SalesService.TrackedLines | apps/api/src/sales/sales.service.ts:78-80 | the lines that post are the order-preserving subsequence of tracked lines |
| SalesService.TrackedLinesCounts | apps/api/src/sales/sales.service.ts:78-80 | every copy of a tracked line posts and no copy of an untracked one: repeated identical lines are not merged |
| SalesService.Postings | apps/api/src/sales/sales.service.ts:78-89 | exactly one entry per tracked line, in line order |
| SalesService.StockAfterPostings | apps/api/src/sales/sales.service.ts:78-89 | as written, both a sale's and a refund's postings raise a tracked product's stock by its quantity in the lines |
| SalesService.SaleThenRefund | apps/api/src/sales/sales.service.ts:207-218 | as written, a sale followed by its refund raises the stock by twice the quantity sold |
| SalesService.SaleOfThirtyFromHundred | apps/api/src/sales/sales.service.ts:83-84 | selling 30 from a stock of 100 leaves 130 as written and 70 with the corrected entry |
| SalesService.IntendedSaleEntry | apps/api/src/sales/sales.service.ts:83-84 | the corrected SALE entry has signed delta −quantity |
| SalesService.IntendedSaleEntries | apps/api/src/sales/sales.service.ts:78-89 | one corrected entry per tracked line, entry k being the corrected entry of tracked line k |
| SalesService.StockAfterIntendedSale | apps/api/src/sales/sales.service.ts:78-89 | with the corrected entries, a sale lowers a tracked product's stock by the quantity sold |
| SalesService.IntendedSaleThenRefundNetZero | apps/api/src/sales/sales.service.ts:207-218 | with the corrected entries, a sale followed by its refund leaves every stock unchanged |
| SalesService.ValidateLines | apps/api/src/sales/sales.service.ts:20-35 | the validation loop writes nothing and returns the error of the first failing line, or none |
| SalesService.ValidateLine | apps/api/src/sales/sales.service.ts:21-34 | one line fails with not-found, inactive or insufficient stock exactly as the line check says, and passes otherwise |
| SalesService.PostNext | apps/api/src/sales/sales.service.ts:78-89 | one turn of the post loop extends the log by the postings of one more line |
| SalesService.PostLine | apps/api/src/sales/sales.service.ts:80-88 | posts one line's entry iff its product is tracked |
| SalesService.PostLines | apps/api/src/sales/sales.service.ts:78-89 | the post loop appends exactly the postings of the lines |
| SalesService.NewSale | apps/api/src/sales/sales.service.ts:37-59 | the stored sale carries back exactly the request's lines, amounts, payment method and notes, with the given id, receipt, cashier and clock, and status COMPLETED |
| SalesService.Create | apps/api/src/sales/sales.service.ts:15-92 | a failing line gives its error and writes nothing; a taken id or receipt is refused with nothing written; otherwise exactly one COMPLETED sale copied from the DTO is appended and the SALE postings follow it |
| SalesService.RefundNote | apps/api/src/sales/sales.service.ts:195 | the note is the reason when it is given and non-empty; a missing or empty reason gives "Refunded" |
| SalesService.RefundedSale | apps/api/src/sales/sales.service.ts:191-196 | the row gets status REFUNDED and the note, with every other field kept |
| SalesService.Refund | apps/api/src/sales/sales.service.ts:179-221 | unknown id gives NullReference; REFUNDED or CANCELLED gives BadRequest; each failure writes nothing; otherwise the row is replaced by the refunded row and one RETURN posting per tracked item is appended |
| SalesService.RefundTwice | apps/api/src/sales/sales.service.ts:182-184 | after a successful refund, a second refund fails "already refunded" and the ledger holds the first refund's returns only |
| ReportsService.Matching | apps/api/src/reports/reports.service.ts:7-13 | an order-preserving selection of the sales keeping exactly the COMPLETED sales within the inclusive date bounds that are given |
| ReportsService.Average | apps/api/src/reports/reports.service.ts:27-29 | 0 for no sales, else the value whose product with the count is the total |
| ReportsService.GetSalesSummary | apps/api/src/reports/reports.service.ts:6-40 | counts and sums the matching sales, averages them, and echoes the given dates or today |
| ReportsService.TallyIndex | apps/api/src/reports/reports.service.ts:67 | the map lookup finds the entry of that product, or none exactly when there is none |
| ReportsService.AddLineEffect | apps/api/src/reports/reports.service.ts:66-74 | adding a line bumps only its product's entry, or appends a fresh one, keeping ids distinct |
| ReportsService.AddLineKeys | apps/api/src/reports/reports.service.ts:66-74 | after adding a line, a product has an entry iff it had one before or is the line's product |
| ReportsService.AddLine | apps/api/src/reports/reports.service.ts:66-74 | adding a line either bumps an existing entry or adds exactly one new entry |
| ReportsService.TallyOf | apps/api/src/reports/reports.service.ts:62-76 | one entry per product with a line, with quantity and revenue summed over that product's lines |
| ReportsService.SliceTo | apps/api/src/reports/reports.service.ts:80 | JS `slice(0, limit)`: a prefix of the input, of length min(limit, n) for limit ≥ 0 and max(0, n + limit) for a negative limit |
| ReportsService.TopProductsProperties | apps/api/src/reports/reports.service.ts:42-81 | top products are distinct, carry the summed quantity and revenue, are ordered by non-increasing quantity, number exactly min(limit, products sold), and every sold product left off the list sold no more than any listed one |
| ReportsService.TopProducts | apps/api/src/reports/reports.service.ts:42-81 | at most limit entries, each one an entry of the tally of the matching sales |
| ReportsService.TallyEntriesExact | apps/api/src/reports/reports.service.ts:62-76 | every entry taken from the tally of some lines carries its product's summed units and revenue, and that product has a line |
| ReportsService.CutKeepsLargest | apps/api/src/reports/reports.service.ts:78-80 | cutting a list sorted by descending quantity keeps the largest: nothing cut sold more than anything kept |
| ReportsService.UnlistedSellNoMore | apps/api/src/reports/reports.service.ts:62-80 | a product with lines that is not in the top list sold no more than any listed product |
| ReportsService.TopProductsComplete | apps/api/src/reports/reports.service.ts:62-80 | when the limit admits every product, every sold product appears |
| ReportsService.Bump | apps/api/src/reports/reports.service.ts:66-74 | one step of the inner loop is AddLine |
| ReportsService.BumpAll | apps/api/src/reports/reports.service.ts:65-75 | the inner loop over one sale's items extends the map by exactly those items |
| ReportsService.GetTopProducts | apps/api/src/reports/reports.service.ts:42-81 | the nested loops compute TopProducts |
| ReportsService.HourOf | apps/api/src/reports/reports.service.ts:109 | the local hour is in 0..23 |
| ReportsService.TargetInItsDay | apps/api/src/reports/reports.service.ts:84-86 | the target lies in its local day, which spans exactly 24 hours |
| ReportsService.DaySales | apps/api/src/reports/reports.service.ts:88-100 | an order-preserving selection of the sales keeping exactly the COMPLETED sales of the target's local day |
| ReportsService.HourlyReport | apps/api/src/reports/reports.service.ts:102-112 | 24 buckets, bucket h for hour h |
| ReportsService.HourlyReportEmpty | apps/api/src/reports/reports.service.ts:102-106 | with no sales every bucket is (h, 0, 0) |
| ReportsService.HourlyAfterSale | apps/api/src/reports/reports.service.ts:108-112 | one more sale bumps its own hour's bucket only |
| ReportsService.TotalCountBump | apps/api/src/reports/reports.service.ts:110 | incrementing one bucket raises the total count by one |
| ReportsService.ZeroCounts | apps/api/src/reports/reports.service.ts:102-106 | zeroed buckets total zero |
| ReportsService.CountsSumToSales | apps/api/src/reports/reports.service.ts:108-112 | the bucket counts sum to the number of sales of the day |
| ReportsService.GetSalesByHour | apps/api/src/reports/reports.service.ts:83-115 | the bucket array loop computes HourlyReport of the day's sales |
| ReportsService.NonCompletedIgnored | apps/api/src/reports/reports.service.ts:88-95 | a sale that is not COMPLETED changes neither the summary/top-products selection nor the day's sales |
| CsvExport.EscapeQuotes | apps/web/src/app/reports/page.tsx:15 | doubling quotes never shortens and adds no newline |
| CsvExport.QuoteCell | apps/web/src/app/reports/page.tsx:15 | a cell is wrapped in double quotes and gains no newline |
| CsvExport.UnescapeEscape | apps/web/src/app/reports/page.tsx:15 | turning `""` back into `"` recovers the cell |
| CsvExport.QuoteCellRoundTrip | apps/web/src/app/reports/page.tsx:15 | stripping the quotes and unescaping returns the original cell, as in section 2 of RFC 4180 |
| CsvExport.SplitJoin | apps/web/src/app/reports/page.tsx:13-16 | splitting a join at a separator absent from the parts gives the parts back |
| CsvExport.QuoteRow | apps/web/src/app/reports/page.tsx:15 | a quoted row has one cell per input cell, each unquoting back to the original, and no newline when the input has none |
| CsvExport.CsvLineStructure | apps/web/src/app/reports/page.tsx:13-16 | with no newline in any cell, the content splits at `\n` into rows+1 lines: the header joined unquoted by commas, then each row's quoted cells joined by commas |
| CsvExport.CsvContent | apps/web/src/app/reports/page.tsx:13-16 | with no newline in the headers or any cell, splitting the content at `\n` gives back the header line and one line per row |
| CsvExport.ExportFilename | apps/web/src/app/reports/page.tsx:45 | prefix, then `-from-<dateFrom>` only when given, then `-to-<dateTo>` only when given, then `.csv` |
| CsvExport.Export | apps/web/src/app/reports/page.tsx:73-77 | an export with no rows produces nothing; otherwise it gives the filename and content that, without newlines in the cells, splits into one line more than there are rows |
| Cart.SetQuantity | apps/web/src/app/sales/page.tsx:39 | the map changes only that product's lines, to the given quantity or one more than before, and keeps every other line and the length |
| Cart.AddToCart | apps/web/src/app/sales/page.tsx:36-44 | a product in the cart goes through the +1 map: that line keeps its name, price and discount and gets quantity + 1 and the matching total; a new one appends (id, name, price, 1, 0, price); ids stay distinct |
| Cart.RemoveLine | apps/web/src/app/sales/page.tsx:47 | the filter is an order-preserving selection that removes exactly that product's lines |
| Cart.RemoveKeepsOrder | apps/web/src/app/sales/page.tsx:47 | the filter keeps the relative order of the remaining lines |
| Cart.UpdateQty | apps/web/src/app/sales/page.tsx:46-49 | qty ≤ 0 is the remove filter; qty > 0 is the quantity map, which sets quantity and total = qty × unitPrice on that line only and keeps its other fields; an absent id changes nothing; ids stay distinct |
| Cart.Subtotal | apps/web/src/app/sales/page.tsx:31 | a cart whose line totals are all non-negative has a non-negative subtotal |
| Cart.UnchangedWithoutId | apps/web/src/app/sales/page.tsx:39 | the increment map leaves a cart without the product unchanged |
| Cart.SubtotalAfterAdd | apps/web/src/app/sales/page.tsx:31 | adding a product raises the subtotal by one unit: by the product's price for a new line, by the line's stored unit price for a line already in the cart |
| Cart.SubtotalAfterIncrement | apps/web/src/app/sales/page.tsx:39 | the +1 on a line raises the subtotal by its unit price |
| Cart.WellFormedSubtotal | apps/web/src/app/sales/page.tsx:31 | a cart of non-negative lines has a non-negative subtotal |
| Cart.DisplayedChange | apps/web/src/app/sales/page.tsx:34 | the change shown is max(0, paid − total) |
| Cart.Checkout | apps/web/src/app/sales/page.tsx:51-58 | nothing is submitted for an empty cart or when cash paid < total; other methods pay exactly the total; the body carries one item per cart line in order, the subtotal, tax, total = subtotal + tax, discount 0 and change = paid − total |
| Cart.CheckoutPassesValidation | apps/web/src/app/sales/page.tsx:55-57 | what checkout submits from a well-formed cart with a known method passes the server's sale validation |

## Left out

- The supplier relation and the joined rows that Prisma `include` and `select` add to results (product, supplier and cashier fields). The results carry the stored rows only.
- The database schema is not part of this model. Unique ids, barcodes and receipt numbers, and the foreign keys from logs and sale lines to products, are inferred from `findUnique` and `include` in the services.
- SalesService.Create: the id the database assigns is a parameter. A collision with a stored id is refused as `UniqueViolation("id")`, the way a primary key would refuse it.
- Products `create` and `findByBarcode`, and sales `findAll` and `findByReceiptNumber`, are not modelled. They are plain inserts and lookups outside the named operations.
- Quantities are integers. `@IsNumber()` in create-sale.dto.ts and create-inventory-log.dto.ts also accepts fractional quantities, which the model does not represent.
- Floating point is not modelled: `toFixed(2)` rounding of line totals and change, the 12% client-side tax, and `Number(Decimal)`. Money is integer cents, and the tax is a parameter of checkout.
- ReportsService.Average: the float division is stated as the real number whose product with the count is the total; float rounding is not modelled.
- Dates are given already parsed: `new Date(text)`, `toISOString`, the clock and `Math.random` are parameters.
- ReportsService.HourOf: the local time zone is a fixed offset in milliseconds, so daylight-saving changes within a day are not modelled.
- Concurrency is not modelled. Each request runs alone, and `Promise.all` is a sequential map. The race between the stock read and the SALE append is out of scope.
- HTTP controllers, query-string parsing, auth, users, seeding, the permission table and all UI are not part of this model. This includes the chart data and the per-report row formatting in the reports page, and the Blob/URL/DOM download in `downloadCSV`.
- Sorting.SortBy: the order among equal keys is not stated. `Array.prototype.sort` is stable and Prisma leaves ties to the database, so the order of top products with equal units, and of rows with equal `createdAt`, is not promised.
- Catalog.FilterQuery: case folding covers A–Z only. The database's case-insensitive match also folds non-ASCII letters (ñ and Ñ, say), so a search term with such letters can match differently.
- InventoryService.FindAll: a limit below 1, and a page or limit that `parseInt` turns into NaN, are excluded by its requires. The source would compute an infinite or NaN page count and hand a zero or negative `take` to the database.
- The error messages of BadRequest are kept as structured reasons (product name, available and requested stock), not as rendered text.

## Findings

| source | as written | input that shows it | evidently intended | confidence | as-written member | corrected member |
|---|---|---|---|---|---|---|
| apps/api/src/sales/sales.service.ts:83-84 | the SALE entry stores `-item.quantity`, and the fold subtracts SALE quantities (inventory.service.ts:62-63), so a sale raises stock by the quantity sold and a refund raises it again | stock 100, sell 30 of a tracked product: the stock becomes 130, and after the refund 160 | the SALE entry lowers stock by the quantity sold, so that a sale followed by its refund leaves stock unchanged | high, not executed | SalesService.SaleOfThirtyFromHundred | SalesService.IntendedSaleThenRefundNetZero |

The corrected SALE entries (`SalesService.IntendedSaleEntries`) are proved to lower stock by the quantity sold (`SalesService.StockAfterIntendedSale`). A sale followed by its refund then nets to zero. The methods `SalesService.Create` and `SalesService.Refund` deliberately keep the entries as written. Their contracts therefore describe the ledger the code actually produces, and `SalesService.StockAfterPostings` and `SalesService.SaleThenRefund` state its effect.
