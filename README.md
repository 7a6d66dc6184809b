# Order management core: pricing, payments, CSV uploads, bulk shipping, tax rates

This project models the core of a Spring order-management application:

- **Order pricing.** `OrderService.create` copies the form header and
  snapshots each requested catalogue product into an order line. It computes
  each line's tax from the tax type: included or excluded, a percentage rate,
  and a floor / round / ceil rounding mode. It sums subtotals, taxes and
  discounts, and stores the order as ordered and unpaid.
- **Payment ledger.** `OrderService.createPayment` appends a payment to an
  order's history and recomputes the paid amount from the completed payments
  ("完了"). It derives the payment status and completes a shipping order that
  is now paid.
- **CSV uploads.** Every upload skips the header line, deletes double quotes
  and splits each line on commas as `String.split` does.
  - `validate` collects every error of every row.
  - `importOrderDeliveriesCSV` stages delivery records.
  - `importCSVyoForm` / `createOrderShippingListFromCSV` build form rows.
  - `importCSV` looks up the orders the rows name.
  - `importPaymentCSV` checks payment rows and applies each good one at once.
    It stops at the first bad row and rolls back on an exception.
- **Bulk shipping update.** `OrderController.updateShipping` walks the form
  rows. For each checked row it saves the staged delivery record with the
  same index (`save` is an upsert by order id) and ships its order
  (`updateOrderStatus`), or marks the row as an error. The batch reports
  failure when a row was marked as an error, and the writes of successful
  rows are kept. `convertToCSV` writes a header and one line per order.
- **Tax rates.** `TaxController` stores one rate as six rows: tax included or
  not, times the three rounding modes. `create` refuses a rate that already
  exists. `index` lists the first row of each rate. `delete` removes a row
  and then every row of its rate.

Modules, one file each:

| file | module | models |
|---|---|---|
| java_lang.dfy | `JavaLang` | `String.replace`, `String.split`, `BufferedReader.readLine`, `Long.parseLong`, `String.valueOf(long)`, `String.join` / `Collectors.joining`; `Option`, `Outcome` (a value or a Java exception) |
| domain.dfy | `Domain` | the records (order, line, payment, delivery, form row, tax type) and the status strings |
| pricing.dfy | `Pricing` | the per-line tax and subtotal of `create` |
| ledger.dfy | `Ledger` | what `createPayment` does to one order |
| csv_import.dfy | `CsvImport` | the row-level behaviour of every CSV upload, as functions, and their properties |
| orders.dfy | `Orders` | class `OrderService`: the stores as fields and the service methods as loops over the rows |
| fulfilment.dfy | `Fulfilment` | the delivery upsert, `updateOrderStatus`, and the walk of `updateShipping` as a function of the state |
| shipping.dfy | `Shipping` | class `OrderController`: `updateShipping` and `convertToCSV` |
| taxes.dfy | `Taxes` | class `TaxController` with the tax table as a sequence field |

Repositories are fields of the classes: maps from id to record for orders and
delivery records, and a sequence in `findAll` order for tax rows. Each class
carries a `Valid()` invariant. Orders are stored under their own id, below the
next id. Delivery records are one per order id, with distinct stored ids below
the next id. Tax ids are below the next id and identify their rows.

Behaviour of the code worth knowing:

- **Tax-included subtotal.** A tax-included line still adds its tax to the
  subtotal (`price * quantity + tax - discount`). A 1100 line at 10%
  included, rounded down, has tax 100 and subtotal 1200
  (`Pricing.PricingExamples`).
- **Unreachable id check in `importPaymentCSV`.** The id is parsed unguarded
  before the existence check. A non-numeric id therefore throws
  `NumberFormatException`; the guarded re-parse that follows cannot fail. The
  import never returns the "受注IDが数値ではありません" error
  (`CsvImport.PaymentImportReportsAtMostOne`).
- **Rollback in `importPaymentCSV`.** The method is one transaction. An
  exception (non-numeric id, malformed timestamp) rolls back every payment of
  the upload. A returned error keeps the payments already applied.
- **Partial shipping upload.** In `updateShipping`, a checked form row with
  no staged record at its index throws. The handler catches it and reports
  failure, and the rows before it stay applied.

## Model

| member | source | states |
|---|---|---|
| JavaLang.RemoveQuotes | src/main/java/com/example/service/OrderService.java:193 | `replace("\"", "")` leaves no quote, keeps every other character and never lengthens the line |
| JavaLang.SplitAll | src/main/java/com/example/service/OrderService.java:193 | the pieces between commas contain no comma, join back to the line, and number two or more exactly when the line has a comma |
| JavaLang.Join | src/main/java/com/example/controller/OrderController.java:315 | `String.join` / `Collectors.joining`: the join starts with the first part and is as long as all parts plus one separator between each pair of neighbours |
| JavaLang.DropTrailingEmpty | src/main/java/com/example/service/OrderService.java:193 | only trailing empty strings are removed: the result is a prefix of the pieces, ends in a non-empty piece, and every piece dropped is empty |
| JavaLang.JavaSplit | src/main/java/com/example/service/OrderService.java:193 | `split(",")`: no field contains a comma; a line without a comma is one field; otherwise the pieces with trailing empty ones dropped |
| JavaLang.SplitAllJoin | src/main/java/com/example/service/OrderService.java:193 | splitting a comma-join of comma-free parts gives the parts back |
| JavaLang.SplitJoinRoundTrip | src/main/java/com/example/service/OrderService.java:193 | `split` inverts the join when the last part is not empty |
| JavaLang.JavaSplitOfJoin | src/main/java/com/example/service/OrderService.java:193 | `split` of a join of two or more parts gives the parts without their trailing empty ones |
| JavaLang.TrailingSeparatorDropped | src/main/java/com/example/service/OrderService.java:193 | the line "1,a,b,c," has four fields, so a row with an empty last column counts as having a missing field |
| JavaLang.AllEmptyDropped | src/main/java/com/example/service/OrderService.java:193 | pieces that are all empty leave no field |
| JavaLang.SeparatorsOnlyGiveNoFields | src/main/java/com/example/service/OrderService.java:193 | the line ",," has no field at all |
| JavaLang.JoinAvoids | src/main/java/com/example/controller/OrderController.java:315 | a character that is in no part and is not the separator is not in the join |
| JavaLang.ReadLines | src/main/java/com/example/service/OrderService.java:191-192 | the lines `readLine` returns contain no line end, and an empty input has no line |
| JavaLang.ReadLinesAfterHeader | src/main/java/com/example/service/OrderService.java:191-192 | reading a header, a line end and a line-joined body gives the header and then each body line |
| JavaLang.ReadLinesOfHeaderAlone | src/main/java/com/example/service/OrderService.java:191-192 | a header and a line end alone read as the header line only |
| JavaLang.ParseLong | src/main/java/com/example/service/OrderService.java:202 | `Long.parseLong` succeeds only on an optional sign then decimal digits, and only within the range of a long |
| JavaLang.NatToString | src/main/java/com/example/controller/OrderController.java:316 | a natural number prints as a non-empty string of digits |
| JavaLang.IntToString | src/main/java/com/example/controller/OrderController.java:316 | `String.valueOf(long)` prints only digits and the minus sign |
| JavaLang.DigitsOfNat | src/main/java/com/example/controller/OrderController.java:316 | the digits printed for n have the value n |
| JavaLang.ParseLongRoundTrip | src/main/java/com/example/controller/OrderController.java:316 | every long printed by `String.valueOf` parses back to itself, and the text has no comma or quote |
| Pricing.RawTax | src/main/java/com/example/service/OrderService.java:103-109 | included: the tax is rate percent of the price net of the tax; excluded: rate percent of price times quantity; rate 0 gives 0 |
| Pricing.RoundTax | src/main/java/com/example/service/OrderService.java:111-116 | floor, ceil and round give the whole number below, above or nearest (half up); an unknown mode leaves the tax unrounded |
| Pricing.LineTax | src/main/java/com/example/service/OrderService.java:99-116 | a line's tax is 0 at rate 0, and is whole and within 1 of the raw tax for a known rounding mode |
| Pricing.LineSubtotal | src/main/java/com/example/service/OrderService.java:117-120 | a line at rate 0 costs its goods less its discount; with a known rounding mode the subtotal is within 1 of goods plus raw tax less discount |
| Pricing.SumSubtotals | src/main/java/com/example/service/OrderService.java:117-121 | when no line is taxed, the order total is the goods less the discounts |
| Pricing.SumTaxes | src/main/java/com/example/service/OrderService.java:117-121 | when no line is taxed, the order tax is 0 |
| Pricing.SumDiscounts | src/main/java/com/example/service/OrderService.java:117-121 | the order discount is never negative when no line discount is |
| Pricing.TotalDecomposes | src/main/java/com/example/service/OrderService.java:117-121 | the order total is gross price plus total tax minus total discount |
| Pricing.RoundingErrorBounded | src/main/java/com/example/service/OrderService.java:111-119 | rounding changes the total tax by less than one per line |
| Pricing.FloorNeverOvercharges | src/main/java/com/example/service/OrderService.java:114-119 | with every line rounded down, the total tax never exceeds the raw tax |
| Pricing.PricingExamples | src/main/java/com/example/service/OrderService.java:103-121 | 1000 x 2 at 10% excluded, rounded: tax 200, subtotal 2200; 1100 x 1 at 10% included, rounded down: tax 100, subtotal 1200 |
| Ledger.CompletedPaidAppend | src/main/java/com/example/service/OrderService.java:155-159 | appending a payment adds its amount to paid exactly when its type is completed |
| Ledger.CompletedPaidIgnoresPending | src/main/java/com/example/service/OrderService.java:157-159 | payments of any other type never change the paid amount |
| Ledger.DerivePaymentStatus | src/main/java/com/example/service/OrderService.java:161-162 | overpaid iff paid exceeds the grand total, partially paid iff below it, paid iff equal |
| Ledger.ApplyPayment | src/main/java/com/example/service/OrderService.java:140-176 | the payment is appended; paid is the sum of completed payments; the payment status changes only for a completed payment; the status changes (to completed) iff the order was shipping and is now exactly paid; nothing else changes |
| Ledger.PendingPaymentChangesNothingPaid | src/main/java/com/example/service/OrderService.java:157-169 | on a consistent order a non-completed payment changes neither paid nor the payment status |
| Ledger.CompletedPaymentAddsAmount | src/main/java/com/example/service/OrderService.java:155-165 | a completed payment raises paid by its amount and keeps paid equal to the ledger sum |
| Ledger.PayingInFullCompletesShipment | src/main/java/com/example/service/OrderService.java:161-173 | a completed payment that brings paid to the grand total makes the order paid, and completes it if it was shipping |
| Ledger.PendingPaymentStillPromotes | src/main/java/com/example/service/OrderService.java:161-173 | a shipping order that is already paid in full is completed even by a non-completed payment, whose payment status stays as it was |
| Ledger.CompletedPaid | src/main/java/com/example/service/OrderService.java:155-159 | paid is 0 when no payment is completed, and never negative when no amount is |
| CsvImport.DataLines | src/main/java/com/example/service/OrderService.java:191-192 | the rows are the lines after the header, in order |
| CsvImport.Fields | src/main/java/com/example/service/OrderService.java:193 | no field of a row contains a comma |
| CsvImport.MissingField | src/main/java/com/example/service/OrderService.java:366-368 | a row is complete (the check at lines 366-368 and 195-197 passes) iff it has at least five fields and none of the first five is empty |
| CsvImport.FieldsOfJoin | src/main/java/com/example/service/OrderService.java:255-258 | a line joined from comma- and quote-free values yields its first value as field 0 |
| CsvImport.RowErrors | src/main/java/com/example/service/OrderService.java:366-384 | a row reports at most two errors, and none iff it has all five fields, a numeric id and two parsable dates |
| CsvImport.AllRowErrors | src/main/java/com/example/service/OrderService.java:360-385 | `validate` reports at most two errors per data row |
| CsvImport.RowErrorsMeaning | src/main/java/com/example/service/OrderService.java:366-384 | a row with a missing field reports that error alone; any other row reports a non-numeric id iff the id does not parse, and a date error iff either date does not parse |
| CsvImport.ValidatePassesIff | src/main/java/com/example/service/OrderService.java:360-389 | `validate` returns no error iff every data row is valid |
| CsvImport.ValidateCountsBadRows | src/main/java/com/example/service/OrderService.java:360-389 | the number of errors is at least the number of bad rows and at most twice that |
| CsvImport.MissingFieldRowReportsOnce | src/main/java/com/example/service/OrderService.java:366-371 | a row with a missing field adds exactly one error, and the rows after it are still checked |
| CsvImport.AllRowErrorsAppend | src/main/java/com/example/service/OrderService.java:360-385 | the errors of two files one after the other are the errors of the first followed by those of the second |
| CsvImport.DeliveryFromFields | src/main/java/com/example/service/OrderService.java:329-345 | a staged record exists iff there are five fields and the id parses; a failed shipping date skips the delivery date, which stays unset; otherwise an index or number-format exception |
| CsvImport.ShippingRowFromFields | src/main/java/com/example/service/OrderService.java:296-318 | a form row is unchecked with no upload status; both dates are set, or neither, and both are set iff both parse; otherwise an index or number-format exception |
| CsvImport.ValidRowParses | src/main/java/com/example/service/OrderService.java:329-344 | a row that passes validation parses with both parsers, without an exception and with its dates set |
| CsvImport.ParsersDisagreeOnHalfDates | src/main/java/com/example/service/OrderService.java:305-312 | when only the delivery date fails, the staged record keeps its shipping date but the form row has neither date |
| CsvImport.LookupRow | src/main/java/com/example/service/OrderService.java:255-266 | a row finds something iff its id parses; it finds the stored order of that id, or nothing if none is stored |
| CsvImport.CheckPaymentRow | src/main/java/com/example/service/OrderService.java:202-206 | a payment row that passes names a stored order |
| CsvImport.CheckPaymentRowMeaning | src/main/java/com/example/service/OrderService.java:195-227 | a passing row has its fields, a stored id, a whole amount and a parsed timestamp, and becomes that payment; a rejected row gives one of three errors; an exception is a number-format or illegal-argument one |
| CsvImport.CheckPaymentRowOutcomes | src/main/java/com/example/service/OrderService.java:195-227 | which check decides a row: a missing field rejects it, an unparsable id throws NumberFormatException, an unknown id rejects it, a non-numeric amount rejects it, and a bad timestamp throws IllegalArgumentException |
| CsvImport.CheckPassesIffGood | src/main/java/com/example/service/OrderService.java:195-227 | a row passes every check iff its fields are present, its id parses and is stored, its amount parses and its timestamp parses |
| CsvImport.PaymentImportReportsAtMostOne | src/main/java/com/example/service/OrderService.java:192-230 | the payment upload returns at most one error, and never the non-numeric-id one |
| CsvImport.ImportPaymentRows | src/main/java/com/example/service/OrderService.java:192-230 | the payment upload returns at most one error message |
| CsvImport.CleanPrefixComposes | src/main/java/com/example/service/OrderService.java:192-230 | rows that import cleanly hand their updated orders on to the rows after them |
| CsvImport.PaymentImportStopsAtFirstBadRow | src/main/java/com/example/service/OrderService.java:192-230 | at the first bad row the upload returns that row's error, or throws its exception, with the payments of the rows before it applied in the row-by-row result (the transaction rolls them back on an exception) and the rows after it unread |
| CsvImport.PaymentExtendsLedger | src/main/java/com/example/service/OrderService.java:155-173 | one payment only appends to the order's history, and leaves everything but paid, payment status and status as it was |
| CsvImport.PaymentImportOnlyAppends | src/main/java/com/example/service/OrderService.java:192-229 | the payment upload adds and removes no order, and every order only gains payments at the end of its history |
| CsvImport.PaymentImportCleanIff | src/main/java/com/example/service/OrderService.java:192-230 | the payment upload ends with no error and no exception iff every row names a stored order and has a whole amount and a valid timestamp |
| CsvImport.ParseRows | src/main/java/com/example/service/OrderService.java:283-288 | a completed parse has one value per data row |
| CsvImport.ParseRowsMeaning | src/main/java/com/example/service/OrderService.java:328-346 | the upload completes iff every row parses, and then holds each row's value at its index; an exception is that of the first row that throws |
| CsvImport.ValidFileStagesEveryRow | src/main/java/com/example/service/OrderService.java:328-346 | a file that passes `validate` stages one record per row, each with both dates set |
| CsvImport.LookupRows | src/main/java/com/example/service/OrderService.java:254-268 | `importCSV` never returns more orders than there are rows |
| CsvImport.LookupRowsMeaning | src/main/java/com/example/service/OrderService.java:254-268 | the lookup completes iff no row throws, and every order returned was found for some row |
| CsvImport.LookupRowsIsFound | src/main/java/com/example/service/OrderService.java:254-268 | a completed lookup returns exactly the orders found, one per row that finds one, in row order |
| CsvImport.ImportCsvFindsStoredOrders | src/main/java/com/example/service/OrderService.java:254-268 | `importCSV` throws only on a row whose id does not parse, and returns only stored orders |
| CsvImport.LookupRowsAllKnown | src/main/java/com/example/service/OrderService.java:254-268 | when every row names a stored order, the result is exactly those orders, row by row |
| Orders.ResolvedLines | src/main/java/com/example/service/OrderService.java:78-89 | resolving fails only with `NoSuchElementException`, and otherwise gives one line per request |
| Orders.ResolvedLinesMeaning | src/main/java/com/example/service/OrderService.java:78-89 | the lines resolve iff every requested product is in the catalogue, and then line i is the snapshot of request i and its product |
| Orders.OrderLine | src/main/java/com/example/service/OrderService.java:80-88 | a line takes id, price and tax type from the catalogue product and quantity and discount from the request; its goods are price times quantity, and it has no tax at rate 0 |
| Orders.PriceLines | src/main/java/com/example/service/OrderService.java:92-121 | the pricing loop's three sums are the sums of the line subtotals, taxes and discounts |
| Orders.OrderService.ResolveLines | src/main/java/com/example/service/OrderService.java:77-89 | the first loop of `create` computes the resolved lines, or the exception of the first unknown product |
| Orders.OrderService.Create | src/main/java/com/example/service/OrderService.java:66-132 | an unknown product throws and stores nothing; otherwise a new order under a fresh id with the form's header, the resolved lines, status ordered, unpaid, nothing paid, no payments, total/tax/discount summed over the lines, and grand total = total + shipping |
| Orders.OrderService.CreatePayment | src/main/java/com/example/service/OrderService.java:139-176 | an unknown order throws and changes nothing; otherwise only that order changes, as `ApplyPayment` says |
| Orders.OrderService.CheckPaymentCsvRow | src/main/java/com/example/service/OrderService.java:193-227 | the checks of one payment row, in the code's order, against the current store |
| Orders.OrderService.ApplyPaymentRows | src/main/java/com/example/service/OrderService.java:191-230 | the loop's result and the order store it leaves are those of the row-by-row specification |
| Orders.OrderService.ImportPaymentCsv | src/main/java/com/example/service/OrderService.java:186-234 | the upload's result per the specification; after an exception the orders are as they were before the upload, otherwise the applied payments remain |
| Orders.OrderService.ImportCsv | src/main/java/com/example/service/OrderService.java:247-272 | the orders found, in row order, as the row-by-row lookup specifies |
| Orders.OrderService.ImportCsvToForm | src/main/java/com/example/service/OrderService.java:275-293 | one form row per data row, as the row parser specifies |
| Orders.OrderService.ImportOrderDeliveriesCsv | src/main/java/com/example/service/OrderService.java:321-351 | one staged record per data row, as the row parser specifies |
| Orders.OrderService.Validate | src/main/java/com/example/service/OrderService.java:354-390 | every error of every data row, in row order |
| Orders.OrderService.Save | src/main/java/com/example/service/OrderService.java:393-409 | the delivery store becomes the upsert of the record (and the next id advances only on an insert); orders are untouched |
| Orders.OrderService.UpdateOrderStatus | src/main/java/com/example/service/OrderService.java:412-427 | an unknown id throws and changes nothing; otherwise that order alone is shipped |
| Orders.ParseEachRow | src/main/java/com/example/service/OrderService.java:283-288 | the loop shared by the two shipment uploads computes the row-by-row parse |
| Orders.ValidateRow | src/main/java/com/example/service/OrderService.java:366-384 | the errors the checks of one row add, as the row specification gives them |
| Fulfilment.Upserted | src/main/java/com/example/service/OrderService.java:393-409 | the stored record of the order keeps its id and takes the new fields; a new order's record is inserted under the next id; other records are unchanged |
| Fulfilment.Overwritten | src/main/java/com/example/service/OrderService.java:397-403 | the stored record keeps its id and order id and takes every other field from the saved record |
| Fulfilment.NextIdAfter | src/main/java/com/example/service/OrderService.java:405-408 | the next id advances by one exactly when the record is inserted |
| Fulfilment.UpsertKeepsStoreValid | src/main/java/com/example/service/OrderService.java:393-409 | the upsert keeps one record per order id, with distinct ids below the next id |
| Fulfilment.UpsertIdempotent | src/main/java/com/example/service/OrderService.java:393-409 | saving the same record twice is the same as saving it once |
| Fulfilment.Shipped | src/main/java/com/example/service/OrderService.java:418-422 | the status becomes completed when the order is paid, shipping otherwise; nothing else changes |
| Fulfilment.MarkStaged | src/main/java/com/example/controller/OrderController.java:350 | only the staged record at the row's index gets the new upload status |
| Fulfilment.RowRejected | src/main/java/com/example/controller/OrderController.java:344-361 | a row is rejected when its order is not stored, and a stored order's row is rejected iff the order is completed |
| Fulfilment.ShipRow | src/main/java/com/example/controller/OrderController.java:342-363 | one row keeps the number of staged records and the set of stored orders |
| Fulfilment.ShipRowMarks | src/main/java/com/example/controller/OrderController.java:342-363 | a checked row within the staged list marks its record success or error and nothing else in the list |
| Fulfilment.ShipUpTo | src/main/java/com/example/controller/OrderController.java:339-364 | the walk keeps the number of staged records and the set of stored orders |
| Fulfilment.AbortedStaysPut | src/main/java/com/example/controller/OrderController.java:336-372 | after the exception, no later row changes anything |
| Fulfilment.ShipAbortsIff | src/main/java/com/example/controller/OrderController.java:344-345 | the walk ends early iff some checked row lies past the end of the staged list |
| Fulfilment.ShipTouchesOnlyChecked | src/main/java/com/example/controller/OrderController.java:339-364 | staged records of unchecked rows, and of rows not yet reached, stay as they were |
| Fulfilment.ShipMarksEveryCheckedRow | src/main/java/com/example/controller/OrderController.java:339-364 | when the staged list covers the form, every checked row ends marked success or error, with the rest of its record unchanged |
| Fulfilment.ShipFailsIff | src/main/java/com/example/controller/OrderController.java:365-372 | when the staged list covers the form, the batch reports failure iff some checked row was marked error |
| Fulfilment.RejectedRowWritesNothing | src/main/java/com/example/controller/OrderController.java:346-362 | an error row changes no order and no delivery record, and is marked error |
| Fulfilment.ShippedStaysShipped | src/main/java/com/example/controller/OrderController.java:339-364 | an order that is shipping or completed with a delivery record stays so for the rest of the walk |
| Fulfilment.ShipRowKeepsShipped | src/main/java/com/example/controller/OrderController.java:342-363 | no single row takes a shipped order out of shipping/completed or removes its delivery record |
| Fulfilment.SuccessfulRowStaysApplied | src/main/java/com/example/controller/OrderController.java:352-356 | a row marked success keeps its order's delivery record and shipped status to the end of the batch, even when the batch fails |
| Fulfilment.ShipKeepsStoreValid | src/main/java/com/example/controller/OrderController.java:354 | the walk keeps the delivery store one record per order with distinct ids |
| Shipping.OrderController.UpdateShipping | src/main/java/com/example/controller/OrderController.java:333-376 | the orders, delivery records, next id and staged list end as the walk specifies, and failure is reported iff a row was marked error or the walk ended in an exception |
| Shipping.OrderController.ShipCheckedRow | src/main/java/com/example/controller/OrderController.java:342-362 | one checked row within the staged list changes the stores and the error flag as the row specification says |
| Shipping.CsvLines | src/main/java/com/example/controller/OrderController.java:314-328 | one line per order, in order |
| Shipping.CsvFields | src/main/java/com/example/controller/OrderController.java:315-327 | an order exports one value per header column, with its id first, its status third and its note last |
| Shipping.CsvLine | src/main/java/com/example/controller/OrderController.java:315-327 | an order's line starts with its id and a comma |
| Shipping.ConvertToCsv | src/main/java/com/example/controller/OrderController.java:311-330 | the export always starts with the header line |
| Shipping.ColumnsArePlain | src/main/java/com/example/controller/OrderController.java:312 | no column name contains a comma or line end |
| Shipping.HeaderColumns | src/main/java/com/example/controller/OrderController.java:312 | the header splits into its twelve column names and is one line |
| Shipping.EmptyExport | src/main/java/com/example/controller/OrderController.java:329 | exporting no order gives the header and a line end |
| Shipping.CsvFieldsPlain | src/main/java/com/example/controller/OrderController.java:315-327 | for an order whose text fields are free of commas, quotes and line ends, every exported value is too |
| Shipping.ExportLineHasHeaderColumns | src/main/java/com/example/controller/OrderController.java:311-330 | such an order's line, cut at every comma, gives back its twelve values, as many as the header has columns |
| Shipping.ExportReadsBack | src/main/java/com/example/controller/OrderController.java:311-330 | reading the export line by line gives the header and then each order's line |
| Shipping.ExportedLineKeepsId | src/main/java/com/example/controller/OrderController.java:316 | field 0 of an exported line parses back to the order's id |
| Shipping.ExportedLineFound | src/main/java/com/example/controller/OrderController.java:316 | `importCSV`'s row lookup finds the stored order from its exported line |
| Shipping.ExportImportRoundTrip | src/main/java/com/example/controller/OrderController.java:311-330 | looking up the exported lines of stored orders gives those orders back, in order |
| Shipping.ExportThenImportCsv | src/main/java/com/example/controller/OrderController.java:311-330 | `importCSV` of the file `convertToCSV` writes returns exactly the exported stored orders |
| Taxes.Expansion | src/main/java/com/example/controller/TaxController.java:88-102 | a rate expands into six rows |
| Taxes.ExpansionCoversEachPairOnce | src/main/java/com/example/controller/TaxController.java:88-102 | each row has the rate; the excluded rows come first and each half is floor, round, ceil; no two rows share an (included, rounding) pair |
| Taxes.Saved | src/main/java/com/example/controller/TaxController.java:78 | `saveAll` gives the rows consecutive new ids and keeps everything else |
| Taxes.FirstPerRate | src/main/java/com/example/controller/TaxController.java:38-51 | the listed rows cover every rate, no rate twice, in table order |
| Taxes.FirstPerRateKeepsOnlyFirsts | src/main/java/com/example/controller/TaxController.java:43-48 | every listed row is the first row of its rate |
| Taxes.FirstPerRateKeepsEveryFirst | src/main/java/com/example/controller/TaxController.java:43-48 | the first row of every rate is listed |
| Taxes.WithoutId | src/main/java/com/example/service/TaxService.java:49-51 | `deleteById` removes exactly the rows with that id and keeps the order of the rest |
| Taxes.WithoutRate | src/main/java/com/example/service/TaxService.java:54-56 | `deleteByTax` removes exactly the rows of that rate and keeps the order of the rest |
| Taxes.FindById | src/main/java/com/example/controller/TaxController.java:108-109 | a row is found iff the table has a row with that id, and then it is such a row |
| Taxes.HasRate | src/main/java/com/example/controller/TaxController.java:72 | `existsByTax` holds iff `index` lists a row of that rate |
| Taxes.DeleteByIdThenRate | src/main/java/com/example/controller/TaxController.java:110-111 | deleting the row by id before its rate leaves the same table as deleting the rate alone |
| Taxes.TaxController.CreateMultipleTaxEntities | src/main/java/com/example/controller/TaxController.java:88-102 | the two nested loops build exactly the six-row expansion |
| Taxes.TaxController.Create | src/main/java/com/example/controller/TaxController.java:68-86 | saved iff the rate is not stored yet; a refused rate changes nothing; otherwise the expansion is appended with the next six ids |
| Taxes.TaxController.Index | src/main/java/com/example/controller/TaxController.java:38-51 | the listed rows are the first row of each rate, in table order |
| Taxes.TaxController.Delete | src/main/java/com/example/controller/TaxController.java:104-121 | an unknown id changes nothing; otherwise the row's id, then its whole rate, is deleted |
| Taxes.SavedIds | src/main/java/com/example/controller/TaxController.java:77-78 | each saved row has an id in the block handed out |
| Taxes.SavedKeepsValid | src/main/java/com/example/controller/TaxController.java:77-78 | saving keeps ids unique and below the next id |
| Taxes.CreateStoresEveryPair | src/main/java/com/example/controller/TaxController.java:68-86 | after creating a new rate, the rate is stored, its only rows are the six saved ones, and they cover each (included, rounding) pair |
| Taxes.DeleteRemovesRate | src/main/java/com/example/controller/TaxController.java:104-121 | after a delete no row of the deleted rate remains, every row of another rate remains, and the order is kept |

## Left out

- Floating point: amounts are `real`, exact. `double` rounding error in
  sums, `Math.round` on values that do not fit in a long, and NaN are not
  modelled.
- Parsing and formatting that depend on library behaviour are parameters:
  `SimpleDateFormat("yyyy-MM-dd").parse`, `Timestamp.valueOf` and
  `String.valueOf(double)`. The model does not fix which strings parse or how
  a double is printed.
- JavaLang.ParseLong: only ASCII digits are accepted; `Long.parseLong` also
  accepts other Unicode decimal digits.
- Double.valueOf of the payment amount: the amount is the value `Long.parseLong`
  accepted, as a real. The model does not separately parse it as a double.
- Line ends: `readLine` is modelled on '\n' only. '\r' and "\r\n" line ends
  are not modelled.
- Reading the upload (`MultipartFile`, the stream, `IOException` and the
  `RuntimeException` it becomes) is not modelled; an upload is its sequence of
  lines.
- HTTP plumbing is not modelled: request mappings, views, redirects, flash
  messages, `BindingResult`, `@Validated` bean validation, and the `show`/`new`
  form pages.
- The `existsByTax` refusal is modelled as "not saved". How the form shows the
  error is not.
- The `catch` in `TaxController.delete`, which rethrows as `ServiceException`,
  is not modelled: the table operations modelled here throw nothing.
- Null values are not modelled: null fields, a null id in `delete`, and the
  controller's staged list before any upload (modelled as empty).
- Entity identity is not modelled. The staged records of `OrderController`
  are values. In the code, `save` inserts the staged object itself, so the
  `setUploadStatus("success")` that follows also reaches the newly stored
  record. In the model, a new delivery record keeps the upload status the
  staged record had when it was saved. A further consequence: when two
  checked rows i < j name the same new order id, row i's `save` stores
  staged[i] itself. Under open-session-in-view, row j's `findByOrderId`
  returns that same object, and `save` copies staged[j]'s code, dates, time
  zone and unset upload status into it (OrderService.java:397-403). So
  staged[i] loses its "success" mark and takes row j's fields. In that case
  the program does not do what `Fulfilment.ShipMarksEveryCheckedRow` states
  for the model.
- JPA details are not modelled:
  - how the database assigns ids, beyond "fresh and increasing";
  - flushing and open-session-in-view;
  - the separate transactions of `save` and `updateOrderStatus` (each
    succeeds or fails as a whole here).
- Concurrency: simultaneous uploads or updates are not modelled.
- `OrderService.save(Order)`, `delete(Order)`, `findOne`, `findByStatus` and
  the repository `findAll` are single repository calls. They appear only as
  reads and writes of the store fields.
- The values of the order status, payment status and tax type enums are
  assumed: "ordered", "shipping", "completed", "unpaid", "partially_paid",
  "paid", "overpaid", and the rounding modes "floor", "round" and "ceil".
  The enum sources are not part of this model.
- `TaxType.get(product.getTaxType())` is modelled as the product carrying its
  tax type (rate, included flag, rounding) directly.
- Orders.OrderService.CheckPaymentCsvRow: the guarded re-parse of the id after
  the existence check is not repeated in the method, because at that point it
  cannot fail. The specification function `CsvImport.CheckPaymentRow` keeps the
  branch.
