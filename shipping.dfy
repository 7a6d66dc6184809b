/**
  OrderController: the bulk shipping update over the staged delivery
  records, and the CSV export of orders.
*/
module Shipping {
  import opened JavaLang
  import opened Domain
  import opened CsvImport
  import opened Fulfilment
  import opened Orders

  class OrderController {
    const service: OrderService
    /** The records staged by the last shipment upload; a list never staged is empty here. */
    var orderDeliveries: seq<OrderDeliveries>

    constructor (service: OrderService)
      ensures this.service == service && orderDeliveries == []
    {
      this.service := service;
      orderDeliveries := [];
    }

    /**
      updateShipping: walks the form rows by index. A checked row applies
      the staged record at the same index (ShipCheckedRow). The walk stops
      at the first checked row past the staged list (the exception is
      caught). Earlier writes are kept; the result says whether the batch
      reported failure.
    */
    method UpdateShipping(forms: seq<OrderShippingList>) returns (failed: bool)
      requires service.Valid()
      modifies this, service
      ensures service.Valid()
      ensures service.products == old(service.products) && service.nextOrderId == old(service.nextOrderId)
      ensures var final := ShipUpTo(StartState(old(service.orders), old(service.deliveries),
                                               old(service.nextDeliveryId), old(orderDeliveries)), forms, |forms|);
              && failed == BatchFailed(final)
              && service.orders == final.orders
              && service.deliveries == final.deliveries
              && service.nextDeliveryId == final.nextDeliveryId
              && orderDeliveries == final.staged
    {
      ghost var s0 := StartState(service.orders, service.deliveries, service.nextDeliveryId, orderDeliveries);
      var isError := false;
      var threw := false;
      var i := 0;
      while i < |forms| && !threw
        invariant 0 <= i <= |forms|
        invariant service.Valid()
        invariant service.products == old(service.products) && service.nextOrderId == old(service.nextOrderId)
        invariant ShipUpTo(s0, forms, i)
                  == ShipState(service.orders, service.deliveries, service.nextDeliveryId, orderDeliveries, isError, threw)
      {
        ShipRowMeaning(ShipUpTo(s0, forms, i), forms[i], i);
        var shippingList := forms[i];
        if shippingList.checked {
          if i >= |orderDeliveries| {
            // orderDeliveries.get(i) throws and leaves the loop; the handler reports failure
            threw := true;
          } else {
            isError := ShipCheckedRow(shippingList, i, isError);
          }
        }
        i := i + 1;
      }
      if threw {
        AbortedStaysPut(s0, forms, i, |forms|);
      }
      failed := isError || threw;
    }

    /**
      One checked form row of updateShipping whose staged record exists: a
      missing or completed order marks the record "error" and sets the error
      flag; otherwise the record is saved, marked "success" and its order
      shipped.
    */
    method ShipCheckedRow(form: OrderShippingList, i: nat, isError: bool) returns (isErrorAfter: bool)
      requires service.Valid() && form.checked && i < |orderDeliveries|
      modifies this, service
      ensures service.Valid()
      ensures service.products == old(service.products) && service.nextOrderId == old(service.nextOrderId)
      ensures ShipRow(ShipState(old(service.orders), old(service.deliveries), old(service.nextDeliveryId),
                                old(orderDeliveries), isError, false), form, i)
              == ShipState(service.orders, service.deliveries, service.nextDeliveryId, orderDeliveries, isErrorAfter, false)
    {
      isErrorAfter := isError;
      var orderId := orderDeliveries[i].orderId;
      if orderId in service.orders {
        var order := service.orders[orderId];
        if order.status == COMPLETED {
          orderDeliveries := orderDeliveries[i := orderDeliveries[i].(uploadStatus := Some(UPLOAD_ERROR))];
          isErrorAfter := true;
        } else {
          service.Save(orderDeliveries[i]);
          orderDeliveries := orderDeliveries[i := orderDeliveries[i].(uploadStatus := Some(UPLOAD_SUCCESS))];
          var updated := service.UpdateOrderStatus(orderDeliveries[i].orderId);
        }
      } else {
        orderDeliveries := orderDeliveries[i := orderDeliveries[i].(uploadStatus := Some(UPLOAD_ERROR))];
        isErrorAfter := true;
      }
    }
  }

  // ---------------------------------------------------------------------
  // convertToCSV

  /** The twelve column names of the export, in order. */
  const HEADER_COLUMNS: seq<string> :=
    ["id", "customer_id", "status", "total", "tax", "discount", "shipping",
     "grand_total", "paid", "payment_method", "payment_status", "note"]

  /** The header line: the column names joined by commas. */
  const CSV_HEADER: string := Join(HEADER_COLUMNS, ',')

  /** String.valueOf(double): how a double is printed is not modelled. */
  type RealFormat = real -> string

  /** The twelve values of an order's line, in header order. */
  function CsvFields(o: Order, showReal: RealFormat): (f: seq<string>)
    ensures |f| == |HEADER_COLUMNS|
    ensures f[0] == IntToString(o.id) && f[2] == o.status && f[11] == o.note
  {
    [IntToString(o.id), IntToString(o.customerId), o.status,
     showReal(o.total), showReal(o.tax), showReal(o.discount), showReal(o.shipping),
     showReal(o.grandTotal), showReal(o.paid),
     o.paymentMethod, o.paymentStatus, o.note]
  }

  /** An order's line: its values joined by commas, so it starts with the order's id and a comma. */
  function CsvLine(o: Order, showReal: RealFormat): (line: string)
    ensures var id := IntToString(o.id);
            |line| > |id| && line[..|id| + 1] == id + ","
  {
    var f := CsvFields(o, showReal);
    assert Join(f, ',') == f[0] + [','] + Join(f[1..], ',');
    Join(f, ',')
  }

  function CsvLines(orders: seq<Order>, showReal: RealFormat): (lines: seq<string>)
    ensures |lines| == |orders| && forall i :: 0 <= i < |orders| ==> lines[i] == CsvLine(orders[i], showReal)
  {
    seq(|orders|, i requires 0 <= i < |orders| => CsvLine(orders[i], showReal))
  }

  /** convertToCSV: the header, a line end, then the orders' lines joined by line ends. */
  function ConvertToCsv(orders: seq<Order>, showReal: RealFormat): (csv: string)
    ensures |csv| > |CSV_HEADER| && csv[..|CSV_HEADER| + 1] == CSV_HEADER + "\n"
  {
    var body := Join(CsvLines(orders, showReal), '\n');
    assert (CSV_HEADER + "\n" + body)[..|CSV_HEADER| + 1] == CSV_HEADER + "\n";
    CSV_HEADER + "\n" + body
  }

  /** A word of lower-case letters and underscores. */
  predicate LowerWord(c: string)
  {
    forall i :: 0 <= i < |c| ==> 'a' <= c[i] <= 'z' || c[i] == '_'
  }

  lemma LowerWordIsPlain(c: string)
    requires LowerWord(c)
    ensures ',' !in c && '\n' !in c
  {
  }

  /** The column names hold neither a comma nor a line end. */
  lemma ColumnsArePlain()
    ensures forall c :: c in HEADER_COLUMNS ==> ',' !in c && '\n' !in c
  {
    assert LowerWord("id") && LowerWord("customer_id") && LowerWord("status") && LowerWord("total");
    assert LowerWord("tax") && LowerWord("discount") && LowerWord("shipping") && LowerWord("grand_total");
    assert LowerWord("paid") && LowerWord("payment_method") && LowerWord("payment_status") && LowerWord("note");
    forall c | c in HEADER_COLUMNS ensures ',' !in c && '\n' !in c {
      LowerWordIsPlain(c);
    }
  }

  /** The header splits back into its twelve column names; it has no line end. */
  lemma HeaderColumns()
    ensures SplitAll(CSV_HEADER, ',') == HEADER_COLUMNS && |HEADER_COLUMNS| == 12
    ensures '\n' !in CSV_HEADER
  {
    ColumnsArePlain();
    PlainJoin(HEADER_COLUMNS, ',', '\n');
  }

  /** No orders: the header and one line end. */
  lemma EmptyExport(showReal: RealFormat)
    ensures ConvertToCsv([], showReal) == CSV_HEADER + "\n"
  {
  }

  /** A value that survives the CSV round trip: no separator, quote or line end in it. */
  predicate Plain(s: string) { ',' !in s && '"' !in s && '\n' !in s }

  /** An order whose text values and printed amounts are all plain. */
  predicate PlainOrder(o: Order, showReal: RealFormat)
  {
    && Plain(o.status) && Plain(o.paymentMethod) && Plain(o.paymentStatus) && Plain(o.note)
    && Plain(showReal(o.total)) && Plain(showReal(o.tax)) && Plain(showReal(o.discount))
    && Plain(showReal(o.shipping)) && Plain(showReal(o.grandTotal)) && Plain(showReal(o.paid))
  }

  lemma CsvFieldsPlain(o: Order, showReal: RealFormat)
    requires PlainOrder(o, showReal)
    ensures forall p :: p in CsvFields(o, showReal) ==> Plain(p)
  {
    var f := CsvFields(o, showReal);
    forall p | p in f ensures Plain(p) {
      var k :| 0 <= k < |f| && f[k] == p;
      if k < 2 {
        assert forall c :: c in p ==> IsDigit(c) || c == '-';
      }
    }
  }

  /** Each exported line splits back into its twelve values, in header order. */
  lemma ExportLineHasHeaderColumns(o: Order, showReal: RealFormat)
    requires PlainOrder(o, showReal)
    ensures SplitAll(CsvLine(o, showReal), ',') == CsvFields(o, showReal)
    ensures |SplitAll(CsvLine(o, showReal), ',')| == |SplitAll(CSV_HEADER, ',')| == 12
    ensures '\n' !in CsvLine(o, showReal) && '"' !in CsvLine(o, showReal)
  {
    CsvFieldsPlain(o, showReal);
    SplitAllJoin(CsvFields(o, showReal), ',');
    JoinAvoids(CsvFields(o, showReal), ',', '\n');
    JoinAvoids(CsvFields(o, showReal), ',', '"');
    HeaderColumns();
  }

  /**
    Read back line by line, the export gives the header and then one line
    per order, in order; the empty export gives the header alone.
  */
  lemma ExportLinesAreSingle(orders: seq<Order>, showReal: RealFormat)
    requires forall o :: o in orders ==> PlainOrder(o, showReal)
    ensures forall l :: l in CsvLines(orders, showReal) ==> '\n' !in l
  {
    var lines := CsvLines(orders, showReal);
    forall k | 0 <= k < |lines| ensures '\n' !in lines[k] {
      assert orders[k] in orders;
      CsvLineIsOneLine(orders[k], showReal);
    }
  }

  lemma CsvLineIsOneLine(o: Order, showReal: RealFormat)
    requires PlainOrder(o, showReal)
    ensures '\n' !in CsvLine(o, showReal)
  {
    CsvFieldsPlain(o, showReal);
    JoinAvoids(CsvFields(o, showReal), ',', '\n');
  }

  lemma LastExportLineNotEmpty(orders: seq<Order>, showReal: RealFormat)
    requires orders != []
    ensures CsvLines(orders, showReal)[|orders| - 1] != ""
  {
    assert CsvLines(orders, showReal)[|orders| - 1] == CsvLine(orders[|orders| - 1], showReal);
  }

  lemma ExportReadsBack(orders: seq<Order>, showReal: RealFormat)
    requires forall o :: o in orders ==> PlainOrder(o, showReal)
    ensures ReadLines(ConvertToCsv(orders, showReal)) == [CSV_HEADER] + CsvLines(orders, showReal)
  {
    ExportLinesAreSingle(orders, showReal);
    if orders != [] {
      LastExportLineNotEmpty(orders, showReal);
    }
    HeaderColumns();
    ReadLinesAfterHeader(CSV_HEADER, CsvLines(orders, showReal));
  }

  /** The fields of an exported line as importCSV splits them: the first one is the order's id. */
  lemma ExportedLineKeepsId(o: Order, showReal: RealFormat)
    requires PlainOrder(o, showReal) && LONG_MIN <= o.id <= LONG_MAX
    ensures |Fields(CsvLine(o, showReal))| >= 1
    ensures ParseLong(Fields(CsvLine(o, showReal))[0]) == Some(o.id)
  {
    CsvFieldsPlain(o, showReal);
    FieldsOfJoin(CsvFields(o, showReal));
    ParseLongRoundTrip(o.id);
  }

  /**
    Exporting stored orders and importing the file with importCSV finds the
    same orders again, in the same order.
  */
  lemma ExportImportRoundTrip(orders: seq<Order>, store: map<int, Order>, showReal: RealFormat)
    requires forall o :: o in orders ==> PlainOrder(o, showReal) && LONG_MIN <= o.id <= LONG_MAX
    requires forall o :: o in orders ==> o.id in store && store[o.id] == o
    ensures LookupRows(CsvLines(orders, showReal), OrderLookup(store)) == Done(orders)
  {
    var lines := CsvLines(orders, showReal);
    forall i | 0 <= i < |lines| ensures OrderLookup(store)(lines[i]) == Done(Some(orders[i])) {
      assert orders[i] in orders;
      ExportedLineFound(orders[i], store, showReal);
    }
    LookupRowsAllKnown(lines, OrderLookup(store), orders);
  }

  /** importCSV's lookup finds a stored order from its exported line. */
  lemma ExportedLineFound(o: Order, store: map<int, Order>, showReal: RealFormat)
    requires PlainOrder(o, showReal) && LONG_MIN <= o.id <= LONG_MAX
    requires o.id in store && store[o.id] == o
    ensures OrderLookup(store)(CsvLine(o, showReal)) == Done(Some(o))
  {
    ExportedLineKeepsId(o, showReal);
  }

  /** The round trip through the whole file: header skipped, every order found. */
  lemma ExportThenImportCsv(orders: seq<Order>, store: map<int, Order>, showReal: RealFormat)
    requires forall o :: o in orders ==> PlainOrder(o, showReal) && LONG_MIN <= o.id <= LONG_MAX
    requires forall o :: o in orders ==> o.id in store && store[o.id] == o
    ensures LookupRows(DataLines(ReadLines(ConvertToCsv(orders, showReal))), OrderLookup(store)) == Done(orders)
  {
    ExportReadsBack(orders, showReal);
    assert DataLines([CSV_HEADER] + CsvLines(orders, showReal)) == CsvLines(orders, showReal);
    ExportImportRoundTrip(orders, store, showReal);
  }
}
