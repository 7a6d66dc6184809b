/**
  OrderService: order creation with its pricing loop, payments, the CSV
  uploads, and the two writes the bulk shipping update uses. The three
  repositories are maps held in fields: products and orders by id,
  delivery records by the id of their order.
*/
module Orders {
  import opened JavaLang
  import opened Domain
  import opened Pricing
  import opened Ledger
  import opened CsvImport
  import opened Fulfilment

  /** The order line made from one requested line and the product it names. */
  function OrderLine(req: OrderLineRequest, p: Product): (r: OrderProduct)
    ensures r.productId == p.id && r.price == p.price && r.taxType == p.taxType
    ensures r.quantity == req.quantity && r.discount == req.discount
    ensures LineGross(r) == p.price * req.quantity as real
    ensures p.taxType.rate == 0 ==> LineTax(r) == 0.0
  {
    OrderProduct(p.id, p.code, p.name, req.quantity, p.price, req.discount, p.taxType)
  }

  /**
    The lines of a new order, one per requested line and in the same order;
    a product id the catalogue does not have makes Optional.get() throw.
  */
  function ResolvedLines(reqs: seq<OrderLineRequest>, products: map<int, Product>): (r: Outcome<seq<OrderProduct>>)
    ensures r.Threw? ==> r.exception == NoSuchElement
    ensures r.Done? ==> |r.value| == |reqs|
  {
    if reqs == [] then Done([])
    else
      var last := reqs[|reqs| - 1];
      match ResolvedLines(reqs[..|reqs| - 1], products)
      case Threw(x) => Threw(x)
      case Done(lines) =>
        if last.productId in products then Done(lines + [OrderLine(last, products[last.productId])])
        else Threw(NoSuchElement)
  }

  /** One more requested line: its order line is appended, or an unknown product throws. */
  lemma ResolvedLinesExtend(reqs: seq<OrderLineRequest>, i: nat, products: map<int, Product>, lines: seq<OrderProduct>)
    requires i < |reqs| && ResolvedLines(reqs[..i], products) == Done(lines)
    ensures ResolvedLines(reqs[..i + 1], products)
            == if reqs[i].productId in products then Done(lines + [OrderLine(reqs[i], products[reqs[i].productId])])
               else Threw(NoSuchElement)
  {
    assert reqs[..i + 1][..i] == reqs[..i];
  }

  lemma {:induction false} ResolvedLinesThrowPersists(reqs: seq<OrderLineRequest>, n: nat, products: map<int, Product>)
    requires n <= |reqs| && ResolvedLines(reqs[..n], products).Threw?
    ensures ResolvedLines(reqs, products) == ResolvedLines(reqs[..n], products)
    decreases |reqs| - n
  {
    if n < |reqs| {
      assert reqs[..n + 1][..n] == reqs[..n];
      ResolvedLinesThrowPersists(reqs, n + 1, products);
    } else {
      assert reqs[..n] == reqs;
    }
  }

  /**
    The lines resolve exactly when the catalogue has every requested
    product, and then line i snapshots request i and its product.
  */
  lemma {:induction false} ResolvedLinesMeaning(reqs: seq<OrderLineRequest>, products: map<int, Product>)
    ensures var r := ResolvedLines(reqs, products);
            && (r.Done? <==> forall i :: 0 <= i < |reqs| ==> reqs[i].productId in products)
            && (r.Done? ==> forall i :: 0 <= i < |reqs| ==> r.value[i] == OrderLine(reqs[i], products[reqs[i].productId]))
  {
    if reqs != [] {
      var init := reqs[..|reqs| - 1];
      ResolvedLinesMeaning(init, products);
      assert forall i :: 0 <= i < |init| ==> init[i] == reqs[i];
    }
  }

  /**
    The second loop of create: each line's tax rounded by its tax type,
    its subtotal (price times quantity, plus tax, minus discount), summed
    over the lines together with the taxes and the discounts.
  */
  method PriceLines(lines: seq<OrderProduct>) returns (total: real, totalTax: real, totalDiscount: real)
    ensures total == SumSubtotals(lines)
    ensures totalTax == SumTaxes(lines)
    ensures totalDiscount == SumDiscounts(lines)
  {
    total, totalTax, totalDiscount := 0.0, 0.0, 0.0;
    for k := 0 to |lines|
      invariant total == SumSubtotals(lines[..k])
      invariant totalTax == SumTaxes(lines[..k])
      invariant totalDiscount == SumDiscounts(lines[..k])
    {
      SumsExtend(lines, k);
      var line := lines[k];
      var tax := RoundTax(RawTax(line.price, line.quantity, line.taxType), line.taxType.rounding);
      var subTotal := line.price * line.quantity as real + tax - line.discount;
      SubtotalOfLine(line);
      total := total + subTotal;
      totalTax := totalTax + tax;
      totalDiscount := totalDiscount + line.discount;
    }
    assert lines[..|lines|] == lines;
  }

  class OrderService {
    var products: map<int, Product>
    var orders: map<int, Order>
    var deliveries: map<int, OrderDeliveries>
    var nextOrderId: int
    var nextDeliveryId: int

    /** Orders are stored under their own id, below the next id; the delivery store is valid. */
    predicate Valid()
      reads this
    {
      && (forall k :: k in orders ==> orders[k].id == k && k < nextOrderId)
      && StoreValid(deliveries, nextDeliveryId)
    }

    constructor (catalogue: map<int, Product>)
      ensures Valid()
      ensures products == catalogue && orders == map[] && deliveries == map[]
    {
      products := catalogue;
      orders := map[];
      deliveries := map[];
      nextOrderId := 1;
      nextDeliveryId := 1;
    }

    /**
      The first loop of create: each requested line becomes an order line
      holding a snapshot of its product; an unknown product id throws.
    */
    method ResolveLines(reqs: seq<OrderLineRequest>) returns (r: Outcome<seq<OrderProduct>>)
      ensures r == ResolvedLines(reqs, products)
    {
      var lines: seq<OrderProduct> := [];
      for i := 0 to |reqs|
        invariant ResolvedLines(reqs[..i], products) == Done(lines)
      {
        ResolvedLinesExtend(reqs, i, products, lines);
        var req := reqs[i];
        if req.productId !in products {
          r := Threw(NoSuchElement);
          ResolvedLinesThrowPersists(reqs, i + 1, products);
          return;
        }
        lines := lines + [OrderLine(req, products[req.productId])];
      }
      assert reqs[..|reqs|] == reqs;
      r := Done(lines);
    }

    /**
      create: copies the header of the form, snapshots each requested
      product into a line, prices the lines, and stores the order under a
      new id as ordered and unpaid with nothing paid.
    */
    method Create(form: CreateOrderForm) returns (r: Outcome<Order>)
      requires Valid()
      modifies this
      ensures Valid()
      ensures products == old(products) && deliveries == old(deliveries) && nextDeliveryId == old(nextDeliveryId)
      ensures r.Threw? <==> ResolvedLines(form.orderProducts, products).Threw?
      ensures r.Threw? ==> r.exception == NoSuchElement && orders == old(orders) && nextOrderId == old(nextOrderId)
      ensures r.Done? ==>
                var o := r.value;
                && o.id !in old(orders)
                && orders == old(orders)[o.id := o]
                && o.orderProducts == ResolvedLines(form.orderProducts, products).value
                && o.customerId == form.customerId && o.shipping == form.shipping
                && o.note == form.note && o.paymentMethod == form.paymentMethod
                && o.status == ORDERED && o.paymentStatus == UNPAID && o.paid == 0.0 && o.orderPayments == []
                && o.total == SumSubtotals(o.orderProducts)
                && o.tax == SumTaxes(o.orderProducts)
                && o.discount == SumDiscounts(o.orderProducts)
                && o.grandTotal == o.total + o.shipping
    {
      var resolved := ResolveLines(form.orderProducts);
      if resolved.Threw? {
        return Threw(resolved.exception);
      }
      var lines := resolved.value;
      var total, totalTax, totalDiscount := PriceLines(lines);
      var o := Order(nextOrderId, form.customerId, form.shipping, form.note, form.paymentMethod,
                     ORDERED, UNPAID, total, totalTax, totalDiscount, total + form.shipping, 0.0,
                     lines, []);
      orders := orders[o.id := o];
      nextOrderId := nextOrderId + 1;
      r := Done(o);
    }

    /**
      createPayment: appends the payment to the order's history, recomputes
      paid from the completed entries, sets the payment status only for a
      completed payment, and completes a shipping order that is now paid.
      An unknown order id makes Optional.get() throw.
    */
    method CreatePayment(orderId: int, payment: OrderPayment) returns (r: Outcome<()>)
      requires Valid()
      modifies this
      ensures Valid()
      ensures products == old(products) && deliveries == old(deliveries)
      ensures nextOrderId == old(nextOrderId) && nextDeliveryId == old(nextDeliveryId)
      ensures r.Done? <==> orderId in old(orders)
      ensures r.Threw? ==> r.exception == NoSuchElement && orders == old(orders)
      ensures r.Done? ==> orders == old(orders)[orderId := ApplyPayment(old(orders)[orderId], payment)]
    {
      if orderId !in orders {
        return Threw(NoSuchElement);
      }
      var order := orders[orderId];
      var payments := order.orderPayments + [payment];
      var paid := CompletedPaid(payments);
      var paymentStatus := DerivePaymentStatus(paid, order.grandTotal);
      order := order.(orderPayments := payments, paid := paid);
      if payment.kind == PAYMENT_COMPLETED {
        order := order.(paymentStatus := paymentStatus);
      }
      if order.status == SHIPPING && paymentStatus == PAID {
        order := order.(status := COMPLETED);
      }
      orders := orders[orderId := order];
      r := Done(());
    }

    /**
      The checks importPaymentCSV makes on one row, in its order: the five
      fields, the id (parsed unguarded), the stored order, the amount, the
      timestamp. The guarded re-parse of the id that follows the existence
      check cannot fail at that point and is not repeated here.
    */
    method CheckPaymentCsvRow(split: seq<string>, parseTs: TimestampParser) returns (c: PaymentRowCheck)
      ensures c == CheckPaymentRow(split, orders, parseTs)
    {
      if MissingField(split) {
        return Reject(MISSING_FIELDS);
      }
      var orderId := ParseLong(split[0]);
      if orderId.None? {
        return Throw(NumberFormat);
      }
      if orderId.value !in orders {
        return Reject(ORDER_NOT_FOUND);
      }
      var amount := ParseLong(split[2]);
      if amount.None? {
        return Reject(AMOUNT_NOT_NUMERIC);
      }
      var paidAt := parseTs(split[3]);
      if paidAt.None? {
        return Throw(IllegalArgument);
      }
      c := Apply(orderId.value, OrderPayment(split[1], amount.value as real, split[4], paidAt.value));
    }

    /**
      The body of importPaymentCSV: checks the rows in order and records
      each good row's payment at once; the first bad row ends the import
      with its one error, the payments before it kept.
    */
    method ApplyPaymentRows(rows: seq<string>, parseTs: TimestampParser) returns (r: Outcome<seq<string>>)
      requires Valid()
      modifies this
      ensures Valid()
      ensures products == old(products) && deliveries == old(deliveries)
      ensures nextOrderId == old(nextOrderId) && nextDeliveryId == old(nextDeliveryId)
      ensures r == ImportPaymentRows(old(orders), rows, parseTs).result
      ensures orders == ImportPaymentRows(old(orders), rows, parseTs).orders
    {
      var i := 0;
      while i < |rows|
        invariant 0 <= i <= |rows|
        invariant Valid()
        invariant products == old(products) && deliveries == old(deliveries)
        invariant nextOrderId == old(nextOrderId) && nextDeliveryId == old(nextDeliveryId)
        invariant ImportPaymentRows(old(orders), rows, parseTs) == ImportPaymentRows(orders, rows[i..], parseTs)
      {
        assert rows[i..][0] == rows[i] && rows[i..][1..] == rows[i + 1..];
        var check := CheckPaymentCsvRow(Fields(rows[i]), parseTs);
        CheckPaymentRowMeaning(Fields(rows[i]), orders, parseTs);
        match check {
          case Reject(e) =>
            return Done([e]);
          case Throw(x) =>
            return Threw(x);
          case Apply(orderId, payment) =>
            var done := CreatePayment(orderId, payment);
        }
        i := i + 1;
      }
      r := Done([]);
    }

    /**
      importPaymentCSV runs in one transaction: an exception rolls every
      payment of the import back; a returned error keeps them.
    */
    method ImportPaymentCsv(lines: seq<string>, parseTs: TimestampParser) returns (r: Outcome<seq<string>>)
      requires Valid()
      modifies this
      ensures Valid()
      ensures products == old(products) && deliveries == old(deliveries)
      ensures nextOrderId == old(nextOrderId) && nextDeliveryId == old(nextDeliveryId)
      ensures r == ImportPaymentRows(old(orders), DataLines(lines), parseTs).result
      ensures orders == if r.Threw? then old(orders) else ImportPaymentRows(old(orders), DataLines(lines), parseTs).orders
    {
      var snapshot := orders;
      r := ApplyPaymentRows(DataLines(lines), parseTs);
      // an exception rolls the transaction back
      orders := if r.Threw? then snapshot else orders;
    }

    /** importCSV: the stored orders named by the data rows, unknown ids skipped. */
    method ImportCsv(lines: seq<string>) returns (r: Outcome<seq<Order>>)
      ensures r == LookupRows(DataLines(lines), OrderLookup(orders))
    {
      var rows := DataLines(lines);
      var found: seq<Order> := [];
      for i := 0 to |rows|
        invariant LookupRows(rows[..i], OrderLookup(orders)) == Done(found)
      {
        LookupRowsExtend(rows, i, OrderLookup(orders), found);
        var split := Fields(rows[i]);
        assert OrderLookup(orders)(rows[i]) == LookupRow(split, orders);
        LookupRowCases(split, orders);
        if |split| < 1 {
          r := Threw(IndexOutOfBounds);
          LookupRowsThrowPersists(rows, i + 1, OrderLookup(orders));
          return;
        }
        var orderId := ParseLong(split[0]);
        if orderId.None? {
          r := Threw(NumberFormat);
          LookupRowsThrowPersists(rows, i + 1, OrderLookup(orders));
          return;
        }
        if orderId.value in orders {
          found := found + [orders[orderId.value]];
        }
      }
      assert rows[..|rows|] == rows;
      r := Done(found);
    }

    /** importCSVyoForm: one form row per data row, in order. */
    method ImportCsvToForm(lines: seq<string>, parseDate: DateParser) returns (r: Outcome<seq<OrderShippingList>>)
      ensures r == ParseRows(DataLines(lines), ShippingRowParser(parseDate))
    {
      r := ParseEachRow(DataLines(lines), ShippingRowParser(parseDate));
    }

    /** importOrderDeliveriesCSV: one staged delivery record per data row, in order. */
    method ImportOrderDeliveriesCsv(lines: seq<string>, parseDate: DateParser) returns (r: Outcome<seq<OrderDeliveries>>)
      ensures r == ParseRows(DataLines(lines), DeliveryParser(parseDate))
    {
      r := ParseEachRow(DataLines(lines), DeliveryParser(parseDate));
    }

    /** validate: every error of every data row, row by row; nothing is written. */
    method Validate(lines: seq<string>, parseDate: DateParser) returns (errors: seq<string>)
      ensures errors == AllRowErrors(DataLines(lines), parseDate)
    {
      var rows := DataLines(lines);
      errors := [];
      for i := 0 to |rows|
        invariant errors == AllRowErrors(rows[..i], parseDate)
      {
        AllRowErrorsExtend(rows, i, parseDate);
        var rowErrors := ValidateRow(Fields(rows[i]), parseDate);
        errors := errors + rowErrors;
      }
      assert rows[..|rows|] == rows;
    }

    /**
      save(OrderDeliveries): the record of the same order is overwritten in
      place, keeping its id; otherwise the record is inserted under a new id.
    */
    method Save(d: OrderDeliveries)
      requires Valid()
      modifies this
      ensures Valid()
      ensures deliveries == Upserted(old(deliveries), old(nextDeliveryId), d)
      ensures nextDeliveryId == NextIdAfter(old(deliveries), old(nextDeliveryId), d)
      ensures products == old(products) && orders == old(orders) && nextOrderId == old(nextOrderId)
    {
      UpsertKeepsStoreValid(deliveries, nextDeliveryId, d);
      if d.orderId in deliveries {
        var existing := deliveries[d.orderId];
        existing := existing.(shippingCode := d.shippingCode);
        existing := existing.(shippingDate := d.shippingDate);
        existing := existing.(deliveryDate := d.deliveryDate);
        existing := existing.(deliveryTimezone := d.deliveryTimezone);
        existing := existing.(uploadStatus := d.uploadStatus);
        deliveries := deliveries[d.orderId := existing];
      } else {
        deliveries := deliveries[d.orderId := d.(id := Some(nextDeliveryId))];
        nextDeliveryId := nextDeliveryId + 1;
      }
    }

    /**
      updateOrderStatus: the order becomes shipping, or completed when it is
      already paid; an unknown id throws.
    */
    method UpdateOrderStatus(orderId: int) returns (r: Outcome<()>)
      requires Valid()
      modifies this
      ensures Valid()
      ensures r.Done? <==> orderId in old(orders)
      ensures r.Threw? ==> r.exception == OrderNotFound && orders == old(orders)
      ensures r.Done? ==> orders == old(orders)[orderId := Shipped(old(orders)[orderId])]
      ensures products == old(products) && deliveries == old(deliveries)
      ensures nextOrderId == old(nextOrderId) && nextDeliveryId == old(nextDeliveryId)
    {
      if orderId !in orders {
        return Threw(OrderNotFound);
      }
      var order := orders[orderId];
      order := order.(status := SHIPPING);
      if order.paymentStatus == PAID {
        order := order.(status := COMPLETED);
      }
      orders := orders[orderId := order];
      r := Done(());
    }
  }

  /**
    The loop importCSVyoForm and importOrderDeliveriesCSV share: each data
    row is turned into a value and appended, in order; the first row that
    throws ends the loop with its exception.
  */
  method ParseEachRow<T>(rows: seq<string>, parse: RowParser<T>) returns (r: Outcome<seq<T>>)
    ensures r == ParseRows(rows, parse)
  {
    var values: seq<T> := [];
    for i := 0 to |rows|
      invariant ParseRows(rows[..i], parse) == Done(values)
    {
      ParseRowsExtend(rows, i, parse, values);
      var value := parse(rows[i]);
      if value.Threw? {
        r := Threw(value.exception);
        ParseRowsThrowPersists(rows, i + 1, parse);
        return;
      }
      values := values + [value.value];
    }
    assert rows[..|rows|] == rows;
    r := Done(values);
  }

  /**
    The checks validate makes on one row's fields, in its order: a missing
    field ends the row's checks; otherwise a non-numeric id, then a
    malformed shipping or delivery date.
  */
  method ValidateRow(split: seq<string>, parseDate: DateParser) returns (errors: seq<string>)
    ensures errors == RowErrors(split, parseDate)
  {
    if MissingField(split) {
      return [MISSING_FIELDS];
    }
    errors := [];
    if ParseLong(split[0]).None? {
      errors := errors + [ID_NOT_NUMERIC];
    }
    var date1 := parseDate(split[2]);
    if date1.None? || parseDate(split[3]).None? {
      errors := errors + [DATE_NOT_FORMATTED];
    }
  }
}
