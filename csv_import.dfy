/**
  The CSV uploads of OrderService, row by row. Every import skips the first
  line, deletes the double quotes of a line and splits it on commas the way
  String.split does. Shipment uploads are checked by validate (all errors
  collected) and parsed by two lenient parsers; payment uploads are checked
  and applied in one pass that stops at the first bad row.
  Date and timestamp parsing are parameters (string -> Option).
*/
module CsvImport {
  import opened JavaLang
  import opened Domain
  import opened Ledger

  const MISSING_FIELDS: string := "項目が足りない行があります。"
  const ID_NOT_NUMERIC: string := "受注IDが数値ではありません"
  const DATE_NOT_FORMATTED: string := "日付の形式がyyyy-MM-ddではありません"
  const ORDER_NOT_FOUND: string := "該当の受注がありません。"
  const AMOUNT_NOT_NUMERIC: string := "金額が数値ではありません"

  /** SimpleDateFormat("yyyy-MM-dd").parse: None where it throws ParseException. */
  type DateParser = string -> Option<Date>
  /** Timestamp.valueOf: None where it throws IllegalArgumentException. */
  type TimestampParser = string -> Option<Timestamp>

  /** The lines after the header line (readLine once, then loop until null). */
  function DataLines(lines: seq<string>): (rows: seq<string>)
    ensures |rows| == if lines == [] then 0 else |lines| - 1
    ensures forall i :: 0 <= i < |rows| ==> rows[i] == lines[i + 1]
  {
    if lines == [] then [] else lines[1..]
  }

  /** line.replace("\"", "").split(",") */
  function Fields(line: string): (f: seq<string>)
    ensures forall x :: x in f ==> ',' !in x
  {
    JavaSplit(RemoveQuotes(line), ',')
  }

  /** Fewer than five fields, or one of the first five empty. */
  predicate MissingField(f: seq<string>)
    ensures !MissingField(f) <==> |f| >= 5 && "" !in f[..5]
  {
    |f| < 5 || f[0] == "" || f[1] == "" || f[2] == "" || f[3] == "" || f[4] == ""
  }

  /**
    A line made by joining values without separators or quotes, the first
    one not empty, splits back to that first value in field 0.
  */
  lemma FieldsOfJoin(values: seq<string>)
    requires |values| >= 2 && values[0] != ""
    requires forall v :: v in values ==> ',' !in v && '"' !in v
    ensures |Fields(Join(values, ','))| >= 1 && Fields(Join(values, ','))[0] == values[0]
  {
    var line := Join(values, ',');
    SplitAllJoin(values, ',');
    JoinAvoids(values, ',', '"');
    assert line == values[0] + [','] + Join(values[1..], ',');
    assert line[|values[0]|] == ',';
    var kept := DropTrailingEmpty(values);
    assert |kept| >= 1;
  }

  // ---------------------------------------------------------------------
  // validate

  /** The errors validate adds for one row: at most two, and none exactly for a valid row. */
  function RowErrors(f: seq<string>, parseDate: DateParser): (errs: seq<string>)
    ensures |errs| <= 2
    ensures errs == [] <==> RowValid(f, parseDate)
  {
    if MissingField(f) then [MISSING_FIELDS]
    else
      (if ParseLong(f[0]).None? then [ID_NOT_NUMERIC] else [])
      + (if parseDate(f[2]).None? || parseDate(f[3]).None? then [DATE_NOT_FORMATTED] else [])
  }

  /**
    A row with a missing field reports that alone; any other row reports a
    non-numeric id and a malformed date, each exactly when it is so.
  */
  lemma RowErrorsMeaning(f: seq<string>, parseDate: DateParser)
    ensures var errs := RowErrors(f, parseDate);
            && (MissingField(f) ==> errs == [MISSING_FIELDS])
            && (!MissingField(f) ==> |errs| <= 2 && MISSING_FIELDS !in errs)
            && (!MissingField(f) ==> (ID_NOT_NUMERIC in errs <==> ParseLong(f[0]).None?))
            && (!MissingField(f) ==> (DATE_NOT_FORMATTED in errs <==> parseDate(f[2]).None? || parseDate(f[3]).None?))
  {
    assert MISSING_FIELDS != ID_NOT_NUMERIC && MISSING_FIELDS != DATE_NOT_FORMATTED && ID_NOT_NUMERIC != DATE_NOT_FORMATTED;
  }

  /** A row validate accepts. */
  predicate RowValid(f: seq<string>, parseDate: DateParser)
  {
    !MissingField(f) && ParseLong(f[0]).Some? && parseDate(f[2]).Some? && parseDate(f[3]).Some?
  }

  /** A data line validate accepts. */
  predicate ValidLine(line: string, parseDate: DateParser)
  {
    RowValid(Fields(line), parseDate)
  }

  /** The errors of rows, row by row in order (validate's loop over the data lines); at most two per row. */
  function AllRowErrors(rows: seq<string>, parseDate: DateParser): (errs: seq<string>)
    ensures |errs| <= 2 * |rows|
  {
    if rows == [] then []
    else AllRowErrors(rows[..|rows| - 1], parseDate) + RowErrors(Fields(rows[|rows| - 1]), parseDate)
  }

  lemma AllRowErrorsExtend(rows: seq<string>, i: nat, parseDate: DateParser)
    requires i < |rows|
    ensures AllRowErrors(rows[..i + 1], parseDate) == AllRowErrors(rows[..i], parseDate) + RowErrors(Fields(rows[i]), parseDate)
  {
    assert rows[..i + 1][..i] == rows[..i];
  }

  function CountBadRows(rows: seq<string>, parseDate: DateParser): nat
  {
    if rows == [] then 0
    else CountBadRows(rows[..|rows| - 1], parseDate) + (if ValidLine(rows[|rows| - 1], parseDate) then 0 else 1)
  }

  /** One more row leaves validate clean exactly when the rows before were clean and the new row is valid. */
  lemma AllRowErrorsStep(rows: seq<string>, parseDate: DateParser)
    requires rows != []
    ensures AllRowErrors(rows, parseDate) == [] <==>
              AllRowErrors(rows[..|rows| - 1], parseDate) == [] && ValidLine(rows[|rows| - 1], parseDate)
  {
    var a, b := AllRowErrors(rows[..|rows| - 1], parseDate), RowErrors(Fields(rows[|rows| - 1]), parseDate);
    assert |a + b| == |a| + |b|;
  }

  predicate AllLinesValid(rows: seq<string>, parseDate: DateParser)
  {
    forall line :: line in rows ==> ValidLine(line, parseDate)
  }

  lemma AllLinesValidStep(rows: seq<string>, parseDate: DateParser)
    requires rows != []
    ensures AllLinesValid(rows, parseDate) <==>
              AllLinesValid(rows[..|rows| - 1], parseDate) && ValidLine(rows[|rows| - 1], parseDate)
  {
    assert rows == rows[..|rows| - 1] + [rows[|rows| - 1]];
  }

  /** Validation passes exactly when every data row is valid. */
  lemma {:induction false} ValidatePassesIff(rows: seq<string>, parseDate: DateParser)
    ensures AllRowErrors(rows, parseDate) == [] <==> AllLinesValid(rows, parseDate)
  {
    if rows != [] {
      ValidatePassesIff(rows[..|rows| - 1], parseDate);
      AllRowErrorsStep(rows, parseDate);
      AllLinesValidStep(rows, parseDate);
    }
  }

  /** Each bad row reports one or two errors, so errors are never fewer than bad rows nor more than twice as many. */
  lemma {:induction false} ValidateCountsBadRows(rows: seq<string>, parseDate: DateParser)
    ensures CountBadRows(rows, parseDate) <= |AllRowErrors(rows, parseDate)| <= 2 * CountBadRows(rows, parseDate)
  {
    if rows != [] {
      ValidateCountsBadRows(rows[..|rows| - 1], parseDate);
      RowErrorsMeaning(Fields(rows[|rows| - 1]), parseDate);
    }
  }

  /** A row with a missing field reports exactly one error, and validation goes on with the rows after it. */
  lemma MissingFieldRowReportsOnce(rows: seq<string>, row: string, more: seq<string>, parseDate: DateParser)
    requires MissingField(Fields(row))
    ensures AllRowErrors(rows + [row] + more, parseDate)
            == AllRowErrors(rows, parseDate) + [MISSING_FIELDS] + AllRowErrors(more, parseDate)
  {
    AllRowErrorsAppend(rows + [row], more, parseDate);
    assert (rows + [row])[..|rows|] == rows;
  }

  lemma AllRowErrorsLast(rows: seq<string>, parseDate: DateParser)
    requires rows != []
    ensures AllRowErrors(rows, parseDate) == AllRowErrors(rows[..|rows| - 1], parseDate) + RowErrors(Fields(rows[|rows| - 1]), parseDate)
  {
  }

  lemma AppendDropLast<T>(a: seq<T>, b: seq<T>)
    requires b != []
    ensures (a + b)[..|a + b| - 1] == a + b[..|b| - 1] && (a + b)[|a + b| - 1] == b[|b| - 1]
  {
  }

  lemma ConcatAssoc<T>(a: seq<T>, b: seq<T>, c: seq<T>)
    ensures (a + b) + c == a + (b + c)
  {
  }

  lemma {:induction false} AllRowErrorsAppend(rows: seq<string>, more: seq<string>, parseDate: DateParser)
    ensures AllRowErrors(rows + more, parseDate) == AllRowErrors(rows, parseDate) + AllRowErrors(more, parseDate)
    decreases |more|
  {
    if more == [] {
      assert rows + more == rows;
    } else {
      var init := more[..|more| - 1];
      AppendDropLast(rows, more);
      AllRowErrorsLast(rows + more, parseDate);
      AllRowErrorsLast(more, parseDate);
      AllRowErrorsAppend(rows, init, parseDate);
      ConcatAssoc(AllRowErrors(rows, parseDate), AllRowErrors(init, parseDate), RowErrors(Fields(more[|more| - 1]), parseDate));
    }
  }

  // ---------------------------------------------------------------------
  // importOrderDeliveriesCSV, one row

  /**
    One staged delivery record. split[2] and split[3] are parsed first; a
    ParseException of the first skips the second, so the shipping date is
    kept when only the delivery date fails. Then the id is parsed and
    fields 1 and 4 are read. Reading past the end of the fields throws.
  */
  function DeliveryFromFields(f: seq<string>, parseDate: DateParser): (r: Outcome<OrderDeliveries>)
    ensures r.Done? <==> |f| >= 5 && ParseLong(f[0]).Some?
    ensures r.Threw? ==> r.exception == IndexOutOfBounds || r.exception == NumberFormat
    ensures r.Done? ==> (r.value.id.None? && r.value.orderId == ParseLong(f[0]).value
                         && r.value.shippingCode == f[1] && r.value.deliveryTimezone == f[4]
                         && r.value.uploadStatus.None?)
    ensures r.Done? ==> r.value.shippingDate == parseDate(f[2])
    ensures r.Done? ==> r.value.deliveryDate == if parseDate(f[2]).Some? then parseDate(f[3]) else None
  {
    if |f| < 3 then Threw(IndexOutOfBounds)
    else
      var date1 := parseDate(f[2]);
      if date1.Some? && |f| < 4 then Threw(IndexOutOfBounds)
      else
        var date2 := if date1.Some? then parseDate(f[3]) else None;
        var id := ParseLong(f[0]);
        if id.None? then Threw(NumberFormat)
        else if |f| < 5 then Threw(IndexOutOfBounds)
        else Done(OrderDeliveries(None, id.value, f[1], date1, date2, f[4], None))
  }

  // ---------------------------------------------------------------------
  // createOrderShippingListFromCSV, one row

  /**
    One form row: unchecked, no upload status, the id and code read first;
    the two dates are set together or not at all.
  */
  function ShippingRowFromFields(f: seq<string>, parseDate: DateParser): (r: Outcome<OrderShippingList>)
    ensures r.Done? <==> |f| >= 5 && ParseLong(f[0]).Some?
    ensures r.Threw? ==> r.exception == IndexOutOfBounds || r.exception == NumberFormat
    ensures r.Done? ==> (!r.value.checked && r.value.uploadStatus.None?
                         && r.value.orderId == ParseLong(f[0]).value
                         && r.value.shippingCode == f[1] && r.value.deliveryTimezone == f[4])
    ensures r.Done? ==> (r.value.shippingDate.Some? <==> r.value.deliveryDate.Some?)
    ensures r.Done? && r.value.shippingDate.Some? ==>
              r.value.shippingDate == parseDate(f[2]) && r.value.deliveryDate == parseDate(f[3])
    ensures r.Done? ==> (r.value.shippingDate.Some? <==> parseDate(f[2]).Some? && parseDate(f[3]).Some?)
  {
    if |f| < 1 then Threw(IndexOutOfBounds)
    else
      var id := ParseLong(f[0]);
      if id.None? then Threw(NumberFormat)
      else if |f| < 3 then Threw(IndexOutOfBounds)
      else
        var date1 := parseDate(f[2]);
        if date1.Some? && |f| < 4 then Threw(IndexOutOfBounds)
        else
          var date2 := if date1.Some? then parseDate(f[3]) else None;
          var both := date1.Some? && date2.Some?;
          if |f| < 5 then Threw(IndexOutOfBounds)
          else Done(OrderShippingList(false, id.value, f[1],
                                      if both then date1 else None,
                                      if both then date2 else None,
                                      f[4], None))
  }

  /**
    A row that validate accepts is parsed by both parsers without an
    exception and with both dates set.
  */
  lemma ValidRowParses(f: seq<string>, parseDate: DateParser)
    requires RowValid(f, parseDate)
    ensures DeliveryFromFields(f, parseDate).Done?
    ensures DeliveryFromFields(f, parseDate).value.shippingDate.Some?
    ensures DeliveryFromFields(f, parseDate).value.deliveryDate.Some?
    ensures ShippingRowFromFields(f, parseDate).Done?
    ensures ShippingRowFromFields(f, parseDate).value.shippingDate.Some?
  {
  }

  /**
    The two parsers differ only on dates: on a row whose delivery date alone
    fails, the staged record keeps its shipping date and the form row has none.
  */
  lemma ParsersDisagreeOnHalfDates(f: seq<string>, parseDate: DateParser)
    requires |f| >= 5 && ParseLong(f[0]).Some?
    requires parseDate(f[2]).Some? && parseDate(f[3]).None?
    ensures DeliveryFromFields(f, parseDate).value.shippingDate.Some?
    ensures DeliveryFromFields(f, parseDate).value.deliveryDate.None?
    ensures ShippingRowFromFields(f, parseDate).value.shippingDate.None?
  {
  }

  // ---------------------------------------------------------------------
  // importCSV, one row

  /** The order named by a row, if the store has it; Long.valueOf(split[0]) may throw. */
  function LookupRow(f: seq<string>, orders: map<int, Order>): (r: Outcome<Option<Order>>)
    ensures r.Done? <==> |f| >= 1 && ParseLong(f[0]).Some?
    ensures r.Done? ==> (r.value.Some? <==> ParseLong(f[0]).value in orders)
    ensures r.Done? && r.value.Some? ==> r.value.value == orders[ParseLong(f[0]).value]
  {
    if |f| < 1 then Threw(IndexOutOfBounds)
    else
      var id := ParseLong(f[0]);
      if id.None? then Threw(NumberFormat)
      else if id.value in orders then Done(Some(orders[id.value]))
      else Done(None)
  }

  /** The outcome of one row's lookup, branch by branch. */
  lemma LookupRowCases(f: seq<string>, orders: map<int, Order>)
    ensures |f| < 1 ==> LookupRow(f, orders) == Threw(IndexOutOfBounds)
    ensures |f| >= 1 && ParseLong(f[0]).None? ==> LookupRow(f, orders) == Threw(NumberFormat)
    ensures |f| >= 1 && ParseLong(f[0]).Some? && ParseLong(f[0]).value in orders ==>
              LookupRow(f, orders) == Done(Some(orders[ParseLong(f[0]).value]))
    ensures |f| >= 1 && ParseLong(f[0]).Some? && ParseLong(f[0]).value !in orders ==>
              LookupRow(f, orders) == Done(None)
  {
  }

  // ---------------------------------------------------------------------
  // importPaymentCSV

  /** What one payment row does when the import reaches it. */
  datatype PaymentRowCheck =
    | Apply(orderId: int, payment: OrderPayment)   // passes every check: createPayment
    | Reject(error: string)                        // returns this one error
    | Throw(exception: JavaException)              // an exception leaves the import

  /**
    The checks of one payment row, in the order of the code. The id is parsed
    unguarded before the existence check, so a non-numeric id throws; the
    guarded re-parse of the id that follows can then never fail.
  */
  function CheckPaymentRow(f: seq<string>, orders: map<int, Order>, parseTs: TimestampParser): (r: PaymentRowCheck)
    ensures r.Apply? ==> r.orderId in orders
  {
    if MissingField(f) then Reject(MISSING_FIELDS)
    else
      var id := ParseLong(f[0]);
      if id.None? then Throw(NumberFormat)
      else if id.value !in orders then Reject(ORDER_NOT_FOUND)
      else if ParseLong(f[0]).None? then Reject(ID_NOT_NUMERIC)
      else
        var amount := ParseLong(f[2]);
        if amount.None? then Reject(AMOUNT_NOT_NUMERIC)
        else
          var paidAt := parseTs(f[3]);
          if paidAt.None? then Throw(IllegalArgument)
          else Apply(id.value, OrderPayment(f[1], amount.value as real, f[4], paidAt.value))
  }

  /**
    A row passes when its five fields are there, its id names a stored
    order, its amount is a whole number and its timestamp is well formed,
    and then it yields the payment those fields describe. Otherwise it is
    refused with one of three errors, or throws on a non-numeric id or a
    malformed timestamp.
  */
  lemma CheckPaymentRowMeaning(f: seq<string>, orders: map<int, Order>, parseTs: TimestampParser)
    ensures var c := CheckPaymentRow(f, orders, parseTs);
            && (c.Apply? ==> !MissingField(f) && c.orderId in orders && ParseLong(f[0]) == Some(c.orderId))
            && (c.Apply? ==> (c.payment.kind == f[1] && c.payment.paymentMethod == f[4]
                              && ParseLong(f[2]) == Some(c.payment.paid.Floor)
                              && c.payment.paid == c.payment.paid.Floor as real
                              && parseTs(f[3]) == Some(c.payment.paidAt)))
            && (c.Reject? ==> c.error in {MISSING_FIELDS, ORDER_NOT_FOUND, AMOUNT_NOT_NUMERIC})
            && (c.Throw? ==> c.exception == NumberFormat || c.exception == IllegalArgument)
  {
  }

  /** The order store and the returned errors (or the exception) after an import. */
  datatype PaymentImport = PaymentImport(result: Outcome<seq<string>>, orders: map<int, Order>)

  /**
    importPaymentCSV over the data rows: each good row goes through
    createPayment at once; the first bad row ends the import.
  */
  function ImportPaymentRows(orders: map<int, Order>, rows: seq<string>, parseTs: TimestampParser): (r: PaymentImport)
    ensures r.result.Done? ==> |r.result.value| <= 1
    decreases |rows|
  {
    if rows == [] then PaymentImport(Done([]), orders)
    else
      match CheckPaymentRow(Fields(rows[0]), orders, parseTs)
      case Reject(e) => PaymentImport(Done([e]), orders)
      case Throw(x) => PaymentImport(Threw(x), orders)
      case Apply(id, p) => ImportPaymentRows(orders[id := ApplyPayment(orders[id], p)], rows[1..], parseTs)
  }

  /**
    Which check refuses a row, in the order of the code: a missing field is
    reported, a non-numeric id throws NumberFormatException, an unknown
    order and a non-numeric amount are reported, and a malformed timestamp
    throws IllegalArgumentException.
  */
  lemma CheckPaymentRowOutcomes(f: seq<string>, orders: map<int, Order>, parseTs: TimestampParser)
    ensures var c := CheckPaymentRow(f, orders, parseTs);
            && (MissingField(f) ==> c == Reject(MISSING_FIELDS))
            && (!MissingField(f) && ParseLong(f[0]).None? ==> c == Throw(NumberFormat))
            && ((!MissingField(f) && ParseLong(f[0]).Some? && ParseLong(f[0]).value !in orders)
                ==> c == Reject(ORDER_NOT_FOUND))
            && ((!MissingField(f) && ParseLong(f[0]).Some? && ParseLong(f[0]).value in orders
                 && ParseLong(f[2]).None?) ==> c == Reject(AMOUNT_NOT_NUMERIC))
            && ((!MissingField(f) && ParseLong(f[0]).Some? && ParseLong(f[0]).value in orders
                 && ParseLong(f[2]).Some? && parseTs(f[3]).None?) ==> c == Throw(IllegalArgument))
  {
  }

  /**
    The import stops at the first bad row: the rows before it stay applied,
    the bad row's error is returned (or its exception thrown), and the rows
    after it are never read.
  */
  lemma PaymentImportStopsAtFirstBadRow(
    orders: map<int, Order>, rows: seq<string>, k: nat, parseTs: TimestampParser)
    requires k < |rows|
    requires ImportPaymentRows(orders, rows[..k], parseTs).result == Done([])
    requires !CheckPaymentRow(Fields(rows[k]), ImportPaymentRows(orders, rows[..k], parseTs).orders, parseTs).Apply?
    ensures var applied := ImportPaymentRows(orders, rows[..k], parseTs).orders;
            var c := CheckPaymentRow(Fields(rows[k]), applied, parseTs);
            && (c.Reject? ==> ImportPaymentRows(orders, rows, parseTs) == PaymentImport(Done([c.error]), applied))
            && (c.Throw? ==> ImportPaymentRows(orders, rows, parseTs) == PaymentImport(Threw(c.exception), applied))
  {
    CleanPrefixComposes(orders, rows, k, parseTs);
    assert rows[k..][0] == rows[k];
  }

  /** A prefix that imports cleanly hands its order store on to the rest of the rows. */
  lemma {:induction false} CleanPrefixComposes(orders: map<int, Order>, rows: seq<string>, k: nat, parseTs: TimestampParser)
    requires k <= |rows| && ImportPaymentRows(orders, rows[..k], parseTs).result == Done([])
    ensures ImportPaymentRows(orders, rows, parseTs)
            == ImportPaymentRows(ImportPaymentRows(orders, rows[..k], parseTs).orders, rows[k..], parseTs)
    decreases k
  {
    if k == 0 {
      assert rows[..k] == [] && rows[k..] == rows;
    } else {
      CleanPrefixStep(orders, rows, k, parseTs);
      CleanPrefixComposes(AfterFirstRow(orders, rows[0], parseTs), rows[1..], k - 1, parseTs);
      SliceAfterFirst(rows, k);
    }
  }

  /** The order store after a passing row's payment is applied (unchanged for any other row). */
  function AfterFirstRow(orders: map<int, Order>, row: string, parseTs: TimestampParser): map<int, Order>
  {
    match CheckPaymentRow(Fields(row), orders, parseTs)
    case Apply(id, p) => orders[id := ApplyPayment(orders[id], p)]
    case _ => orders
  }

  lemma CleanPrefixStep(orders: map<int, Order>, rows: seq<string>, k: nat, parseTs: TimestampParser)
    requires 0 < k <= |rows| && ImportPaymentRows(orders, rows[..k], parseTs).result == Done([])
    ensures var next := AfterFirstRow(orders, rows[0], parseTs);
            && ImportPaymentRows(orders, rows[..k], parseTs) == ImportPaymentRows(next, rows[1..][..k - 1], parseTs)
            && ImportPaymentRows(orders, rows, parseTs) == ImportPaymentRows(next, rows[1..], parseTs)
  {
    CleanImportAppliesFirstRow(orders, rows[..k], parseTs);
    SliceAfterFirst(rows, k);
    AppliedFirstRow(orders, rows, parseTs);
  }

  lemma SliceAfterFirst<T>(s: seq<T>, k: nat)
    requires 0 < k <= |s|
    ensures s[..k][0] == s[0] && s[..k][1..] == s[1..][..k - 1] && s[1..][k - 1..] == s[k..]
  {
  }

  /** A first row that passes is applied, and the import carries on with the rest. */
  lemma AppliedFirstRow(orders: map<int, Order>, rows: seq<string>, parseTs: TimestampParser)
    requires rows != [] && CheckPaymentRow(Fields(rows[0]), orders, parseTs).Apply?
    ensures var c := CheckPaymentRow(Fields(rows[0]), orders, parseTs);
            ImportPaymentRows(orders, rows, parseTs)
            == ImportPaymentRows(orders[c.orderId := ApplyPayment(orders[c.orderId], c.payment)], rows[1..], parseTs)
  {
  }

  /** An import that ends cleanly applied its first row and went on from there. */
  lemma CleanImportAppliesFirstRow(orders: map<int, Order>, rows: seq<string>, parseTs: TimestampParser)
    requires rows != [] && ImportPaymentRows(orders, rows, parseTs).result == Done([])
    ensures var c := CheckPaymentRow(Fields(rows[0]), orders, parseTs);
            && c.Apply?
            && ImportPaymentRows(orders, rows, parseTs)
               == ImportPaymentRows(orders[c.orderId := ApplyPayment(orders[c.orderId], c.payment)], rows[1..], parseTs)
  {
  }

  /** The import reports at most one error, and never the non-numeric-id one. */
  lemma {:induction false} PaymentImportReportsAtMostOne(orders: map<int, Order>, rows: seq<string>, parseTs: TimestampParser)
    ensures var r := ImportPaymentRows(orders, rows, parseTs).result;
            r.Done? ==> |r.value| <= 1 && ID_NOT_NUMERIC !in r.value
    decreases |rows|
  {
    if rows != [] {
      var c := CheckPaymentRow(Fields(rows[0]), orders, parseTs);
      CheckPaymentRowMeaning(Fields(rows[0]), orders, parseTs);
      if c.Apply? {
        PaymentImportReportsAtMostOne(orders[c.orderId := ApplyPayment(orders[c.orderId], c.payment)], rows[1..], parseTs);
      }
    }
  }

  /** Order a's history is order b's with entries appended, and nothing but the ledger fields differ. */
  predicate LedgerExtends(a: Order, b: Order)
  {
    && |a.orderPayments| <= |b.orderPayments|
    && b.orderPayments[..|a.orderPayments|] == a.orderPayments
    && b.(orderPayments := a.orderPayments, paid := a.paid, paymentStatus := a.paymentStatus, status := a.status) == a
  }

  /**
    Whatever happens, the import neither adds nor removes orders, and every
    order only gains payments at the end of its history (with its paid
    amount, payment status and status updated by createPayment).
  */
  lemma {:induction false} PaymentImportOnlyAppends(orders: map<int, Order>, rows: seq<string>, parseTs: TimestampParser)
    ensures var after := ImportPaymentRows(orders, rows, parseTs).orders;
            after.Keys == orders.Keys && forall k :: k in orders ==> LedgerExtends(orders[k], after[k])
    decreases |rows|
  {
    var after := ImportPaymentRows(orders, rows, parseTs).orders;
    if rows != [] && CheckPaymentRow(Fields(rows[0]), orders, parseTs).Apply? {
      var c := CheckPaymentRow(Fields(rows[0]), orders, parseTs);
      var next := orders[c.orderId := ApplyPayment(orders[c.orderId], c.payment)];
      PaymentImportOnlyAppends(next, rows[1..], parseTs);
      assert after == ImportPaymentRows(next, rows[1..], parseTs).orders;
      forall k | k in orders ensures LedgerExtends(orders[k], after[k]) {
        if k == c.orderId {
          PaymentExtendsLedger(orders[k], c.payment);
        } else {
          LedgerExtendsReflexive(orders[k]);
        }
        LedgerExtendsTransitive(orders[k], next[k], after[k]);
      }
    } else {
      assert after == orders;
      forall k | k in orders ensures LedgerExtends(orders[k], after[k]) {
        LedgerExtendsReflexive(orders[k]);
      }
    }
  }

  lemma LedgerExtendsReflexive(o: Order)
    ensures LedgerExtends(o, o)
  {
    assert o.orderPayments[..|o.orderPayments|] == o.orderPayments;
  }

  /** One payment extends the order's ledger. */
  lemma PaymentExtendsLedger(o: Order, p: OrderPayment)
    ensures LedgerExtends(o, ApplyPayment(o, p))
  {
    assert ApplyPayment(o, p).orderPayments[..|o.orderPayments|] == o.orderPayments;
  }

  lemma LedgerExtendsTransitive(a: Order, b: Order, c: Order)
    requires LedgerExtends(a, b) && LedgerExtends(b, c)
    ensures LedgerExtends(a, c)
  {
    assert c.orderPayments[..|a.orderPayments|] == b.orderPayments[..|a.orderPayments|];
  }

  /** A data row the import accepts when it reaches it, given the ids in the store. */
  predicate GoodPaymentRow(f: seq<string>, ids: set<int>, parseTs: TimestampParser)
  {
    && !MissingField(f)
    && ParseLong(f[0]).Some? && ParseLong(f[0]).value in ids
    && ParseLong(f[2]).Some?
    && parseTs(f[3]).Some?
  }

  /** A row passes every check exactly when it is a good row. */
  lemma CheckPassesIffGood(f: seq<string>, orders: map<int, Order>, parseTs: TimestampParser)
    ensures CheckPaymentRow(f, orders, parseTs).Apply? <==> GoodPaymentRow(f, orders.Keys, parseTs)
  {
  }

  /**
    The import returns no error and throws nothing exactly when every data
    row names a stored order and has a whole amount and a valid timestamp.
  */
  lemma {:induction false} PaymentImportCleanIff(orders: map<int, Order>, rows: seq<string>, parseTs: TimestampParser)
    ensures ImportPaymentRows(orders, rows, parseTs).result == Done([])
            <==> forall line :: line in rows ==> GoodPaymentRow(Fields(line), orders.Keys, parseTs)
    decreases |rows|
  {
    if rows != [] {
      var c := CheckPaymentRow(Fields(rows[0]), orders, parseTs);
      CheckPaymentRowMeaning(Fields(rows[0]), orders, parseTs);
      CheckPassesIffGood(Fields(rows[0]), orders, parseTs);
      assert forall line :: line in rows <==> line == rows[0] || line in rows[1..];
      if c.Apply? {
        var next := orders[c.orderId := ApplyPayment(orders[c.orderId], c.payment)];
        assert next.Keys == orders.Keys;
        PaymentImportCleanIff(next, rows[1..], parseTs);
      }
    }
  }

  // ---------------------------------------------------------------------
  // Whole files: importOrderDeliveriesCSV, importCSVyoForm, importCSV

  /** A row parser of the shipment side, as one function of the data line. */
  type RowParser<T> = string -> Outcome<T>

  function DeliveryParser(parseDate: DateParser): RowParser<OrderDeliveries>
  {
    line => DeliveryFromFields(Fields(line), parseDate)
  }

  function ShippingRowParser(parseDate: DateParser): RowParser<OrderShippingList>
  {
    line => ShippingRowFromFields(Fields(line), parseDate)
  }

  /**
    Parsing the data rows in order, appending one value per row; the first
    row that throws ends the import with its exception.
  */
  function ParseRows<T>(rows: seq<string>, parse: RowParser<T>): (r: Outcome<seq<T>>)
    ensures r.Done? ==> |r.value| == |rows|
  {
    if rows == [] then Done([])
    else
      match ParseRows(rows[..|rows| - 1], parse)
      case Threw(x) => Threw(x)
      case Done(values) =>
        match parse(rows[|rows| - 1])
        case Threw(x) => Threw(x)
        case Done(v) => Done(values + [v])
  }

  /** One more row: its value is appended, or its exception ends the parse. */
  lemma ParseRowsExtend<T>(rows: seq<string>, i: nat, parse: RowParser<T>, values: seq<T>)
    requires i < |rows| && ParseRows(rows[..i], parse) == Done(values)
    ensures ParseRows(rows[..i + 1], parse)
            == match parse(rows[i]) case Threw(x) => Threw(x) case Done(v) => Done(values + [v])
  {
    assert rows[..i + 1][..i] == rows[..i];
  }

  /** Once a prefix of the rows throws, every longer prefix throws the same. */
  lemma {:induction false} ParseRowsThrowPersists<T>(rows: seq<string>, n: nat, parse: RowParser<T>)
    requires n <= |rows| && ParseRows(rows[..n], parse).Threw?
    ensures ParseRows(rows, parse) == ParseRows(rows[..n], parse)
    decreases |rows| - n
  {
    if n < |rows| {
      assert rows[..n + 1][..n] == rows[..n];
      ParseRowsThrowPersists(rows, n + 1, parse);
    } else {
      assert rows[..n] == rows;
    }
  }

  /**
    The parse succeeds exactly when every row parses, and then holds each
    row's value at the row's index; an exception is that of some row whose
    predecessors all parsed.
  */
  lemma {:induction false} ParseRowsMeaning<T>(rows: seq<string>, parse: RowParser<T>)
    ensures var r := ParseRows(rows, parse);
            && (r.Done? <==> forall i :: 0 <= i < |rows| ==> parse(rows[i]).Done?)
            && (r.Done? ==> forall i :: 0 <= i < |rows| ==> r.value[i] == parse(rows[i]).value)
            && (r.Threw? ==> exists i :: 0 <= i < |rows| && parse(rows[i]) == Threw(r.exception)
                                        && forall j :: 0 <= j < i ==> parse(rows[j]).Done?)
  {
    if rows != [] {
      var n := |rows| - 1;
      var init := rows[..n];
      ParseRowsMeaning(init, parse);
      assert forall i :: 0 <= i < n ==> init[i] == rows[i];
      var r := ParseRows(rows, parse);
      if ParseRows(init, parse).Threw? {
        var i :| 0 <= i < n && parse(init[i]) == Threw(ParseRows(init, parse).exception)
                 && forall j :: 0 <= j < i ==> parse(init[j]).Done?;
        assert parse(rows[i]) == Threw(r.exception);
      }
    }
  }

  /** A file whose rows all pass validate imports completely: one staged record per row, both dates set. */
  lemma {:induction false} ValidFileStagesEveryRow(rows: seq<string>, parseDate: DateParser)
    requires AllRowErrors(rows, parseDate) == []
    ensures ParseRows(rows, DeliveryParser(parseDate)).Done?
    ensures var staged := ParseRows(rows, DeliveryParser(parseDate)).value;
            |staged| == |rows| && forall i :: 0 <= i < |staged| ==> staged[i].shippingDate.Some? && staged[i].deliveryDate.Some?
  {
    ValidatePassesIff(rows, parseDate);
    var parse := DeliveryParser(parseDate);
    forall i | 0 <= i < |rows|
      ensures parse(rows[i]).Done? && parse(rows[i]).value.shippingDate.Some? && parse(rows[i]).value.deliveryDate.Some?
    {
      assert rows[i] in rows;
      ValidLineParses(rows[i], parseDate);
    }
    ParseRowsMeaning(rows, parse);
    var staged := ParseRows(rows, parse).value;
    forall i | 0 <= i < |staged| ensures staged[i].shippingDate.Some? && staged[i].deliveryDate.Some? {
      assert staged[i] == parse(rows[i]).value;
    }
  }

  lemma ValidLineParses(line: string, parseDate: DateParser)
    requires ValidLine(line, parseDate)
    ensures DeliveryParser(parseDate)(line).Done?
    ensures DeliveryParser(parseDate)(line).value.shippingDate.Some?
    ensures DeliveryParser(parseDate)(line).value.deliveryDate.Some?
  {
    ValidRowParses(Fields(line), parseDate);
  }

  /** importCSV's handling of one data line, as one function of the line. */
  type RowLookup = string -> Outcome<Option<Order>>

  function OrderLookup(orders: map<int, Order>): RowLookup
  {
    line => LookupRow(Fields(line), orders)
  }

  /**
    importCSV: the orders the rows name, in row order, rows naming no
    order skipped; the first row that throws ends the import.
  */
  function LookupRows(rows: seq<string>, look: RowLookup): (r: Outcome<seq<Order>>)
    ensures r.Done? ==> |r.value| <= |rows|
  {
    if rows == [] then Done([])
    else
      match LookupRows(rows[..|rows| - 1], look)
      case Threw(x) => Threw(x)
      case Done(found) =>
        match look(rows[|rows| - 1])
        case Threw(x) => Threw(x)
        case Done(None) => Done(found)
        case Done(Some(o)) => Done(found + [o])
  }

  /** One more row: its order is appended, a row naming none skipped, an exception ends the import. */
  lemma LookupRowsExtend(rows: seq<string>, i: nat, look: RowLookup, found: seq<Order>)
    requires i < |rows| && LookupRows(rows[..i], look) == Done(found)
    ensures LookupRows(rows[..i + 1], look)
            == match look(rows[i])
               case Threw(x) => Threw(x)
               case Done(None) => Done(found)
               case Done(Some(o)) => Done(found + [o])
  {
    assert rows[..i + 1][..i] == rows[..i];
  }

  lemma {:induction false} LookupRowsThrowPersists(rows: seq<string>, n: nat, look: RowLookup)
    requires n <= |rows| && LookupRows(rows[..n], look).Threw?
    ensures LookupRows(rows, look) == LookupRows(rows[..n], look)
    decreases |rows| - n
  {
    if n < |rows| {
      assert rows[..n + 1][..n] == rows[..n];
      LookupRowsThrowPersists(rows, n + 1, look);
    } else {
      assert rows[..n] == rows;
    }
  }

  /**
    The import succeeds exactly when no row throws, and then every order
    it returns is one that some row names.
  */
  lemma {:induction false} LookupRowsMeaning(rows: seq<string>, look: RowLookup)
    ensures var r := LookupRows(rows, look);
            && (r.Done? <==> forall line :: line in rows ==> look(line).Done?)
            && (r.Done? ==> forall o :: o in r.value ==> exists line :: line in rows && look(line) == Done(Some(o)))
  {
    if rows != [] {
      var init, last := rows[..|rows| - 1], rows[|rows| - 1];
      LookupRowsMeaning(init, look);
      assert rows == init + [last];
      assert forall line :: line in rows <==> line in init || line == last;
    }
  }

  /** The orders the rows find, in row order; a row that finds none contributes nothing. */
  function Found(rows: seq<string>, look: RowLookup): seq<Order>
  {
    if rows == [] then []
    else (match look(rows[0]) case Done(Some(o)) => [o] case _ => []) + Found(rows[1..], look)
  }

  lemma {:induction false} FoundAppend(rows: seq<string>, line: string, look: RowLookup)
    ensures Found(rows + [line], look) == Found(rows, look) + (match look(line) case Done(Some(o)) => [o] case _ => [])
    decreases |rows|
  {
    if rows == [] {
      assert [line][1..] == [];
    } else {
      assert (rows + [line])[1..] == rows[1..] + [line];
      FoundAppend(rows[1..], line, look);
    }
  }

  /**
    When importCSV completes, it returns exactly the orders the rows find,
    in row order, rows naming no stored order skipped.
  */
  lemma {:induction false} LookupRowsIsFound(rows: seq<string>, look: RowLookup)
    ensures LookupRows(rows, look).Done? ==> LookupRows(rows, look).value == Found(rows, look)
  {
    if rows != [] {
      var init, last := rows[..|rows| - 1], rows[|rows| - 1];
      LookupRowsIsFound(init, look);
      assert rows == init + [last];
      FoundAppend(init, last, look);
    }
  }

  /** importCSV against a store: it throws only on a row whose id does not parse, and finds only stored orders. */
  lemma ImportCsvFindsStoredOrders(rows: seq<string>, orders: map<int, Order>)
    ensures var r := LookupRows(rows, OrderLookup(orders));
            && (r.Done? <==> forall line :: line in rows ==> |Fields(line)| >= 1 && ParseLong(Fields(line)[0]).Some?)
            && (r.Done? ==> forall o :: o in r.value ==> o in orders.Values)
  {
    LookupRowsMeaning(rows, OrderLookup(orders));
  }

  /** When every row names an order, the import returns exactly those orders, row by row. */
  lemma {:induction false} LookupRowsAllKnown(rows: seq<string>, look: RowLookup, found: seq<Order>)
    requires |rows| == |found|
    requires forall i :: 0 <= i < |rows| ==> look(rows[i]) == Done(Some(found[i]))
    ensures LookupRows(rows, look) == Done(found)
    decreases |rows|
  {
    if rows != [] {
      var n := |rows| - 1;
      var init, prefix := rows[..n], found[..n];
      forall i | 0 <= i < n ensures look(init[i]) == Done(Some(prefix[i])) {
        assert init[i] == rows[i] && prefix[i] == found[i];
      }
      LookupRowsAllKnown(init, look, prefix);
      LookupRowsExtend(rows, n, look, prefix);
      assert found == prefix + [found[n]];
      assert rows[..n + 1] == rows;
    }
  }
}
