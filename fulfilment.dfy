/**
  The bulk shipping update of OrderController.updateShipping, stated on
  values: the delivery upsert of OrderService.save, the status change of
  OrderService.updateOrderStatus, and the walk over the form rows that
  drives the staged delivery records by index.
*/
module Fulfilment {
  import opened JavaLang
  import opened Domain

  // ---------------------------------------------------------------------
  // OrderService.save(OrderDeliveries): upsert keyed by orderId

  /**
    The delivery store: one record per order id, each with a stored id below
    the next id the store hands out, no two records sharing an id.
  */
  predicate StoreValid(records: map<int, OrderDeliveries>, nextId: int)
  {
    && (forall k :: k in records ==> records[k].orderId == k && records[k].id.Some? && records[k].id.value < nextId)
    && (forall a, b :: a in records && b in records && a != b ==> records[a].id != records[b].id)
  }

  /** The record of an existing delivery after its fields are overwritten by d's. */
  function Overwritten(existing: OrderDeliveries, d: OrderDeliveries): (r: OrderDeliveries)
    ensures r.id == existing.id && r.orderId == existing.orderId
    ensures r.(id := d.id, orderId := d.orderId) == d
  {
    existing.(shippingCode := d.shippingCode, shippingDate := d.shippingDate, deliveryDate := d.deliveryDate,
              deliveryTimezone := d.deliveryTimezone, uploadStatus := d.uploadStatus)
  }

  /**
    The store after save(d): the record of d's order keeps its identity and
    takes d's code, dates, time zone and upload status; without one, d is
    inserted under the next id; the records of other orders stay as they are.
  */
  function Upserted(records: map<int, OrderDeliveries>, nextId: int, d: OrderDeliveries): (r: map<int, OrderDeliveries>)
    ensures r.Keys == records.Keys + {d.orderId}
    ensures d.orderId in records ==> r[d.orderId] == Overwritten(records[d.orderId], d)
    ensures d.orderId in records ==> r[d.orderId].id == records[d.orderId].id && r[d.orderId].orderId == records[d.orderId].orderId
    ensures d.orderId !in records ==> r[d.orderId] == d.(id := Some(nextId))
    ensures forall k :: k in records && k != d.orderId ==> r[k] == records[k]
  {
    if d.orderId in records then records[d.orderId := Overwritten(records[d.orderId], d)]
    else records[d.orderId := d.(id := Some(nextId))]
  }

  /** The next id after save(d): one was used when d was inserted. */
  function NextIdAfter(records: map<int, OrderDeliveries>, nextId: int, d: OrderDeliveries): (n: int)
    ensures n == nextId || n == nextId + 1
    ensures n == nextId + 1 <==> d.orderId !in records
  {
    if d.orderId in records then nextId else nextId + 1
  }

  /** The upsert keeps the store one-record-per-order with distinct ids. */
  lemma UpsertKeepsStoreValid(records: map<int, OrderDeliveries>, nextId: int, d: OrderDeliveries)
    requires StoreValid(records, nextId)
    ensures StoreValid(Upserted(records, nextId, d), NextIdAfter(records, nextId, d))
  {
    var r, n := Upserted(records, nextId, d), NextIdAfter(records, nextId, d);
    forall a, b | a in r && b in r && a != b ensures r[a].id != r[b].id {
      if a == d.orderId && d.orderId !in records {
        assert r[b] == records[b];
      } else if b == d.orderId && d.orderId !in records {
        assert r[a] == records[a];
      }
    }
  }

  /** Saving the same record twice is the same as saving it once. */
  lemma UpsertIdempotent(records: map<int, OrderDeliveries>, nextId: int, d: OrderDeliveries)
    ensures var once := Upserted(records, nextId, d);
            Upserted(once, NextIdAfter(records, nextId, d), d) == once
  {
    var once := Upserted(records, nextId, d);
    var twice := Upserted(once, NextIdAfter(records, nextId, d), d);
    assert twice[d.orderId] == once[d.orderId];
    assert twice.Keys == once.Keys;
  }

  // ---------------------------------------------------------------------
  // OrderService.updateOrderStatus

  /** An order that has been shipped: completed when already paid, otherwise shipping. */
  function Shipped(o: Order): (r: Order)
    ensures r.status == (if o.paymentStatus == PAID then COMPLETED else SHIPPING)
    ensures r.(status := o.status) == o
  {
    o.(status := if o.paymentStatus == PAID then COMPLETED else SHIPPING)
  }

  // ---------------------------------------------------------------------
  // OrderController.updateShipping

  /**
    Everything the walk over the form rows reads or writes: the order store,
    the delivery store with its next id, the staged records, the error flag,
    and whether an exception (a staged list shorter than the form list) has
    ended the walk.
  */
  datatype ShipState = ShipState(
    orders: map<int, Order>,
    deliveries: map<int, OrderDeliveries>,
    nextDeliveryId: int,
    staged: seq<OrderDeliveries>,
    isError: bool,
    aborted: bool)

  function MarkStaged(staged: seq<OrderDeliveries>, i: nat, status: string): (r: seq<OrderDeliveries>)
    requires i < |staged|
    ensures |r| == |staged| && r[i] == staged[i].(uploadStatus := Some(status))
    ensures forall j :: 0 <= j < |staged| && j != i ==> r[j] == staged[j]
  {
    staged[i := staged[i].(uploadStatus := Some(status))]
  }

  /** Whether form row i, applied to s, fails: its order is missing or already completed. */
  predicate RowRejected(s: ShipState, i: nat)
    requires i < |s.staged|
    ensures s.staged[i].orderId !in s.orders ==> RowRejected(s, i)
    ensures s.staged[i].orderId in s.orders ==> (RowRejected(s, i) <==> s.orders[s.staged[i].orderId].status == COMPLETED)
  {
    var id := s.staged[i].orderId;
    id !in s.orders || s.orders[id].status == COMPLETED
  }

  /**
    Form row i. An unchecked row, or any row after the walk was ended, does
    nothing. A checked row past the staged list ends the walk. A checked row
    whose order is missing or completed marks its staged record "error" and
    writes nothing else. Otherwise the staged record is saved (with the
    upload status it had), then marked "success", and its order is shipped.
  */
  function ShipRow(s: ShipState, form: OrderShippingList, i: nat): (r: ShipState)
    ensures |r.staged| == |s.staged| && r.orders.Keys == s.orders.Keys
  {
    if s.aborted || !form.checked then s
    else if i >= |s.staged| then s.(aborted := true)
    else
      var d := s.staged[i];
      if RowRejected(s, i) then s.(staged := MarkStaged(s.staged, i, UPLOAD_ERROR), isError := true)
      else
        s.(deliveries := Upserted(s.deliveries, s.nextDeliveryId, d),
           nextDeliveryId := NextIdAfter(s.deliveries, s.nextDeliveryId, d),
           staged := MarkStaged(s.staged, i, UPLOAD_SUCCESS),
           orders := s.orders[d.orderId := Shipped(s.orders[d.orderId])])
  }

  /** What one row does, case by case. */
  lemma ShipRowMeaning(s: ShipState, form: OrderShippingList, i: nat)
    ensures s.aborted || !form.checked ==> ShipRow(s, form, i) == s
    ensures ShipRow(s, form, i).isError <==> s.isError || (!s.aborted && form.checked && i < |s.staged| && RowRejected(s, i))
    ensures ShipRow(s, form, i).aborted <==> s.aborted || (form.checked && i >= |s.staged|)
    ensures forall j :: 0 <= j < |s.staged| && j != i ==> ShipRow(s, form, i).staged[j] == s.staged[j]
    ensures !s.aborted && form.checked && i < |s.staged| && RowRejected(s, i) ==>
              ShipRow(s, form, i) == s.(staged := MarkStaged(s.staged, i, UPLOAD_ERROR), isError := true)
    ensures !s.aborted && form.checked && i < |s.staged| && !RowRejected(s, i) ==>
              && ShipRow(s, form, i).staged == MarkStaged(s.staged, i, UPLOAD_SUCCESS)
              && ShipRow(s, form, i).deliveries == Upserted(s.deliveries, s.nextDeliveryId, s.staged[i])
              && ShipRow(s, form, i).nextDeliveryId == NextIdAfter(s.deliveries, s.nextDeliveryId, s.staged[i])
              && ShipRow(s, form, i).orders == s.orders[s.staged[i].orderId := Shipped(s.orders[s.staged[i].orderId])]
              && ShipRow(s, form, i).isError == s.isError
  {
  }

  /** The state after the first n form rows, in index order. */
  function ShipUpTo(s: ShipState, forms: seq<OrderShippingList>, n: nat): (r: ShipState)
    requires n <= |forms|
    ensures |r.staged| == |s.staged| && r.orders.Keys == s.orders.Keys
  {
    if n == 0 then s else ShipRow(ShipUpTo(s, forms, n - 1), forms[n - 1], n - 1)
  }

  /** Whether updateShipping reports failure: an error row, or an exception that ended the walk. */
  predicate BatchFailed(s: ShipState) { s.isError || s.aborted }

  /** The state of updateShipping before its first row. */
  function StartState(orders: map<int, Order>, deliveries: map<int, OrderDeliveries>, nextId: int,
                      staged: seq<OrderDeliveries>): ShipState
  {
    ShipState(orders, deliveries, nextId, staged, false, false)
  }

  /** Once ended, the walk changes nothing more. */
  lemma {:induction false} AbortedStaysPut(s: ShipState, forms: seq<OrderShippingList>, m: nat, n: nat)
    requires m <= n <= |forms|
    requires ShipUpTo(s, forms, m).aborted
    ensures ShipUpTo(s, forms, n) == ShipUpTo(s, forms, m)
    decreases n
  {
    if n > m {
      AbortedStaysPut(s, forms, m, n - 1);
    }
  }

  /** The walk ends early exactly when a checked row lies past the end of the staged list. */
  lemma {:induction false} ShipAbortsIff(s: ShipState, forms: seq<OrderShippingList>, n: nat)
    requires n <= |forms| && !s.aborted
    ensures ShipUpTo(s, forms, n).aborted <==> exists j :: |s.staged| <= j < n && forms[j].checked
  {
    if n > 0 {
      ShipAbortsIff(s, forms, n - 1);
      if forms[n - 1].checked && n - 1 >= |s.staged| {
        assert |s.staged| <= n - 1 < n && forms[n - 1].checked;
      }
    }
  }

  /**
    Staged records of rows at or beyond n are untouched; so are those of
    unchecked rows among the first n.
  */
  lemma {:induction false} ShipTouchesOnlyChecked(s: ShipState, forms: seq<OrderShippingList>, n: nat)
    requires n <= |forms|
    ensures |ShipUpTo(s, forms, n).staged| == |s.staged|
    ensures forall j :: 0 <= j < |s.staged| && (j >= n || !forms[j].checked) ==> ShipUpTo(s, forms, n).staged[j] == s.staged[j]
  {
    if n > 0 {
      ShipTouchesOnlyChecked(s, forms, n - 1);
    }
  }

  /**
    When the staged list covers the form, every checked row ends with its
    staged record marked "success" or "error" and nothing else of the record
    changed.
  */
  lemma {:induction false} ShipMarksEveryCheckedRow(s: ShipState, forms: seq<OrderShippingList>, n: nat)
    requires n <= |forms| <= |s.staged| && !s.aborted
    ensures !ShipUpTo(s, forms, n).aborted
    ensures forall j :: 0 <= j < n && forms[j].checked ==>
              ShipUpTo(s, forms, n).staged[j].uploadStatus in {Some(UPLOAD_SUCCESS), Some(UPLOAD_ERROR)}
              && ShipUpTo(s, forms, n).staged[j].(uploadStatus := s.staged[j].uploadStatus) == s.staged[j]
  {
    if n > 0 {
      ShipMarksEveryCheckedRow(s, forms, n - 1);
      ShipTouchesOnlyChecked(s, forms, n - 1);
      var before := ShipUpTo(s, forms, n - 1);
      var after := ShipUpTo(s, forms, n);
      assert after == ShipRow(before, forms[n - 1], n - 1);
      ShipRowMarks(before, forms[n - 1], n - 1);
      forall j | 0 <= j < n && forms[j].checked
        ensures after.staged[j].uploadStatus in {Some(UPLOAD_SUCCESS), Some(UPLOAD_ERROR)}
        ensures after.staged[j].(uploadStatus := s.staged[j].uploadStatus) == s.staged[j]
      {
        if j < n - 1 {
          assert after.staged[j] == before.staged[j];
        } else {
          assert before.staged[j] == s.staged[j];
        }
      }
    }
  }

  /** A row inside the staged list does not end the walk and marks only its own record. */
  lemma ShipRowMarks(s: ShipState, form: OrderShippingList, i: nat)
    requires i < |s.staged| && !s.aborted
    ensures !ShipRow(s, form, i).aborted
    ensures forall j :: 0 <= j < |s.staged| && j != i ==> ShipRow(s, form, i).staged[j] == s.staged[j]
    ensures form.checked ==>
              && ShipRow(s, form, i).staged[i].uploadStatus in {Some(UPLOAD_SUCCESS), Some(UPLOAD_ERROR)}
              && ShipRow(s, form, i).staged[i].(uploadStatus := s.staged[i].uploadStatus) == s.staged[i]
    ensures form.checked ==>
              && ShipRow(s, form, i).staged[i].uploadStatus == Some(if RowRejected(s, i) then UPLOAD_ERROR else UPLOAD_SUCCESS)
              && (ShipRow(s, form, i).isError <==> s.isError || RowRejected(s, i))
    ensures !form.checked ==> ShipRow(s, form, i) == s
  {
  }

  /**
    The batch reports failure exactly when some checked row was marked
    "error" (given that the staged list covers the form and no earlier error
    is carried in).
  */
  lemma {:induction false} ShipFailsIff(s: ShipState, forms: seq<OrderShippingList>, n: nat)
    requires n <= |forms| <= |s.staged| && !s.aborted && !s.isError
    ensures BatchFailed(ShipUpTo(s, forms, n)) <==>
              exists j :: 0 <= j < n && forms[j].checked && ShipUpTo(s, forms, n).staged[j].uploadStatus == Some(UPLOAD_ERROR)
  {
    if n > 0 {
      var before := ShipUpTo(s, forms, n - 1);
      var after := ShipUpTo(s, forms, n);
      ShipFailsIff(s, forms, n - 1);
      ShipMarksEveryCheckedRow(s, forms, n - 1);
      assert after == ShipRow(before, forms[n - 1], n - 1);
      ShipRowMarks(before, forms[n - 1], n - 1);
      assert UPLOAD_ERROR != UPLOAD_SUCCESS;
      if after.isError {
        if before.isError {
          var j :| 0 <= j < n - 1 && forms[j].checked && before.staged[j].uploadStatus == Some(UPLOAD_ERROR);
          assert after.staged[j] == before.staged[j];
        } else {
          assert forms[n - 1].checked && after.staged[n - 1].uploadStatus == Some(UPLOAD_ERROR);
        }
      }
      if exists j :: 0 <= j < n && forms[j].checked && after.staged[j].uploadStatus == Some(UPLOAD_ERROR) {
        var j :| 0 <= j < n && forms[j].checked && after.staged[j].uploadStatus == Some(UPLOAD_ERROR);
        if j == n - 1 {
          assert RowRejected(before, n - 1);
        } else {
          assert before.staged[j] == after.staged[j];
          assert before.isError;
        }
      }
    }
  }

  /**
    An error row changes no order and no delivery record: the row before it
    and after it see the same stores.
  */
  lemma RejectedRowWritesNothing(s: ShipState, forms: seq<OrderShippingList>, i: nat)
    requires i < |forms| && i < |s.staged|
    requires !ShipUpTo(s, forms, i).aborted && forms[i].checked && RowRejected(ShipUpTo(s, forms, i), i)
    ensures ShipUpTo(s, forms, i + 1).orders == ShipUpTo(s, forms, i).orders
    ensures ShipUpTo(s, forms, i + 1).deliveries == ShipUpTo(s, forms, i).deliveries
    ensures ShipUpTo(s, forms, i + 1).staged[i].uploadStatus == Some(UPLOAD_ERROR)
  {
  }

  /** Shipping never takes an order out of the shipping/completed statuses. */
  predicate ShippedStatus(o: Order) { o.status == SHIPPING || o.status == COMPLETED }

  /**
    Successes are not undone: once a row's order has been shipped and its
    delivery stored, every later row keeps the record present and the order
    shipping or completed.
  */
  lemma {:induction false} ShippedStaysShipped(s: ShipState, forms: seq<OrderShippingList>, m: nat, n: nat, id: int)
    requires m <= n <= |forms|
    requires ShipKept(ShipUpTo(s, forms, m), id)
    ensures ShipKept(ShipUpTo(s, forms, n), id)
    decreases n
  {
    if n > m {
      ShippedStaysShipped(s, forms, m, n - 1, id);
      var before := ShipUpTo(s, forms, n - 1);
      assert ShipUpTo(s, forms, n) == ShipRow(before, forms[n - 1], n - 1);
      ShipRowKeepsShipped(before, forms[n - 1], n - 1, id);
    }
  }

  /** The order id is stored, shipping or completed, and has a delivery record. */
  predicate ShipKept(st: ShipState, id: int)
  {
    id in st.orders && ShippedStatus(st.orders[id]) && id in st.deliveries
  }

  /** One row keeps a shipped order shipped and its delivery record present. */
  lemma ShipRowKeepsShipped(s: ShipState, form: OrderShippingList, i: nat, id: int)
    requires ShipKept(s, id)
    ensures ShipKept(ShipRow(s, form, i), id)
  {
  }

  /**
    A checked row that was marked "success" left its order shipping or
    completed and a delivery record for it, and they stay so to the end of
    the batch, whatever later rows do.
  */
  lemma SuccessfulRowStaysApplied(s: ShipState, forms: seq<OrderShippingList>, i: nat)
    requires i < |forms| && i < |s.staged| && !s.aborted
    requires !ShipUpTo(s, forms, i).aborted && forms[i].checked
    requires ShipUpTo(s, forms, i + 1).staged[i].uploadStatus == Some(UPLOAD_SUCCESS)
    ensures ShipUpTo(s, forms, i).staged[i].orderId in ShipUpTo(s, forms, |forms|).deliveries
    ensures var id := ShipUpTo(s, forms, i).staged[i].orderId;
            id in ShipUpTo(s, forms, |forms|).orders && ShippedStatus(ShipUpTo(s, forms, |forms|).orders[id])
  {
    var before := ShipUpTo(s, forms, i);
    assert !RowRejected(before, i);
    ShippedStaysShipped(s, forms, i + 1, |forms|, before.staged[i].orderId);
  }

  /** The walk keeps the delivery store valid. */
  lemma {:induction false} ShipKeepsStoreValid(s: ShipState, forms: seq<OrderShippingList>, n: nat)
    requires n <= |forms| && StoreValid(s.deliveries, s.nextDeliveryId)
    ensures StoreValid(ShipUpTo(s, forms, n).deliveries, ShipUpTo(s, forms, n).nextDeliveryId)
  {
    if n > 0 {
      ShipKeepsStoreValid(s, forms, n - 1);
      var before := ShipUpTo(s, forms, n - 1);
      if !before.aborted && forms[n - 1].checked && n - 1 < |before.staged| && !RowRejected(before, n - 1) {
        UpsertKeepsStoreValid(before.deliveries, before.nextDeliveryId, before.staged[n - 1]);
      }
    }
  }
}
