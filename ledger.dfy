/**
  The payment ledger of OrderService.createPayment: a payment is appended to
  the order's history, the paid amount is recomputed from the completed
  entries, the payment status is derived from it, and a shipped order that is
  now paid exactly is completed.
*/
module Ledger {
  import opened Domain

  /**
    The sum of the amounts of the payments whose type is the completed
    marker: nothing without a completed payment, never negative when no
    amount is.
  */
  function CompletedPaid(ps: seq<OrderPayment>): (r: real)
    ensures (forall i :: 0 <= i < |ps| ==> ps[i].kind != PAYMENT_COMPLETED) ==> r == 0.0
    ensures (forall i :: 0 <= i < |ps| ==> ps[i].paid >= 0.0) ==> r >= 0.0
  {
    if ps == [] then 0.0
    else (if ps[0].kind == PAYMENT_COMPLETED then ps[0].paid else 0.0) + CompletedPaid(ps[1..])
  }

  /** Appending a payment adds its amount when it is completed and nothing otherwise. */
  lemma {:induction false} CompletedPaidAppend(ps: seq<OrderPayment>, p: OrderPayment)
    ensures CompletedPaid(ps + [p]) == CompletedPaid(ps) + (if p.kind == PAYMENT_COMPLETED then p.paid else 0.0)
  {
    if ps != [] {
      assert (ps + [p])[1..] == ps[1..] + [p];
      CompletedPaidAppend(ps[1..], p);
    }
  }

  /** Payments that are not completed never count, wherever they stand in the history. */
  lemma {:induction false} CompletedPaidIgnoresPending(ps: seq<OrderPayment>, qs: seq<OrderPayment>)
    requires forall i :: 0 <= i < |qs| ==> qs[i].kind != PAYMENT_COMPLETED
    ensures CompletedPaid(ps + qs) == CompletedPaid(ps)
    decreases |qs|
  {
    if qs == [] {
      assert ps + qs == ps;
    } else {
      var init := qs[..|qs| - 1];
      assert forall i :: 0 <= i < |init| ==> init[i] == qs[i];
      assert ps + qs == (ps + init) + [qs[|qs| - 1]];
      CompletedPaidAppend(ps + init, qs[|qs| - 1]);
      CompletedPaidIgnoresPending(ps, init);
    }
  }

  /** Over-, partially or exactly paid, by comparing the paid amount with the grand total. */
  function DerivePaymentStatus(paid: real, grandTotal: real): (s: string)
    ensures s == OVERPAID <==> paid > grandTotal
    ensures s == PARTIALLY_PAID <==> paid < grandTotal
    ensures s == PAID <==> paid == grandTotal
  {
    if paid > grandTotal then OVERPAID
    else if paid < grandTotal then PARTIALLY_PAID
    else PAID
  }

  /**
    The order after createPayment: the payment is appended; paid is the sum of
    the completed entries; the payment status follows paid only when this
    payment is completed; a shipping order whose derived status is PAID becomes
    completed whatever the payment's type; nothing else changes.
  */
  function ApplyPayment(o: Order, p: OrderPayment): (r: Order)
    ensures r.orderPayments == o.orderPayments + [p]
    ensures r.paid == CompletedPaid(r.orderPayments)
    ensures p.kind == PAYMENT_COMPLETED ==> r.paymentStatus == DerivePaymentStatus(r.paid, o.grandTotal)
    ensures p.kind != PAYMENT_COMPLETED ==> r.paymentStatus == o.paymentStatus
    ensures r.status != o.status <==> o.status == SHIPPING && r.paid == o.grandTotal
    ensures r.status != o.status ==> r.status == COMPLETED
    ensures r.(orderPayments := o.orderPayments, paid := o.paid,
               paymentStatus := o.paymentStatus, status := o.status) == o
  {
    var payments := o.orderPayments + [p];
    var paid := CompletedPaid(payments);
    var derived := DerivePaymentStatus(paid, o.grandTotal);
    o.(orderPayments := payments,
       paid := paid,
       paymentStatus := if p.kind == PAYMENT_COMPLETED then derived else o.paymentStatus,
       status := if o.status == SHIPPING && derived == PAID then COMPLETED else o.status)
  }

  /** The ledger invariant: the paid field is the sum of the completed entries. */
  predicate LedgerConsistent(o: Order) { o.paid == CompletedPaid(o.orderPayments) }

  /** A payment that is not completed changes neither the paid amount nor the payment status. */
  lemma PendingPaymentChangesNothingPaid(o: Order, p: OrderPayment)
    requires LedgerConsistent(o)
    requires p.kind != PAYMENT_COMPLETED
    ensures ApplyPayment(o, p).paid == o.paid
    ensures ApplyPayment(o, p).paymentStatus == o.paymentStatus
  {
    CompletedPaidAppend(o.orderPayments, p);
  }

  /** A completed payment adds exactly its amount to what was paid. */
  lemma CompletedPaymentAddsAmount(o: Order, p: OrderPayment)
    requires LedgerConsistent(o)
    requires p.kind == PAYMENT_COMPLETED
    ensures ApplyPayment(o, p).paid == o.paid + p.paid
    ensures LedgerConsistent(ApplyPayment(o, p))
  {
    CompletedPaidAppend(o.orderPayments, p);
  }

  /**
    Paying the rest of the grand total with a completed payment makes the
    order PAID, and a shipping order completed.
  */
  lemma PayingInFullCompletesShipment(o: Order, p: OrderPayment)
    requires LedgerConsistent(o)
    requires p.kind == PAYMENT_COMPLETED && o.paid + p.paid == o.grandTotal
    ensures ApplyPayment(o, p).paymentStatus == PAID
    ensures o.status == SHIPPING ==> ApplyPayment(o, p).status == COMPLETED
  {
    CompletedPaidAppend(o.orderPayments, p);
  }

  /**
    The promotion to completed is not gated on the payment's type: a
    shipping order already paid in full is completed by any further
    payment that is not completed.
  */
  lemma PendingPaymentStillPromotes(o: Order, p: OrderPayment)
    requires LedgerConsistent(o) && o.status == SHIPPING && o.paid == o.grandTotal
    requires p.kind != PAYMENT_COMPLETED
    ensures ApplyPayment(o, p).status == COMPLETED
    ensures ApplyPayment(o, p).paymentStatus == o.paymentStatus
  {
    CompletedPaidAppend(o.orderPayments, p);
  }
}
