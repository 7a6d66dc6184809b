/**
  Records of the order system and the string values its code branches on.
  Statuses, payment types and upload markers are compared as strings in
  OrderService and OrderController, so they are strings here as well.
*/
module Domain {
  import opened JavaLang

  // Order.status
  const ORDERED: string := "ordered"
  const SHIPPING: string := "shipping"
  const COMPLETED: string := "completed"

  // Order.paymentStatus
  const UNPAID: string := "unpaid"
  const PARTIALLY_PAID: string := "partially_paid"
  const PAID: string := "paid"
  const OVERPAID: string := "overpaid"

  /** The one OrderPayment.type whose amount counts towards Order.paid ("completed"). */
  const PAYMENT_COMPLETED: string := "完了"

  // OrderDeliveries.uploadStatus after a bulk shipping update
  const UPLOAD_SUCCESS: string := "success"
  const UPLOAD_ERROR: string := "error"

  // Tax rounding modes
  const FLOOR: string := "floor"
  const ROUND: string := "round"
  const CEIL: string := "ceil"

  /** A calendar date as SimpleDateFormat("yyyy-MM-dd") yields it. */
  datatype Date = Date(year: int, month: int, day: int)

  /** A java.sql.Timestamp. */
  datatype Timestamp = Timestamp(date: Date, nanosOfDay: int)

  /** The tax treatment of a product: rate in percent, tax included in the price or not, rounding mode. */
  datatype TaxType = TaxType(rate: nat, taxIncluded: bool, rounding: string)

  /** A catalogue product as the product repository returns it. */
  datatype Product = Product(id: int, code: string, name: string, price: real, taxType: TaxType)

  /** A line of an order: a snapshot of the product taken when the order is created. */
  datatype OrderProduct = OrderProduct(
    productId: int, code: string, name: string,
    quantity: int, price: real, discount: real, taxType: TaxType)

  /** One entry of an order's payment history. */
  datatype OrderPayment = OrderPayment(kind: string, paid: real, paymentMethod: string, paidAt: Timestamp)

  datatype Order = Order(
    id: int, customerId: int, shipping: real, note: string, paymentMethod: string,
    status: string, paymentStatus: string,
    total: real, tax: real, discount: real, grandTotal: real, paid: real,
    orderProducts: seq<OrderProduct>, orderPayments: seq<OrderPayment>)

  /**
    A delivery record: staged from a CSV upload (id None) or stored in the
    delivery repository (id Some). Dates are None where they were not parsed.
  */
  datatype OrderDeliveries = OrderDeliveries(
    id: Option<int>, orderId: int, shippingCode: string,
    shippingDate: Option<Date>, deliveryDate: Option<Date>,
    deliveryTimezone: string, uploadStatus: Option<string>)

  /** One row of the shipping form; `checked` is the row's check box. */
  datatype OrderShippingList = OrderShippingList(
    checked: bool, orderId: int, shippingCode: string,
    shippingDate: Option<Date>, deliveryDate: Option<Date>,
    deliveryTimezone: string, uploadStatus: Option<string>)

  /** One requested line of OrderForm.Create. */
  datatype OrderLineRequest = OrderLineRequest(productId: int, quantity: int, discount: real)

  /** OrderForm.Create: the order header and its requested lines. */
  datatype CreateOrderForm = CreateOrderForm(
    customerId: int, shipping: real, note: string, paymentMethod: string,
    orderProducts: seq<OrderLineRequest>)
}
