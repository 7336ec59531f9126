/** Payment reconciliation (src/services/paymentServices.js): the charge request built
    for an order, the table that turns a gateway report into an order's payment and
    order status, and the two handlers that apply it, one for the gateway's
    notification and one for a status poll. The gateway's replies are inputs. */
module PaymentService {
  import opened Wrappers
  import opened Entities
  import Text
  import opened Errors
  import opened Store

  /** What the gateway reports about a transaction; a missing `fraud_status` is the
      empty text. */
  datatype StatusReport = StatusReport(orderId: OrderId, transactionStatus: string, fraudStatus: string)

  /** The two locals `paymentStatus` and `orderStatus` after the if/else chain;
      `None` is `undefined`. */
  datatype Mapping = Mapping(payment: Option<PaymentStatus>, order: Option<OrderStatus>)

  predicate IsFailure(tx: string) {
    tx == "cancel" || tx == "deny" || tx == "expire"
  }

  /** The status table of `handlePaymentNotification` and `checkPaymentStatus`,
      which carry the same if/else chain word for word. */
  function Reconcile(tx: string, fraud: string): (r: Mapping)
    ensures r == Mapping(Some(PAID), Some(PROCESSING)) <==> (tx == "capture" && fraud == "accept") || tx == "settlement"
    ensures r == Mapping(Some(FAILED), Some(CANCELLED)) <==> IsFailure(tx)
    ensures r == Mapping(Some(PENDING), None) <==> (tx == "capture" && fraud == "challenge") || tx == "pending"
    ensures r == Mapping(None, None) <==>
      (tx == "capture" && fraud != "challenge" && fraud != "accept") ||
      (tx != "capture" && tx != "settlement" && !IsFailure(tx) && tx != "pending")
  {
    if tx == "capture" then
      if fraud == "challenge" then Mapping(Some(PENDING), None)
      else if fraud == "accept" then Mapping(Some(PAID), Some(PROCESSING))
      else Mapping(None, None)
    else if tx == "settlement" then Mapping(Some(PAID), Some(PROCESSING))
    else if IsFailure(tx) then Mapping(Some(FAILED), Some(CANCELLED))
    else if tx == "pending" then Mapping(Some(PENDING), None)
    else Mapping(None, None)
  }

  /** The table yields one of four outcomes; an order status is mapped only with a
      payment status. */
  lemma ReconcileOutcomes(tx: string, fraud: string)
    ensures Reconcile(tx, fraud) in {Mapping(Some(PAID), Some(PROCESSING)), Mapping(Some(FAILED), Some(CANCELLED)),
                                     Mapping(Some(PENDING), None), Mapping(None, None)}
  {
  }

  /** `order.update({ data: { paymentStatus, ...(orderStatus && { status: orderStatus }) } })`,
      run only when a payment status is mapped. */
  function ApplyReport(o: Order, m: Mapping): (r: Order)
    ensures m.payment.None? ==> r == o
    ensures m.payment.Some? ==> r.paymentStatus == m.payment.value
    ensures r.status == (if m.payment.Some? && m.order.Some? then m.order.value else o.status)
    ensures r.(paymentStatus := o.paymentStatus, status := o.status) == o
  {
    if m.payment.None? then o
    else
      var s := if m.order.Some? then m.order.value else o.status;
      o.(paymentStatus := m.payment.value, status := s)
  }

  /** Delivering the same report twice leaves the order as one delivery does. */
  lemma ApplyIdempotent(o: Order, m: Mapping)
    ensures ApplyReport(ApplyReport(o, m), m) == ApplyReport(o, m)
  {
  }

  /** A later report overrides an earlier one: the second of two reports that both
      map a payment and an order status decides the order. */
  lemma LaterReportWins(o: Order, m1: Mapping, m2: Mapping)
    requires m2.payment.Some? && m2.order.Some?
    ensures ApplyReport(ApplyReport(o, m1), m2) == ApplyReport(o, m2)
  {
  }

  // ---- createPayment ---------------------------------------------------------------

  /** An entry of `item_details`. */
  datatype ItemDetail = ItemDetail(id: string, price: int, quantity: int, name: string)

  /** The transaction parameters sent to the gateway; the customer details are left
      out. */
  datatype Charge = Charge(orderId: OrderId, grossAmount: int, items: seq<ItemDetail>)

  /** What the gateway returns for a new transaction. */
  datatype PaymentIntent = PaymentIntent(token: string, redirectUrl: string)

  /** `createPayment`'s parameter: the order's total as gross amount and one item
      detail per order item. */
  function ChargeOf(id: OrderId, o: Order): (r: Charge)
    ensures r.orderId == id && r.grossAmount == o.total && |r.items| == |o.items|
    ensures forall i :: 0 <= i < |r.items| ==>
      r.items[i].quantity == o.items[i].quantity && r.items[i].name == o.items[i].productName &&
      r.items[i].price == o.items[i].price
  {
    Charge(id, o.total, seq(|o.items|, i requires 0 <= i < |o.items| =>
      var x := o.items[i];
      ItemDetail(Text.DecimalText(x.productId), x.price, x.quantity, x.productName)))
  }

  /** `item.productId.toString()` names the product: its digits read back as the
      product id. */
  lemma ChargeNamesProducts(id: OrderId, o: Order, i: int)
    requires 0 <= i < |o.items| && o.items[i].productId >= 0
    ensures Text.DigitsValue(ChargeOf(id, o).items[i].id) == o.items[i].productId
  {
    Text.DecimalRoundTrip(o.items[i].productId);
  }

  // ---- the two handlers ------------------------------------------------------------

  /** The 500 the store raises when `order.update` finds no row. */
  const RecordNotFound := Thrown("Record to update not found.")

  /** The order update both handlers run after mapping the report. Changes only the
      reported order, and only when a payment status is mapped. */
  method ApplyToOrder(db: Db, orderId: OrderId, m: Mapping) returns (r: Result<(), Error>)
    requires db.Valid()
    modifies db
    ensures db.Valid()
    ensures r.Failure? <==> m.payment.Some? && orderId !in old(db.orders)
    ensures r.Failure? ==> r.error == RecordNotFound
    ensures db.orders == if m.payment.Some? && orderId in old(db.orders)
                         then old(db.orders)[orderId := ApplyReport(old(db.orders)[orderId], m)]
                         else old(db.orders)
    ensures db.products == old(db.products) && db.categories == old(db.categories)
    ensures db.carts == old(db.carts) && db.cartItems == old(db.cartItems)
    ensures db.addresses == old(db.addresses) && db.paymentMethods == old(db.paymentMethods)
  {
    if m.payment.Some? {
      if orderId !in db.orders {
        return Failure(RecordNotFound);
      }
      var o := db.orders[orderId];
      db.orders := db.orders[orderId := ApplyReport(o, m)];
    }
    r := Success(());
  }

  /** `handlePaymentNotification`: `report` is what the gateway's notification check
      returned, or the failure it raised. */
  method HandlePaymentNotification(db: Db, report: Result<StatusReport, string>) returns (r: Result<string, Error>)
    requires db.Valid()
    modifies db
    ensures db.Valid()
    ensures report.Failure? ==> r == Failure(Thrown(report.error)) && db.orders == old(db.orders)
    ensures report.Success? ==>
      var m := Reconcile(report.value.transactionStatus, report.value.fraudStatus);
      var id := report.value.orderId;
      (r.Success? <==> m.payment.None? || id in old(db.orders)) &&
      (r.Success? ==> r.value == "Payment notification processed") &&
      db.orders == if m.payment.Some? && id in old(db.orders)
                   then old(db.orders)[id := ApplyReport(old(db.orders)[id], m)]
                   else old(db.orders)
    ensures db.products == old(db.products) && db.categories == old(db.categories)
    ensures db.carts == old(db.carts) && db.cartItems == old(db.cartItems)
    ensures db.addresses == old(db.addresses) && db.paymentMethods == old(db.paymentMethods)
  {
    if report.Failure? {
      return Failure(Thrown(report.error));
    }
    var s := report.value;
    var m := Reconcile(s.transactionStatus, s.fraudStatus);
    var applied := ApplyToOrder(db, s.orderId, m);
    if applied.Failure? {
      return Failure(applied.error);
    }
    r := Success("Payment notification processed");
  }

  /** What `checkPaymentStatus` returns. */
  datatype PaymentCheck = PaymentCheck(paymentStatus: Option<PaymentStatus>, transactionStatus: string)

  /** `checkPaymentStatus(orderId)`: `report` is the gateway's status reply for that
      order; the update goes to `orderId`. */
  method CheckPaymentStatus(db: Db, orderId: OrderId, report: Result<StatusReport, string>) returns (r: Result<PaymentCheck, Error>)
    requires db.Valid()
    modifies db
    ensures db.Valid()
    ensures report.Failure? ==> r == Failure(Thrown(report.error)) && db.orders == old(db.orders)
    ensures report.Success? ==>
      var m := Reconcile(report.value.transactionStatus, report.value.fraudStatus);
      (r.Success? <==> m.payment.None? || orderId in old(db.orders)) &&
      (r.Success? ==> r.value == PaymentCheck(m.payment, report.value.transactionStatus)) &&
      db.orders == if m.payment.Some? && orderId in old(db.orders)
                   then old(db.orders)[orderId := ApplyReport(old(db.orders)[orderId], m)]
                   else old(db.orders)
    ensures db.products == old(db.products) && db.categories == old(db.categories)
    ensures db.carts == old(db.carts) && db.cartItems == old(db.cartItems)
    ensures db.addresses == old(db.addresses) && db.paymentMethods == old(db.paymentMethods)
  {
    if report.Failure? {
      return Failure(Thrown(report.error));
    }
    var s := report.value;
    var m := Reconcile(s.transactionStatus, s.fraudStatus);
    var applied := ApplyToOrder(db, orderId, m);
    if applied.Failure? {
      return Failure(applied.error);
    }
    r := Success(PaymentCheck(m.payment, s.transactionStatus));
  }
}
