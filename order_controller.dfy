/** Checkout, cancellation, the status overwrite and the order-view rule
    (src/controllers/orderController.js). */
module OrderController {
  import opened Wrappers
  import opened Entities
  import opened Errors
  import opened CartLines
  import opened Ledger
  import opened Defaults
  import opened Store
  import opened PaymentService

  /** `createOrder`'s success payload: the new order and the gateway's payment intent. */
  datatype Placed = Placed(orderId: OrderId, order: Order, payment: PaymentIntent)

  /** The shipping fee when the body has none: `shippingFee = 10.0`. */
  const DefaultShippingFee := 10

  /** The order `createOrder` stores for the user's cart lines, priced with the
      products as they are at checkout. */
  function NewOrder(user: UserId, lines: Lines, products: Products, a: AddressData, paymentMethod: string, fee: int): (o: Order)
    requires LinesStocked(lines, products)
    ensures o.userId == user && o.status == PROCESSING && o.paymentStatus == PENDING
    ensures o.subtotal == Subtotal(lines, products) && o.shipping == fee && o.total == o.subtotal + fee
    ensures o.items == ItemsOf(lines, products) && o.paymentMethod == paymentMethod
    ensures o.shippingAddress == ShippingAddress(a.name, a.address, a.city, a.zipCode)
  {
    var subtotal := Subtotal(lines, products);
    Order(user, subtotal, fee, subtotal + fee, PROCESSING,
          ShippingAddress(a.name, a.address, a.city, a.zipCode), paymentMethod, PENDING,
          ItemsOf(lines, products))
  }

  /** How `createOrder` refuses: an absent or empty cart, then an absent address or
      one of another user. */
  function CheckoutRefusal(lines: Lines, addresses: Table<AddressData>, user: UserId, addressId: RecordId): (r: Option<Error>)
    ensures r == Some(NewAppError("Cart is empty", 400)) <==> lines == []
    ensures r == Some(NewAppError("Invalid shipping address", 400)) <==>
      lines != [] && (addressId !in addresses || addresses[addressId].userId != user)
    ensures r.None? <==> lines != [] && addressId in addresses && addresses[addressId].userId == user
  {
    if lines == [] then Some(NewAppError("Cart is empty", 400))
    else if addressId !in addresses || addresses[addressId].userId != user then Some(NewAppError("Invalid shipping address", 400))
    else None
  }

  /** `createOrder`: on a refusal nothing changes. Otherwise the order is stored,
      every product loses what the cart's lines ask for it, the cart is emptied, and
      then the gateway is asked for a payment; its failure is reported after all of
      that has happened. Stock is not checked against zero. */
  method CreateOrder(db: Db, user: UserId, addressId: RecordId, paymentMethod: string, shippingFee: Option<int>,
                     orderId: OrderId, gateway: Result<PaymentIntent, string>)
    returns (r: Reply<Placed>)
    requires db.Valid() && orderId !in db.orders
    modifies db
    ensures db.Valid()
    ensures var refusal := CheckoutRefusal(old(db.CartLinesOf(user)), old(db.addresses), user, addressId);
      refusal.Some? ==> r == Failure(refusal.value) && unchanged(db)
    ensures var lines := old(db.CartLinesOf(user));
      CheckoutRefusal(lines, old(db.addresses), user, addressId).None? ==>
        var o := NewOrder(user, lines, old(db.products), old(db.addresses)[addressId].data, paymentMethod,
                          shippingFee.GetOr(DefaultShippingFee));
        db.orders == old(db.orders)[orderId := o] &&
        db.products == Destocked(old(db.products), lines) &&
        db.cartItems == WithoutCart(old(db.cartItems), old(db.carts)[user]) &&
        db.carts == old(db.carts) && db.categories == old(db.categories) &&
        db.addresses == old(db.addresses) && db.paymentMethods == old(db.paymentMethods) &&
        r == (if gateway.Success? then Success(Placed(orderId, o, gateway.value)) else Failure(Thrown(gateway.error)))
  {
    var lines := db.CartLinesOf(user);
    var refusal := CheckoutRefusal(lines, db.addresses, user, addressId);
    if refusal.Some? {
      return Failure(refusal.value);
    }
    var cart := db.carts[user];
    var p0 := db.products;
    assert LinesStocked(lines, p0);
    var fee := shippingFee.GetOr(DefaultShippingFee);
    var order := NewOrder(user, lines, p0, db.addresses[addressId].data, paymentMethod, fee);
    db.orders := db.orders[orderId := order];

    db.products := TakeStock(db.products, lines);

    WithoutCartStocked(db.cartItems, p0, cart);
    db.cartItems := WithoutCart(db.cartItems, cart);
    ValidAfterCheckout(db, p0, lines, orderId, order);

    if gateway.Failure? {
      return Failure(Thrown(gateway.error));
    }
    r := Success(Placed(orderId, order, gateway.value));
  }

  /** `for (const item of cart.items) product.update({ where: { id: item.productId },
      data: { stock: { decrement: item.quantity } } })`, one product at a time. */
  method TakeStock(products: Products, lines: Lines) returns (r: Products)
    requires LinesStocked(lines, products)
    ensures r == Destocked(products, lines)
  {
    r := products;
    var i := 0;
    while i < |lines|
      invariant 0 <= i <= |lines|
      invariant r == Destocked(products, lines[..i])
    {
      assert lines[i] in lines;
      DestockStep(products, lines, i);
      r := Shift(r, lines[i].productId, -lines[i].quantity);
      i := i + 1;
    }
    assert lines[..i] == lines;
  }

  /** `for (const item of order.items) product.update({ where: { id: item.productId },
      data: { stock: { increment: item.quantity } } })`, one product at a time. */
  method ReturnStock(products: Products, items: seq<OrderItem>) returns (r: Products)
    requires forall x :: x in items ==> x.productId in products
    ensures r == Restocked(products, items)
  {
    r := products;
    var i := 0;
    while i < |items|
      invariant 0 <= i <= |items|
      invariant r == Restocked(products, items[..i])
    {
      assert items[i] in items;
      RestockStep(products, items, i);
      r := Shift(r, items[i].productId, items[i].quantity);
      i := i + 1;
    }
    assert items[..i] == items;
  }

  /** Restocking keeps the store's rules: only stock changes in the products. */
  lemma ValidAfterRestock(db: Db, p0: Products, items: seq<OrderItem>)
    requires CatalogValid(p0, db.categories) && db.products == Restocked(p0, items)
    requires CartsValid(db.carts, db.cartItems, p0) && OrdersValid(db.orders, p0)
    requires SingleDefault(db.addresses) && SingleDefault(db.paymentMethods)
    ensures db.Valid()
  {
    assert db.products.Keys == p0.Keys;
    assert CatalogValid(db.products, db.categories);
  }

  /** The tables after checkout keep the store's rules: only stock changed in the
      products, and the new order names the cart's products. */
  lemma ValidAfterCheckout(db: Db, p0: Products, lines: Lines, orderId: OrderId, order: Order)
    requires CatalogValid(p0, db.categories) && LinesStocked(lines, p0)
    requires db.products == Destocked(p0, lines)
    requires CartIdsUnique(db.carts) && (forall x :: x in db.cartItems ==> x.cartId in db.carts.Values)
    requires LinesUnique(db.cartItems) && LinesStocked(db.cartItems, p0)
    requires OrdersValid(db.orders - {orderId}, p0) && orderId in db.orders && db.orders[orderId].items == ItemsOf(lines, p0)
    requires SingleDefault(db.addresses) && SingleDefault(db.paymentMethods)
    ensures db.Valid()
  {
    assert db.products.Keys == p0.Keys;
    assert CatalogValid(db.products, db.categories);
    assert LinesStocked(db.cartItems, db.products);
    var items := ItemsOf(lines, p0);
    assert forall x :: x in items ==> x.productId in p0 by {
      forall x | x in items ensures x.productId in p0 {
        var k :| 0 <= k < |items| && items[k] == x;
        assert lines[k] in lines;
      }
    }
    forall o | o in db.orders ensures forall x :: x in db.orders[o].items ==> x.productId in db.products {
      if o != orderId {
        assert o in db.orders - {orderId};
      }
    }
  }

  /** Why `cancelOrder` refuses, in the order the handler checks. */
  function CancelRefusal(orders: Orders, user: UserId, id: OrderId): (r: Option<Error>)
    ensures r == Some(NewAppError("Order not found", 404)) <==> id !in orders
    ensures r == Some(NewAppError("You do not have permission to cancel this order", 403)) <==> id in orders && orders[id].userId != user
    ensures r == Some(NewAppError("Order cannot be cancelled", 400)) <==>
      id in orders && orders[id].userId == user && orders[id].status != PROCESSING
    ensures r.None? <==> id in orders && orders[id].userId == user && orders[id].status == PROCESSING
  {
    if id !in orders then Some(NewAppError("Order not found", 404))
    else if orders[id].userId != user then Some(NewAppError("You do not have permission to cancel this order", 403))
    else if orders[id].status != PROCESSING then Some(NewAppError("Order cannot be cancelled", 400))
    else None
  }

  /** `cancelOrder`: on a refusal nothing changes; otherwise the order becomes
      `CANCELLED` and every product gets back what the order's items recorded. */
  method CancelOrder(db: Db, user: UserId, id: OrderId) returns (r: Reply<Order>)
    requires db.Valid()
    modifies db
    ensures db.Valid()
    ensures var refusal := CancelRefusal(old(db.orders), user, id);
      refusal.Some? ==> r == Failure(refusal.value) && unchanged(db)
    ensures CancelRefusal(old(db.orders), user, id).None? ==>
      var o := old(db.orders)[id];
      r == Success(o.(status := CANCELLED)) &&
      db.orders == old(db.orders)[id := o.(status := CANCELLED)] &&
      db.products == Restocked(old(db.products), o.items) &&
      db.categories == old(db.categories) && db.carts == old(db.carts) && db.cartItems == old(db.cartItems) &&
      db.addresses == old(db.addresses) && db.paymentMethods == old(db.paymentMethods)
  {
    var refusal := CancelRefusal(db.orders, user, id);
    if refusal.Some? {
      return Failure(refusal.value);
    }
    var order := db.orders[id];
    var updated := order.(status := CANCELLED);
    db.orders := db.orders[id := updated];

    assert forall x :: x in order.items ==> x.productId in db.products by {
      assert forall x :: x in order.items ==> x in old(db.orders)[id].items;
    }
    ghost var p0 := db.products;
    db.products := ReturnStock(db.products, order.items);
    ValidAfterRestock(db, p0, order.items);
    r := Success(updated);
  }

  /** A payment that fails (deny, cancel, expire) moves the order to `CANCELLED`
      without giving stock back, and from then on its owner cannot cancel it. */
  lemma FailedPaymentBlocksCancel(orders: Orders, user: UserId, id: OrderId, tx: string, fraud: string)
    requires id in orders && orders[id].userId == user && IsFailure(tx)
    ensures CancelRefusal(orders[id := ApplyReport(orders[id], Reconcile(tx, fraud))], user, id)
              == Some(NewAppError("Order cannot be cancelled", 400))
  {
    assert Reconcile(tx, fraud) == Mapping(Some(FAILED), Some(CANCELLED));
  }

  /** `updateOrderStatus`: the status is overwritten whatever it was; only a missing
      order is refused. */
  method UpdateOrderStatus(db: Db, id: OrderId, status: OrderStatus) returns (r: Reply<Order>)
    requires db.Valid()
    modifies db
    ensures db.Valid()
    ensures id !in old(db.orders) ==> r == Failure(NewAppError("Order not found", 404)) && unchanged(db)
    ensures id in old(db.orders) ==>
      r == Success(old(db.orders)[id].(status := status)) &&
      db.orders == old(db.orders)[id := old(db.orders)[id].(status := status)] &&
      db.products == old(db.products) && db.categories == old(db.categories) &&
      db.carts == old(db.carts) && db.cartItems == old(db.cartItems) &&
      db.addresses == old(db.addresses) && db.paymentMethods == old(db.paymentMethods)
  {
    if id !in db.orders {
      return Failure(NewAppError("Order not found", 404));
    }
    var updated := db.orders[id].(status := status);
    db.orders := db.orders[id := updated];
    r := Success(updated);
  }

  /** `getOrderDetails`: the owner and administrators see an order, nobody else. */
  function OrderDetails(orders: Orders, user: UserId, role: Role, id: OrderId): (r: Reply<Order>)
    ensures r.Success? <==> id in orders && (orders[id].userId == user || role == ADMIN)
    ensures r.Success? ==> r.value == orders[id]
    ensures id !in orders ==> r == Failure(NewAppError("Order not found", 404))
    ensures id in orders && !r.Success? ==> r == Failure(NewAppError("You do not have permission to view this order", 403))
  {
    if id !in orders then Failure(NewAppError("Order not found", 404))
    else if orders[id].userId != user && role != ADMIN then
      Failure(NewAppError("You do not have permission to view this order", 403))
    else Success(orders[id])
  }

  /** A checkout followed straight away by cancelling the new order leaves every
      product's stock as it was, whether or not the gateway accepted the payment. */
  method CheckoutThenCancel(db: Db, user: UserId, addressId: RecordId, paymentMethod: string, shippingFee: Option<int>,
                            orderId: OrderId, gateway: Result<PaymentIntent, string>)
    returns (placed: Reply<Placed>, cancelled: Reply<Order>)
    requires db.Valid() && orderId !in db.orders
    requires CheckoutRefusal(db.CartLinesOf(user), db.addresses, user, addressId).None?
    modifies db
    ensures db.Valid()
    ensures cancelled.Success? && cancelled.value.status == CANCELLED
    ensures db.products == old(db.products)
    ensures db.cartItems == WithoutCart(old(db.cartItems), old(db.carts)[user])
  {
    var lines := db.CartLinesOf(user);
    var p0 := db.products;
    assert LinesStocked(lines, p0);
    placed := CreateOrder(db, user, addressId, paymentMethod, shippingFee, orderId, gateway);
    cancelled := CancelOrder(db, user, orderId);
    RestoreAfterCheckout(p0, lines);
  }
}
