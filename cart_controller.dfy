/** The cart handlers (src/controllers/cartController.js): reading a cart with its
    totals, adding a product (merging into its line when there is one), changing a
    line's quantity, removing a line and clearing the cart. A cart created on the way
    gets the id `newCart`, which no stored cart has. */
module CartController {
  import opened Wrappers
  import opened Entities
  import Text
  import opened Errors
  import opened CartLines
  import opened Store

  /** One line as `getUserCart` shows it. */
  datatype LineView = LineView(productId: ProductId, name: string, price: int, image: string, quantity: int, subtotal: int)

  /** `getUserCart`'s payload. */
  datatype CartView = CartView(id: CartId, items: seq<LineView>, itemCount: int, subtotal: int)

  function ViewLines(lines: Lines, products: Products): (r: seq<LineView>)
    requires LinesStocked(lines, products)
    ensures |r| == |lines|
    ensures forall i :: 0 <= i < |r| ==>
      r[i].productId == lines[i].productId && r[i].quantity == lines[i].quantity &&
      r[i].subtotal == LineTotal(lines[i], products) &&
      lines[i].productId in products &&
      var p := products[lines[i].productId];
      r[i].name == p.name && r[i].price == p.price && r[i].image == p.image
  {
    seq(|lines|, i requires 0 <= i < |lines| =>
      assert lines[i] in lines;
      var p := products[lines[i].productId];
      LineView(lines[i].productId, p.name, p.price, p.image, lines[i].quantity, LineTotal(lines[i], products)))
  }

  /** Find-or-create: the user's cart id, storing a new empty cart `newCart` when the
      user has none. */
  method EnsureCart(db: Db, user: UserId, newCart: CartId) returns (cart: CartId)
    requires db.Valid() && newCart !in db.carts.Values
    modifies db
    ensures db.Valid()
    ensures user in db.carts && cart == db.carts[user]
    ensures db.carts == if user in old(db.carts) then old(db.carts) else old(db.carts)[user := newCart]
    ensures db.CartLinesOf(user) == old(db.CartLinesOf(user))
    ensures db.products == old(db.products) && db.categories == old(db.categories) && db.cartItems == old(db.cartItems)
    ensures db.orders == old(db.orders) && db.addresses == old(db.addresses) && db.paymentMethods == old(db.paymentMethods)
  {
    if user !in db.carts {
      NewCartValid(db.carts, db.cartItems, db.products, user, newCart);
      db.carts := db.carts[user := newCart];
    }
    cart := db.carts[user];
  }

  /** `getUserCart`: the user's cart, created empty when missing, with its lines in
      storage order, the sum of the quantities and the sum of the line totals. */
  method GetUserCart(db: Db, user: UserId, newCart: CartId) returns (r: CartView)
    requires db.Valid() && newCart !in db.carts.Values
    modifies db
    ensures db.Valid()
    ensures db.carts == if user in old(db.carts) then old(db.carts) else old(db.carts)[user := newCart]
    ensures db.products == old(db.products) && db.categories == old(db.categories) && db.cartItems == old(db.cartItems)
    ensures db.orders == old(db.orders) && db.addresses == old(db.addresses) && db.paymentMethods == old(db.paymentMethods)
    ensures r.id == db.carts[user]
    ensures user !in old(db.carts) ==> r.items == [] && r.itemCount == 0 && r.subtotal == 0
    ensures var lines := old(db.CartLinesOf(user));
      LinesStocked(lines, db.products) &&
      r.items == ViewLines(lines, db.products) &&
      r.itemCount == ItemCount(lines) && r.subtotal == Subtotal(lines, db.products)
  {
    var cart := EnsureCart(db, user, newCart);
    var lines := LinesOf(db.cartItems, cart);
    assert LinesStocked(lines, db.products);
    r := CartView(cart, ViewLines(lines, db.products), ItemCount(lines), Subtotal(lines, db.products));
  }

  /** The refusals of `addItemToCart`, checked before any cart is touched. */
  function AddRefusal(products: Products, productId: ProductId, q: int): (r: Option<Error>)
    ensures r.None? <==> productId in products && products[productId].stock >= q
    ensures productId !in products ==> r == Some(NewAppError("Product not found", 404))
    ensures productId in products && products[productId].stock < q ==> r == Some(NewAppError("Product is out of stock", 400))
  {
    if productId !in products then Some(NewAppError("Product not found", 404))
    else if products[productId].stock < q then Some(NewAppError("Product is out of stock", 400))
    else None
  }

  /** `addItemToCart` with `quantity` defaulting to 1. The stock check compares the
      stock with the quantity being added, not with the merged line. On success the
      cart's line for the product grows by `q`, or a new line of `q` is appended, and
      so the cart's item count grows by `q` and its subtotal by the line total of `q`
      units, while every other cart keeps its lines. */
  method AddItemToCart(db: Db, user: UserId, productId: ProductId, quantity: Option<int>, newCart: CartId)
    returns (r: Reply<CartItem>)
    requires db.Valid() && newCart !in db.carts.Values
    modifies db
    ensures db.Valid()
    ensures var q := quantity.GetOr(1);
      AddRefusal(old(db.products), productId, q).Some? ==>
        r == Failure(AddRefusal(old(db.products), productId, q).value) && unchanged(db)
    ensures var q := quantity.GetOr(1);
      AddRefusal(old(db.products), productId, q).None? ==>
        r.Success? && user in db.carts &&
        db.carts == (if user in old(db.carts) then old(db.carts) else old(db.carts)[user := newCart]) &&
        var cart := db.carts[user];
        var found := FindLine(old(db.cartItems), cart, productId);
        db.cartItems == AddLine(old(db.cartItems), cart, productId, q) &&
        r.value == CartItem(cart, productId, (if found.Some? then old(db.cartItems)[found.value].quantity else 0) + q) &&
        productId in db.products && AddedLine(old(db.cartItems), db.cartItems, db.products, cart, productId, q) &&
        db.CartLinesOf(user) == LinesOf(db.cartItems, cart) && old(db.CartLinesOf(user)) == LinesOf(old(db.cartItems), cart)
    ensures db.products == old(db.products) && db.categories == old(db.categories)
    ensures db.orders == old(db.orders) && db.addresses == old(db.addresses) && db.paymentMethods == old(db.paymentMethods)
  {
    var q := quantity.GetOr(1);
    var refusal := AddRefusal(db.products, productId, q);
    if refusal.Some? {
      return Failure(refusal.value);
    }
    var line := AddToCart(db, user, productId, q, newCart);
    r := Success(line);
  }

  /** The writes of `addItemToCart` once the product and its stock are checked: find or
      create the cart, then merge or append the line. */
  method AddToCart(db: Db, user: UserId, productId: ProductId, q: int, newCart: CartId) returns (line: CartItem)
    requires db.Valid() && newCart !in db.carts.Values && productId in db.products
    modifies db
    ensures db.Valid()
    ensures user in db.carts
    ensures db.carts == if user in old(db.carts) then old(db.carts) else old(db.carts)[user := newCart]
    ensures var cart := db.carts[user];
      var found := FindLine(old(db.cartItems), cart, productId);
      db.cartItems == AddLine(old(db.cartItems), cart, productId, q) &&
      line == CartItem(cart, productId, (if found.Some? then old(db.cartItems)[found.value].quantity else 0) + q) &&
      productId in db.products && AddedLine(old(db.cartItems), db.cartItems, db.products, cart, productId, q) &&
      db.CartLinesOf(user) == LinesOf(db.cartItems, cart) && old(db.CartLinesOf(user)) == LinesOf(old(db.cartItems), cart)
    ensures db.products == old(db.products) && db.categories == old(db.categories)
    ensures db.orders == old(db.orders) && db.addresses == old(db.addresses) && db.paymentMethods == old(db.paymentMethods)
  {
    var cart := EnsureCart(db, user, newCart);
    ghost var before := db.cartItems;
    assert db.CartLinesOf(user) == LinesOf(before, cart);
    AddLineEffect(before, db.products, cart, productId, q);
    line := PutLine(db, cart, productId, q);
    assert db.CartLinesOf(user) == LinesOf(db.cartItems, cart);
  }

  /** The write of `addItemToCart` into an existing cart. */
  method PutLine(db: Db, cart: CartId, productId: ProductId, q: int) returns (line: CartItem)
    requires db.Valid() && cart in db.carts.Values && productId in db.products
    modifies db
    ensures db.Valid()
    ensures db.products == old(db.products) && db.categories == old(db.categories) && db.carts == old(db.carts)
    ensures db.orders == old(db.orders) && db.addresses == old(db.addresses) && db.paymentMethods == old(db.paymentMethods)
    ensures db.cartItems == AddLine(old(db.cartItems), cart, productId, q)
    ensures var found := FindLine(old(db.cartItems), cart, productId);
      line == CartItem(cart, productId, (if found.Some? then old(db.cartItems)[found.value].quantity else 0) + q)
  {
    var items := db.cartItems;
    var found := FindLine(items, cart, productId);
    var next := AddLine(items, cart, productId, q);
    AddLineValid(items, db.products, cart, productId, q);
    AddLineInCarts(items, cart, productId, q);
    RowsReplaced(db.carts, items, next, db.products);
    db.cartItems := next;
    if found.Some? {
      line := CartItem(cart, productId, items[found.value].quantity + q);
    } else {
      line := CartItem(cart, productId, q);
    }
  }

  /** The refusals of `updateCartItem`, in the order the handler checks. */
  function UpdateRefusal(db: Db, user: UserId, productId: ProductId, quantity: Option<int>): (r: Option<Error>)
    reads db
    requires db.Valid()
    ensures quantity.None? || quantity.value < 1 ==> r == Some(NewAppError("Quantity must be at least 1", 400))
    ensures quantity.Some? && quantity.value >= 1 && user !in db.carts ==> r == Some(NewAppError("Cart not found", 404))
    ensures quantity.Some? && quantity.value >= 1 && user in db.carts && FindLine(db.cartItems, db.carts[user], productId).None? ==>
      r == Some(NewAppError("Item not found in cart", 404))
    ensures (quantity.Some? && quantity.value >= 1 && user in db.carts && FindLine(db.cartItems, db.carts[user], productId).Some? &&
             db.products[productId].stock < quantity.value) ==>
      r == Some(NewAppError("Only " + Text.DecimalText(db.products[productId].stock) + " items available in stock", 400))
    ensures r.None? <==>
      quantity.Some? && quantity.value >= 1 && user in db.carts &&
      FindLine(db.cartItems, db.carts[user], productId).Some? && db.products[productId].stock >= quantity.value
  {
    if quantity.None? || quantity.value < 1 then Some(NewAppError("Quantity must be at least 1", 400))
    else if user !in db.carts then Some(NewAppError("Cart not found", 404))
    else if FindLine(db.cartItems, db.carts[user], productId).None? then Some(NewAppError("Item not found in cart", 404))
    else
      var i := FindLine(db.cartItems, db.carts[user], productId).value;
      assert db.cartItems[i] in db.cartItems;
      var stock := db.products[productId].stock;
      if stock < quantity.value then Some(NewAppError("Only " + Text.DecimalText(stock) + " items available in stock", 400))
      else None
  }

  /** `updateCartItem`: the line gets exactly the new quantity, every other line is left
      as it was, and the cart's item count moves by the difference. */
  method UpdateCartItem(db: Db, user: UserId, productId: ProductId, quantity: Option<int>) returns (r: Reply<CartItem>)
    requires db.Valid()
    modifies db
    ensures db.Valid()
    ensures old(UpdateRefusal(db, user, productId, quantity)).Some? ==>
      r == Failure(old(UpdateRefusal(db, user, productId, quantity)).value) && unchanged(db)
    ensures old(UpdateRefusal(db, user, productId, quantity)).None? ==>
      var cart := old(db.carts)[user];
      var i := FindLine(old(db.cartItems), cart, productId).value;
      var q := quantity.value;
      db.cartItems == old(db.cartItems)[i := CartItem(cart, productId, q)] &&
      r == Success(CartItem(cart, productId, q)) &&
      ItemCount(db.CartLinesOf(user)) == ItemCount(old(db.CartLinesOf(user))) + (q - old(db.cartItems)[i].quantity)
    ensures db.products == old(db.products) && db.categories == old(db.categories) && db.carts == old(db.carts)
    ensures db.orders == old(db.orders) && db.addresses == old(db.addresses) && db.paymentMethods == old(db.paymentMethods)
  {
    var refusal := UpdateRefusal(db, user, productId, quantity);
    if refusal.Some? {
      return Failure(refusal.value);
    }
    var cart := db.carts[user];
    var items := db.cartItems;
    var i := FindLine(items, cart, productId).value;
    var q := quantity.value;
    CountAfterUpdate(items, cart, i, q);
    UpdateKeepsValid(items, db.products, i, q);
    db.cartItems := items[i := items[i].(quantity := q)];
    r := Success(CartItem(cart, productId, q));
  }

  /** Why `removeCartItem` refuses. */
  function RemoveRefusal(carts: map<UserId, CartId>, items: Lines, user: UserId, productId: ProductId): (r: Option<Error>)
    ensures r.None? <==> user in carts && FindLine(items, carts[user], productId).Some?
    ensures user !in carts ==> r == Some(NewAppError("Cart not found", 404))
    ensures user in carts && FindLine(items, carts[user], productId).None? ==> r == Some(NewAppError("Item not found in cart", 404))
  {
    if user !in carts then Some(NewAppError("Cart not found", 404))
    else if FindLine(items, carts[user], productId).None? then Some(NewAppError("Item not found in cart", 404))
    else None
  }

  /** `removeCartItem`: deletes exactly the user's line for the product. */
  method RemoveCartItem(db: Db, user: UserId, productId: ProductId) returns (r: Result<(), Error>)
    requires db.Valid()
    modifies db
    ensures db.Valid()
    ensures var refusal := RemoveRefusal(old(db.carts), old(db.cartItems), user, productId);
      refusal.Some? ==> r == Failure(refusal.value) && unchanged(db)
    ensures RemoveRefusal(old(db.carts), old(db.cartItems), user, productId).None? ==>
      r.Success? &&
      forall x :: x in db.cartItems <==> x in old(db.cartItems) && !(x.cartId == old(db.carts)[user] && x.productId == productId)
    ensures db.products == old(db.products) && db.categories == old(db.categories) && db.carts == old(db.carts)
    ensures db.orders == old(db.orders) && db.addresses == old(db.addresses) && db.paymentMethods == old(db.paymentMethods)
  {
    var refusal := RemoveRefusal(db.carts, db.cartItems, user, productId);
    if refusal.Some? {
      return Failure(refusal.value);
    }
    var items := db.cartItems;
    var i := FindLine(items, db.carts[user], productId).value;
    RemoveKeepsValid(items, db.products, i);
    RemoveExactly(items, i);
    db.cartItems := items[..i] + items[i + 1..];
    assert forall x :: x in db.cartItems ==> x in items;
    r := Success(());
  }

  /** `clearCart`: the user's cart loses all its lines; every other cart keeps its
      lines. */
  method ClearCart(db: Db, user: UserId) returns (r: Result<(), Error>)
    requires db.Valid()
    modifies db
    ensures db.Valid()
    ensures user !in old(db.carts) ==> r == Failure(NewAppError("Cart not found", 404)) && unchanged(db)
    ensures user in old(db.carts) ==>
      r.Success? && db.cartItems == WithoutCart(old(db.cartItems), old(db.carts)[user]) && db.CartLinesOf(user) == [] &&
      forall other :: other != old(db.carts)[user] ==> LinesOf(db.cartItems, other) == LinesOf(old(db.cartItems), other)
    ensures db.products == old(db.products) && db.categories == old(db.categories) && db.carts == old(db.carts)
    ensures db.orders == old(db.orders) && db.addresses == old(db.addresses) && db.paymentMethods == old(db.paymentMethods)
  {
    if user !in db.carts {
      return Failure(NewAppError("Cart not found", 404));
    }
    var cart := db.carts[user];
    var items := db.cartItems;
    WithoutCartStocked(items, db.products, cart);
    forall other | other != cart ensures LinesOf(WithoutCart(items, cart), other) == LinesOf(items, other) {
      WithoutCartKeeps(items, cart, other);
    }
    WithoutCartEmpties(items, cart);
    db.cartItems := WithoutCart(items, cart);
    r := Success(());
  }
}
