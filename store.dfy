/** The database the handlers share, as one mutable store of tables, and the
    integrity rules its tables keep: unique keys, foreign keys that resolve (the
    relations refuse to delete a referenced row), an acyclic category tree, unique
    slugs, and at most one default address and payment method per user. */
module Store {
  import opened Wrappers
  import opened Entities
  import opened Hierarchy
  import opened CartLines
  import opened Defaults
  import opened Errors

  type Orders = map<OrderId, Order>

  /** No two categories share a slug. */
  predicate SlugsUnique(cats: Categories) {
    forall a, b :: a in cats && b in cats && cats[a].slug == cats[b].slug ==> a == b
  }

  /** The category tree is well formed, category ids are non-empty UUIDs, slugs are
      unique and every product's category is stored. */
  ghost predicate CatalogValid(products: Products, cats: Categories) {
    WellFormed(cats) && "" !in cats && SlugsUnique(cats) &&
    forall id :: id in products ==> products[id].categoryId in cats
  }

  /** The 500 the database raises when a write would leave a reference to a missing
      row, or delete a row that is still referenced. */
  const ForeignKeyViolated := Thrown("Foreign key constraint violated")

  /** The 500 the database raises when a write would give two rows one unique key. */
  const UniqueViolated := Thrown("Unique constraint failed")

  /** `category.findUnique({ where: { slug } })`. */
  function CategoryWithSlug(cats: Categories, slug: string): (r: Option<CategoryId>)
    requires SlugsUnique(cats)
    ensures r.Some? ==> r.value in cats && cats[r.value].slug == slug
    ensures r.None? <==> forall c :: c in cats ==> cats[c].slug != slug
  {
    if exists c :: c in cats && cats[c].slug == slug then
      var c :| c in cats && cats[c].slug == slug; Some(c)
    else None
  }

  /** Each user has at most one cart, and cart ids are not shared. */
  predicate CartIdsUnique(carts: map<UserId, CartId>) {
    forall u, v :: u in carts && v in carts && carts[u] == carts[v] ==> u == v
  }

  /** Every cart line belongs to a stored cart, names a stored product, and no cart
      has two lines for one product. */
  predicate CartsValid(carts: map<UserId, CartId>, items: Lines, products: Products) {
    CartIdsUnique(carts) &&
    (forall x :: x in items ==> x.cartId in carts.Values) &&
    LinesUnique(items) && LinesStocked(items, products)
  }

  /** Giving a user without a cart a cart id no stored cart has keeps the cart
      rules, and the new cart has no lines. */
  lemma NewCartValid(carts: map<UserId, CartId>, items: Lines, products: Products, user: UserId, c: CartId)
    requires CartsValid(carts, items, products) && user !in carts && c !in carts.Values
    ensures CartsValid(carts[user := c], items, products)
    ensures LinesOf(items, c) == []
  {
    var n := carts[user := c];
    forall x | x in items ensures x.cartId in n.Values {
      var u :| u in carts && carts[u] == x.cartId;
      assert n[u] == x.cartId;
    }
  }

  /** New rows with unique keys and stored products, each of an old row's cart or of a
      stored cart, keep the cart rules. */
  lemma RowsReplaced(carts: map<UserId, CartId>, items: Lines, next: Lines, products: Products)
    requires CartsValid(carts, items, products) && LinesUnique(next) && LinesStocked(next, products)
    requires forall x :: x in next ==> x in items || x.cartId in carts.Values
    ensures CartsValid(carts, next, products)
  {
  }

  /** Every order item names a stored product. */
  predicate OrdersValid(orders: Orders, products: Products) {
    forall o :: o in orders ==> forall x :: x in orders[o].items ==> x.productId in products
  }

  class Db {
    var products: Products
    var categories: Categories
    var carts: map<UserId, CartId>
    var cartItems: Lines
    var orders: Orders
    var addresses: Table<AddressData>
    var paymentMethods: Table<PaymentData>

    ghost predicate Valid()
      reads this
    {
      CatalogValid(products, categories) &&
      CartsValid(carts, cartItems, products) &&
      OrdersValid(orders, products) &&
      SingleDefault(addresses) && SingleDefault(paymentMethods)
    }

    /** An empty database. */
    constructor ()
      ensures Valid()
      ensures products == map[] && categories == map[] && carts == map[] && cartItems == []
      ensures orders == map[] && addresses == map[] && paymentMethods == map[]
    {
      products := map[];
      categories := map[];
      carts := map[];
      cartItems := [];
      orders := map[];
      addresses := map[];
      paymentMethods := map[];
      new;
      assert RankedBy(map[], map[]);
    }

    /** The lines of the user's cart, in storage order; none when the user has no
        cart. */
    function CartLinesOf(user: UserId): (r: Lines)
      reads this
      ensures user !in carts ==> r == []
      ensures forall x :: x in r <==> user in carts && x in cartItems && x.cartId == carts[user]
    {
      if user in carts then LinesOf(cartItems, carts[user]) else []
    }
  }
}
