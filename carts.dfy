/** The cart-item table as rows in storage order, and the folds over a cart's lines
    that `getUserCart` and `createOrder` compute (src/controllers/cartController.js,
    src/controllers/orderController.js). */
module CartLines {
  import opened Wrappers
  import opened Entities

  type Lines = seq<CartItem>
  type Products = map<ProductId, Product>

  /** The `cartId_productId` key is unique: no two rows share a cart and a product. */
  predicate LinesUnique(items: Lines) {
    forall i, j :: 0 <= i < j < |items| ==>
      !(items[i].cartId == items[j].cartId && items[i].productId == items[j].productId)
  }

  /** Every row names a stored product. */
  predicate LinesStocked(items: Lines, products: Products) {
    forall x :: x in items ==> x.productId in products
  }

  /** `cart.items`: the rows of one cart, in storage order. */
  function LinesOf(items: Lines, cart: CartId): (r: Lines)
    ensures |r| <= |items|
    ensures forall x :: x in r <==> x in items && x.cartId == cart
  {
    if items == [] then []
    else
      var rest := LinesOf(items[..|items| - 1], cart);
      var last := items[|items| - 1];
      assert forall x :: x in items <==> x in items[..|items| - 1] || x == last;
      if last.cartId == cart then rest + [last] else rest
  }

  lemma {:induction false} LinesOfAppend(a: Lines, b: Lines, cart: CartId)
    ensures LinesOf(a + b, cart) == LinesOf(a, cart) + LinesOf(b, cart)
    decreases |b|
  {
    if b == [] {
      assert a + b == a;
    } else {
      var b' := b[..|b| - 1];
      assert (a + b)[..|a + b| - 1] == a + b';
      LinesOfAppend(a, b', cart);
    }
  }

  /** `cartItem.findUnique({ where: { cartId_productId } })`: the index of the row
      for this cart and product, if there is one. */
  function FindLine(items: Lines, cart: CartId, product: ProductId): (r: Option<nat>)
    ensures r.Some? ==> r.value < |items| && items[r.value].cartId == cart && items[r.value].productId == product
    ensures r.None? ==> forall i :: 0 <= i < |items| ==> !(items[i].cartId == cart && items[i].productId == product)
  {
    if items == [] then None
    else if items[0].cartId == cart && items[0].productId == product then Some(0)
    else
      var r := FindLine(items[1..], cart, product);
      if r.Some? then Some(r.value + 1) else None
  }

  /** With unique keys the row `FindLine` returns is the only row for its key. */
  lemma FindLineOnly(items: Lines, cart: CartId, product: ProductId, j: int)
    requires LinesUnique(items) && FindLine(items, cart, product).Some?
    requires 0 <= j < |items| && items[j].cartId == cart && items[j].productId == product
    ensures j == FindLine(items, cart, product).value
  {
  }

  /** `cartItem.deleteMany({ where: { cartId } })`: the rows of other carts, in their
      order. */
  function WithoutCart(items: Lines, cart: CartId): (r: Lines)
    ensures |r| <= |items|
    ensures forall x :: x in r <==> x in items && x.cartId != cart
  {
    if items == [] then []
    else
      var rest := WithoutCart(items[..|items| - 1], cart);
      var last := items[|items| - 1];
      assert forall x :: x in items <==> x in items[..|items| - 1] || x == last;
      if last.cartId != cart then rest + [last] else rest
  }

  /** Clearing a cart empties it... */
  lemma {:induction false} WithoutCartEmpties(items: Lines, cart: CartId)
    ensures LinesOf(WithoutCart(items, cart), cart) == []
  {
    if items != [] {
      var init := items[..|items| - 1];
      var last := items[|items| - 1];
      WithoutCartEmpties(init, cart);
      if last.cartId != cart {
        LinesOfAppend(WithoutCart(init, cart), [last], cart);
      }
    }
  }

  /** ... and leaves every other cart's lines as they were. */
  lemma {:induction false} WithoutCartKeeps(items: Lines, cart: CartId, other: CartId)
    requires other != cart
    ensures LinesOf(WithoutCart(items, cart), other) == LinesOf(items, other)
  {
    if items != [] {
      var init := items[..|items| - 1];
      var last := items[|items| - 1];
      WithoutCartKeeps(init, cart, other);
      if last.cartId != cart {
        LinesOfAppend(WithoutCart(init, cart), [last], other);
      } else {
        LinesOfAppend(init, [last], other);
      }
    }
  }

  /** Changing a row's quantity keeps the keys unique and the product references
      valid. */
  lemma UpdateKeepsValid(items: Lines, products: Products, i: int, q: int)
    requires LinesUnique(items) && LinesStocked(items, products) && 0 <= i < |items|
    ensures LinesUnique(items[i := items[i].(quantity := q)]) && LinesStocked(items[i := items[i].(quantity := q)], products)
  {
    var r := items[i := items[i].(quantity := q)];
    assert items[i] in items;
    forall x | x in r ensures x.productId in products {
      var k :| 0 <= k < |r| && r[k] == x;
      assert k != i ==> items[k] in items;
    }
  }

  /** Appending a row whose key is new keeps the keys unique and, when its product is
      stored, the product references valid. */
  lemma AppendKeepsValid(items: Lines, products: Products, line: CartItem)
    requires LinesUnique(items) && LinesStocked(items, products) && line.productId in products
    requires FindLine(items, line.cartId, line.productId).None?
    ensures LinesUnique(items + [line]) && LinesStocked(items + [line], products)
  {
  }

  /** Removing a row keeps the keys unique and the product references valid. */
  lemma RemoveKeepsValid(items: Lines, products: Products, i: int)
    requires LinesUnique(items) && LinesStocked(items, products) && 0 <= i < |items|
    ensures LinesUnique(items[..i] + items[i + 1..]) && LinesStocked(items[..i] + items[i + 1..], products)
  {
    var r := items[..i] + items[i + 1..];
    assert forall k :: 0 <= k < |r| ==> r[k] == if k < i then items[k] else items[k + 1];
  }

  /** With unique keys, removing row `i` removes exactly the row for its cart and
      product and keeps every other row. */
  lemma RemoveExactly(items: Lines, i: int)
    requires LinesUnique(items) && 0 <= i < |items|
    ensures forall x :: x in items[..i] + items[i + 1..] <==>
      x in items && !(x.cartId == items[i].cartId && x.productId == items[i].productId)
  {
    var r := items[..i] + items[i + 1..];
    assert forall k :: 0 <= k < |r| ==> r[k] == if k < i then items[k] else items[k + 1];
    forall x | x in items && !(x.cartId == items[i].cartId && x.productId == items[i].productId)
      ensures x in r
    {
      var k :| 0 <= k < |items| && items[k] == x;
      assert k != i;
      if k < i { assert r[k] == x; } else { assert r[k - 1] == x; }
    }
  }

  /** Clearing a cart keeps the keys unique and the product references valid. */
  lemma WithoutCartStocked(items: Lines, products: Products, cart: CartId)
    requires LinesUnique(items) && LinesStocked(items, products)
    ensures LinesUnique(WithoutCart(items, cart)) && LinesStocked(WithoutCart(items, cart), products)
    decreases |items|
  {
    if items != [] {
      var init := items[..|items| - 1];
      WithoutCartStocked(init, products, cart);
      var rest := WithoutCart(init, cart);
      var last := items[|items| - 1];
      if last.cartId != cart {
        var r := rest + [last];
        forall i, j | 0 <= i < j < |r| ensures !(r[i].cartId == r[j].cartId && r[i].productId == r[j].productId) {
          if j == |r| - 1 {
            assert r[i] in init;
            var k :| 0 <= k < |init| && init[k] == r[i];
            assert items[k] == r[i];
          }
        }
      }
    }
  }

  // ---- folds -----------------------------------------------------------------------

  /** `Number(item.product.price) * item.quantity`. */
  function LineTotal(line: CartItem, products: Products): int
    requires line.productId in products
  {
    products[line.productId].price * line.quantity
  }

  /** Line totals add up over quantities: `q` more units cost `q` units more. */
  lemma LineTotalAdds(x: CartItem, q: int, products: Products)
    requires x.productId in products
    ensures LineTotal(x.(quantity := x.quantity + q), products) == LineTotal(x, products) + LineTotal(x.(quantity := q), products)
  {
    var price := products[x.productId].price;
    assert price * (x.quantity + q) == price * x.quantity + price * q;
  }

  /** `items.reduce((sum, item) => sum + price × quantity, 0)`, folded from the left. */
  function Subtotal(lines: Lines, products: Products): int
    requires LinesStocked(lines, products)
  {
    if lines == [] then 0
    else Subtotal(lines[..|lines| - 1], products) + LineTotal(lines[|lines| - 1], products)
  }

  /** `items.reduce((sum, item) => sum + item.quantity, 0)`. */
  function ItemCount(lines: Lines): int {
    if lines == [] then 0 else ItemCount(lines[..|lines| - 1]) + lines[|lines| - 1].quantity
  }

  /** Both folds add up over a concatenation, so their value is independent of how
      the lines are split. */
  lemma {:induction false} FoldsAppend(a: Lines, b: Lines, products: Products)
    requires LinesStocked(a, products) && LinesStocked(b, products)
    ensures LinesStocked(a + b, products)
    ensures Subtotal(a + b, products) == Subtotal(a, products) + Subtotal(b, products)
    ensures ItemCount(a + b) == ItemCount(a) + ItemCount(b)
    decreases |b|
  {
    CountAppend(a, b);
    if b == [] {
      assert a + b == a;
    } else {
      var b' := b[..|b| - 1];
      assert (a + b)[..|a + b| - 1] == a + b';
      FoldsAppend(a, b', products);
    }
  }

  lemma {:induction false} CountAppend(a: Lines, b: Lines)
    ensures ItemCount(a + b) == ItemCount(a) + ItemCount(b)
    decreases |b|
  {
    if b == [] {
      assert a + b == a;
    } else {
      var b' := b[..|b| - 1];
      assert (a + b)[..|a + b| - 1] == a + b';
      CountAppend(a, b');
    }
  }

  /** A cart's lines split around any row of the table. */
  lemma LinesOfSplit(items: Lines, cart: CartId, i: int)
    requires 0 <= i < |items|
    ensures LinesOf(items, cart) == LinesOf(items[..i], cart) + LinesOf([items[i]], cart) + LinesOf(items[i + 1..], cart)
  {
    assert items == items[..i] + [items[i]] + items[i + 1..];
    LinesOfAppend(items[..i] + [items[i]], items[i + 1..], cart);
    LinesOfAppend(items[..i], [items[i]], cart);
  }

  /** Setting the quantity of one of a cart's rows to `q` changes the cart's item count
      by the difference... */
  lemma CountAfterUpdate(items: Lines, cart: CartId, i: int, q: int)
    requires 0 <= i < |items| && items[i].cartId == cart
    ensures ItemCount(LinesOf(items[i := items[i].(quantity := q)], cart)) == ItemCount(LinesOf(items, cart)) + (q - items[i].quantity)
  {
    var a := LinesOf(items[..i], cart);
    var b := LinesOf(items[i + 1..], cart);
    LinesOfUpdate(items, cart, i, items[i].(quantity := q));
    CountAround(a, items[i], b);
    CountAround(a, items[i].(quantity := q), b);
  }

  /** ... and its subtotal by the difference of the row's old and new line totals. */
  lemma SubtotalAfterUpdate(items: Lines, products: Products, cart: CartId, i: int, q: int)
    requires LinesStocked(items, products) && 0 <= i < |items| && items[i].cartId == cart
    ensures LinesStocked(LinesOf(items, cart), products)
    ensures LinesStocked(LinesOf(items[i := items[i].(quantity := q)], cart), products)
    ensures Subtotal(LinesOf(items[i := items[i].(quantity := q)], cart), products) + LineTotal(items[i], products)
         == Subtotal(LinesOf(items, cart), products) + LineTotal(items[i].(quantity := q), products)
  {
    var x := items[i];
    LinesOfUpdate(items, cart, i, x.(quantity := q));
    assert LinesStocked(LinesOf(items, cart), products);
    SubtotalSwap(LinesOf(items[..i], cart), x, x.(quantity := q), LinesOf(items[i + 1..], cart), products);
  }

  /** Replacing one row by another row changes the subtotal by the difference of
      their line totals. */
  lemma SubtotalSwap(a: Lines, x: CartItem, y: CartItem, b: Lines, products: Products)
    requires LinesStocked(a + [x] + b, products) && y.productId in products
    ensures LinesStocked(a + [y] + b, products) && x.productId in products
    ensures Subtotal(a + [y] + b, products) + LineTotal(x, products)
         == Subtotal(a + [x] + b, products) + LineTotal(y, products)
  {
    assert LinesStocked(a, products) && LinesStocked(b, products) by {
      assert forall z :: z in a ==> z in a + [x] + b;
      assert forall z :: z in b ==> z in a + [x] + b;
    }
    assert x.productId in products by { assert x in a + [x] + b; }
    SubtotalAround(a, x, b, products);
    SubtotalAround(a, y, b, products);
  }

  /** A cart's lines before and after one of its rows is replaced by `x`. */
  lemma LinesOfUpdate(items: Lines, cart: CartId, i: int, x: CartItem)
    requires 0 <= i < |items| && items[i].cartId == cart && x.cartId == cart
    ensures LinesOf(items, cart) == LinesOf(items[..i], cart) + [items[i]] + LinesOf(items[i + 1..], cart)
    ensures LinesOf(items[i := x], cart) == LinesOf(items[..i], cart) + [x] + LinesOf(items[i + 1..], cart)
  {
    var items' := items[i := x];
    LinesOfSplit(items, cart, i);
    LinesOfSplit(items', cart, i);
    assert items'[..i] == items[..i] && items'[i + 1..] == items[i + 1..];
    assert LinesOf([items[i]], cart) == [items[i]] by { assert [items[i]][..0] == []; }
    assert LinesOf([x], cart) == [x] by { assert [x][..0] == []; }
  }

  lemma SubtotalAround(a: Lines, x: CartItem, b: Lines, products: Products)
    requires LinesStocked(a, products) && LinesStocked(b, products) && x.productId in products
    ensures LinesStocked(a + [x] + b, products)
    ensures Subtotal(a + [x] + b, products) == Subtotal(a, products) + LineTotal(x, products) + Subtotal(b, products)
  {
    FoldsAppend(a, [x], products);
    FoldsAppend(a + [x], b, products);
    assert [x][..0] == [];
  }

  lemma CountAround(a: Lines, x: CartItem, b: Lines)
    ensures ItemCount(a + [x] + b) == ItemCount(a) + x.quantity + ItemCount(b)
  {
    CountAppend(a, [x]);
    CountAppend(a + [x], b);
    assert [x][..0] == [];
  }

  /** Appending a row of a cart adds its quantity to the cart's item count and its line
      total to the cart's subtotal. */
  lemma FoldsAfterAppend(items: Lines, products: Products, line: CartItem)
    requires LinesStocked(items, products) && line.productId in products
    ensures LinesStocked(LinesOf(items, line.cartId), products)
    ensures LinesStocked(LinesOf(items + [line], line.cartId), products)
    ensures ItemCount(LinesOf(items + [line], line.cartId)) == ItemCount(LinesOf(items, line.cartId)) + line.quantity
    ensures Subtotal(LinesOf(items + [line], line.cartId), products)
         == Subtotal(LinesOf(items, line.cartId), products) + LineTotal(line, products)
  {
    assert (items + [line])[..|items|] == items;
  }

  // ---- adding a product to a cart ---------------------------------------------------

  /** `addItemToCart`'s write: the cart's row for the product grows by `q`, or, when the
      cart has no row for it, a row of `q` is appended. */
  function AddLine(items: Lines, cart: CartId, product: ProductId, q: int): (r: Lines)
    ensures FindLine(items, cart, product).Some? ==> |r| == |items|
    ensures FindLine(items, cart, product).None? ==> |r| == |items| + 1 && r[|items|] == CartItem(cart, product, q)
    ensures forall k :: 0 <= k < |items| && !(items[k].cartId == cart && items[k].productId == product) ==> r[k] == items[k]
  {
    var found := FindLine(items, cart, product);
    if found.Some? then
      var i := found.value;
      items[i := items[i].(quantity := items[i].quantity + q)]
    else items + [CartItem(cart, product, q)]
  }

  lemma AddLineValid(items: Lines, products: Products, cart: CartId, product: ProductId, q: int)
    requires LinesUnique(items) && LinesStocked(items, products) && product in products
    ensures LinesUnique(AddLine(items, cart, product, q)) && LinesStocked(AddLine(items, cart, product, q), products)
  {
    AddLineEffect(items, products, cart, product, q);
  }

  /** Every row `AddLine` writes was there before or belongs to `cart`. */
  lemma AddLineInCarts(items: Lines, cart: CartId, product: ProductId, q: int)
    ensures forall x :: x in AddLine(items, cart, product, q) ==> x in items || x.cartId == cart
  {
    var found := FindLine(items, cart, product);
    var r := AddLine(items, cart, product, q);
    forall x | x in r ensures x in items || x.cartId == cart {
      var k :| 0 <= k < |r| && r[k] == x;
      if k < |items| && !(items[k].cartId == cart && items[k].productId == product) {
        assert items[k] in items;
      }
    }
  }

  /** The rows of any other cart are not touched by replacing a row of `cart`. */
  lemma LinesOfUpdateOther(items: Lines, cart: CartId, other: CartId, i: int, x: CartItem)
    requires 0 <= i < |items| && items[i].cartId == cart && x.cartId == cart && other != cart
    ensures LinesOf(items[i := x], other) == LinesOf(items, other)
  {
    var items' := items[i := x];
    LinesOfSplit(items, other, i);
    LinesOfSplit(items', other, i);
    assert items'[..i] == items[..i] && items'[i + 1..] == items[i + 1..];
    assert LinesOf([items[i]], other) == [] by { assert [items[i]][..0] == []; }
    assert LinesOf([x], other) == [] by { assert [x][..0] == []; }
  }

  /** What adding `q` units of a stored product to a cart promises of the new rows `r`. */
  ghost predicate AddedLine(items: Lines, r: Lines, products: Products, cart: CartId, product: ProductId, q: int)
    requires product in products
  {
    LinesUnique(r) && LinesStocked(r, products) &&
    LinesStocked(LinesOf(items, cart), products) && LinesStocked(LinesOf(r, cart), products) &&
    ItemCount(LinesOf(r, cart)) == ItemCount(LinesOf(items, cart)) + q &&
    Subtotal(LinesOf(r, cart), products) == Subtotal(LinesOf(items, cart), products) + LineTotal(CartItem(cart, product, q), products) &&
    forall other :: other != cart ==> LinesOf(r, other) == LinesOf(items, other)
  }

  lemma MergeEffect(items: Lines, products: Products, i: int, q: int)
    requires LinesUnique(items) && LinesStocked(items, products) && 0 <= i < |items|
    ensures items[i] in items
    ensures AddedLine(items, items[i := items[i].(quantity := items[i].quantity + q)], products, items[i].cartId, items[i].productId, q)
  {
    var cart := items[i].cartId;
    assert items[i] in items;
    var merged := items[i].(quantity := items[i].quantity + q);
    assert CartItem(cart, items[i].productId, q) == items[i].(quantity := q);
    CountAfterUpdate(items, cart, i, merged.quantity);
    SubtotalAfterUpdate(items, products, cart, i, merged.quantity);
    UpdateKeepsValid(items, products, i, merged.quantity);
    LineTotalAdds(items[i], q, products);
    forall other | other != cart ensures LinesOf(items[i := merged], other) == LinesOf(items, other) {
      LinesOfUpdateOther(items, cart, other, i, merged);
    }
  }

  lemma AppendEffect(items: Lines, products: Products, line: CartItem)
    requires LinesUnique(items) && LinesStocked(items, products) && line.productId in products
    requires FindLine(items, line.cartId, line.productId).None?
    ensures AddedLine(items, items + [line], products, line.cartId, line.productId, line.quantity)
  {
    FoldsAfterAppend(items, products, line);
    AppendKeepsValid(items, products, line);
    forall other | other != line.cartId ensures LinesOf(items + [line], other) == LinesOf(items, other) {
      LinesOfAppend(items, [line], other);
      assert LinesOf([line], other) == [] by { assert [line][..0] == []; }
    }
  }

  /** Adding `q` units of a stored product to a cart keeps the keys unique and the
      product references valid, raises the cart's item count by `q` and its subtotal by
      the line total of `q` units, and leaves every other cart's rows as they were. */
  lemma AddLineEffect(items: Lines, products: Products, cart: CartId, product: ProductId, q: int)
    requires LinesUnique(items) && LinesStocked(items, products) && product in products
    ensures AddedLine(items, AddLine(items, cart, product, q), products, cart, product, q)
  {
    var found := FindLine(items, cart, product);
    var r := AddLine(items, cart, product, q);
    if found.Some? {
      var i := found.value;
      assert r == items[i := items[i].(quantity := items[i].quantity + q)];
      MergeEffect(items, products, i, q);
    } else {
      assert r == items + [CartItem(cart, product, q)];
      AppendEffect(items, products, CartItem(cart, product, q));
    }
  }
}
