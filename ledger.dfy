/** The stock ledger of checkout and cancellation: the order snapshot taken from a
    cart's lines, the stock each checkout takes and each cancellation gives back
    (src/controllers/orderController.js). */
module Ledger {
  import opened Entities
  import opened CartLines

  /** The quantity of `id` asked for by a sequence of cart lines. */
  function Demand(lines: Lines, id: ProductId): int {
    if lines == [] then 0
    else
      var last := lines[|lines| - 1];
      Demand(lines[..|lines| - 1], id) + (if last.productId == id then last.quantity else 0)
  }

  /** The quantity of `id` recorded by a sequence of order items. */
  function ItemDemand(items: seq<OrderItem>, id: ProductId): int {
    if items == [] then 0
    else
      var last := items[|items| - 1];
      ItemDemand(items[..|items| - 1], id) + (if last.productId == id then last.quantity else 0)
  }

  /** A product no line names is not asked for... */
  lemma {:induction false} DemandAbsent(lines: Lines, id: ProductId)
    requires forall x :: x in lines ==> x.productId != id
    ensures Demand(lines, id) == 0
    decreases |lines|
  {
    if lines != [] {
      var init := lines[..|lines| - 1];
      assert forall x :: x in init ==> x in lines;
      DemandAbsent(init, id);
      assert lines[|lines| - 1] in lines;
    }
  }

  /** ... so checkout leaves its stock, and every other field of every product,
      as it was. */
  lemma UntouchedByCheckout(products: Products, lines: Lines, id: ProductId)
    requires id in products && forall x :: x in lines ==> x.productId != id
    ensures Destocked(products, lines)[id] == products[id]
  {
    DemandAbsent(lines, id);
  }

  /** Checkout changes nothing but stock. */
  lemma OnlyStockChanges(products: Products, lines: Lines, id: ProductId)
    requires id in products
    ensures Destocked(products, lines).Keys == products.Keys
    ensures Destocked(products, lines)[id].(stock := products[id].stock) == products[id]
  {
  }

  /** `cart.items.map(item => ({ productId, productName, productImage, price, quantity }))`:
      one order item per cart line, copying the product's name, image and price as
      they are at checkout. */
  function ItemsOf(lines: Lines, products: Products): (r: seq<OrderItem>)
    requires LinesStocked(lines, products)
    ensures |r| == |lines|
    ensures forall i :: 0 <= i < |r| ==>
      var p := products[lines[i].productId];
      r[i] == OrderItem(lines[i].productId, p.name, p.image, p.price, lines[i].quantity)
  {
    seq(|lines|, i requires 0 <= i < |lines| =>
      assert lines[i] in lines;
      var p := products[lines[i].productId];
      OrderItem(lines[i].productId, p.name, p.image, p.price, lines[i].quantity))
  }

  /** The snapshot records exactly the quantities the cart asked for. */
  lemma {:induction false} ItemsOfDemand(lines: Lines, products: Products, id: ProductId)
    requires LinesStocked(lines, products)
    ensures ItemDemand(ItemsOf(lines, products), id) == Demand(lines, id)
    decreases |lines|
  {
    if lines != [] {
      var init := lines[..|lines| - 1];
      assert LinesStocked(init, products) by {
        assert forall x :: x in init ==> x in lines;
      }
      ItemsOfDemand(init, products, id);
      assert ItemsOf(lines, products)[..|lines| - 1] == ItemsOf(init, products);
    }
  }

  /** `createOrder`'s stock loop, summed up: every stored product loses what the lines
      ask for it; a product no line names keeps its stock. No lower bound is checked. */
  function Destocked(products: Products, lines: Lines): Products
  {
    map id | id in products :: products[id].(stock := products[id].stock - Demand(lines, id))
  }

  /** `cancelOrder`'s stock loop, summed up: every stored product gets back what the
      order recorded for it. */
  function Restocked(products: Products, items: seq<OrderItem>): Products
  {
    map id | id in products :: products[id].(stock := products[id].stock + ItemDemand(items, id))
  }

  /** `product.update({ data: { stock: { increment: delta } } })` on one stored product. */
  function Shift(products: Products, id: ProductId, delta: int): (r: Products)
    requires id in products
    ensures r.Keys == products.Keys
    ensures r[id].stock == products[id].stock + delta
    ensures forall k :: k in products && k != id ==> r[k] == products[k]
  {
    products[id := products[id].(stock := products[id].stock + delta)]
  }

  /** One more turn of the checkout loop: decrementing the product of line `i`. */
  lemma DestockStep(products: Products, lines: Lines, i: int)
    requires 0 <= i < |lines| && lines[i].productId in products
    ensures Destocked(products, lines[..i]).Keys == products.Keys
    ensures Destocked(products, lines[..i + 1]) == Shift(Destocked(products, lines[..i]), lines[i].productId, -lines[i].quantity)
  {
    var x := lines[i];
    assert lines[..i + 1] == lines[..i] + [x];
    assert (lines[..i] + [x])[..i] == lines[..i];
    var a := Destocked(products, lines[..i + 1]);
    var b := Shift(Destocked(products, lines[..i]), x.productId, -x.quantity);
    assert a.Keys == b.Keys;
    forall k | k in a ensures a[k] == b[k] {
      assert Demand(lines[..i + 1], k) == Demand(lines[..i], k) + if x.productId == k then x.quantity else 0;
    }
  }

  /** One more turn of the cancellation loop: incrementing the product of item `i`. */
  lemma RestockStep(products: Products, items: seq<OrderItem>, i: int)
    requires 0 <= i < |items| && items[i].productId in products
    ensures Restocked(products, items[..i]).Keys == products.Keys
    ensures Restocked(products, items[..i + 1]) == Shift(Restocked(products, items[..i]), items[i].productId, items[i].quantity)
  {
    var x := items[i];
    assert items[..i + 1] == items[..i] + [x];
    assert (items[..i] + [x])[..i] == items[..i];
    var a := Restocked(products, items[..i + 1]);
    var b := Shift(Restocked(products, items[..i]), x.productId, x.quantity);
    assert a.Keys == b.Keys;
    forall k | k in a ensures a[k] == b[k] {
      assert ItemDemand(items[..i + 1], k) == ItemDemand(items[..i], k) + if x.productId == k then x.quantity else 0;
    }
  }

  /** Cancelling an order gives back exactly what its checkout took: every product's
      stock is restored. */
  lemma RestoreAfterCheckout(products: Products, lines: Lines)
    requires LinesStocked(lines, products)
    ensures Restocked(Destocked(products, lines), ItemsOf(lines, products)) == products
  {
    var items := ItemsOf(lines, products);
    var d := Destocked(products, lines);
    var r := Restocked(d, items);
    assert r.Keys == products.Keys;
    forall id | id in products ensures r[id] == products[id] {
      ItemsOfDemand(lines, products, id);
      assert r[id].stock == d[id].stock + Demand(lines, id);
    }
  }
}
