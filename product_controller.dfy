/** The product handlers (src/controllers/productController.js): the filtered and
    paginated listing, search, the flag lists, details, and the admin writes. The
    order the database sorts by (the requested field, or `createdAt` descending) is an
    input sequence of product ids; new product ids are the `newId` parameters. */
module ProductController {
  import opened Wrappers
  import opened Entities
  import opened Errors
  import opened Text
  import opened CartLines
  import opened Paging
  import opened Catalog
  import opened Store
  import opened Hierarchy

  // ---- the listing filter ----------------------------------------------------------

  /** The query parameters of `getAllProducts` that filter; `None` is an absent
      parameter, and a present price is the number it parses to. */
  datatype ProductQuery = ProductQuery(category: Option<CategoryId>, minPrice: Option<int>, maxPrice: Option<int>,
                                       brand: Option<string>, search: Option<string>)

  /** A text field a filter can search. */
  datatype TextField = Name | Description | Brand

  datatype PriceRange = PriceRange(gte: Option<int>, lte: Option<int>)

  /** The `where` object: each present part must hold, and at least one of the `OR`
      alternatives when that list is present. */
  datatype Filter = Filter(categoryId: Option<CategoryId>, price: Option<PriceRange>, brand: Option<string>,
                           or: Option<seq<(TextField, string)>>)

  function FieldText(p: Product, f: TextField): string {
    match f
    case Name => p.name
    case Description => p.description
    case Brand => p.brand
  }

  /** How the database reads a `where` object. */
  predicate Satisfies(p: Product, f: Filter) {
    (f.categoryId.None? || p.categoryId == f.categoryId.value) &&
    (f.price.None? ||
      ((f.price.value.gte.None? || p.price >= f.price.value.gte.value) &&
       (f.price.value.lte.None? || p.price <= f.price.value.lte.value))) &&
    (f.brand.None? || p.brand == f.brand.value) &&
    (f.or.None? || exists i :: 0 <= i < |f.or.value| && ContainsInsensitive(FieldText(p, f.or.value[i].0), f.or.value[i].1))
  }

  /** A query text parameter that counts: present and not empty. */
  predicate Given(s: Option<string>) {
    s.Some? && s.value != ""
  }

  /** The filter `getAllProducts` means: the conjunction of the given conditions, with
      the search term found in the name or the description. */
  predicate Matches(p: Product, q: ProductQuery) {
    (!Given(q.category) || p.categoryId == q.category.value) &&
    (q.minPrice.None? || p.price >= q.minPrice.value) &&
    (q.maxPrice.None? || p.price <= q.maxPrice.value) &&
    (!Given(q.brand) || p.brand == q.brand.value) &&
    (!Given(q.search) || ContainsInsensitive(p.name, q.search.value) || ContainsInsensitive(p.description, q.search.value))
  }

  /** The `filter` object `getAllProducts` assembles field by field; the database's
      reading of it is exactly the intended conjunction. */
  function BuildFilter(q: ProductQuery): (f: Filter)
    ensures forall p :: Satisfies(p, f) <==> Matches(p, q)
  {
    var f := Filter(
      if Given(q.category) then q.category else None,
      if q.minPrice.Some? || q.maxPrice.Some? then Some(PriceRange(q.minPrice, q.maxPrice)) else None,
      if Given(q.brand) then q.brand else None,
      if Given(q.search) then Some([(Name, q.search.value), (Description, q.search.value)]) else None);
    assert forall p :: Satisfies(p, f) <==> Matches(p, q) by {
      forall p ensures Satisfies(p, f) <==> Matches(p, q) {
        if Given(q.search) {
          var alts := f.or.value;
          assert alts[0] == (Name, q.search.value) && alts[1] == (Description, q.search.value);
          if ContainsInsensitive(p.name, q.search.value) {
            assert ContainsInsensitive(FieldText(p, alts[0].0), alts[0].1);
          } else if ContainsInsensitive(p.description, q.search.value) {
            assert ContainsInsensitive(FieldText(p, alts[1].0), alts[1].1);
          }
        }
      }
    }
    f
  }

  /** `getAllProducts`: the matching products in the requested order, page 1 and limit
      10 by default. */
  function AllProducts(products: Products, order: seq<ProductId>, q: ProductQuery, page: Option<int>, limit: Option<int>): (r: Reply<Listing>)
    requires Stored(products, order)
    ensures r.Failure? <==> SkipOf(page.GetOr(1), limit.GetOr(10)) < 0
    ensures r.Success? ==>
      (forall p :: p in r.value.rows ==> p in products && Matches(products[p], q)) &&
      r.value.total == |Where(products, order, (x: Product) => Matches(x, q))| &&
      r.value.page == page.GetOr(1) && r.value.limit == limit.GetOr(10) &&
      r.value.pages == Pages(r.value.total, limit.GetOr(10)) &&
      PageOf(r.value.rows, Where(products, order, (x: Product) => Matches(x, q)), SkipOf(page.GetOr(1), limit.GetOr(10)), limit.GetOr(10))
  {
    var f := BuildFilter(q);
    var keep := (x: Product) => Satisfies(x, f);
    assert Where(products, order, keep) == Where(products, order, (x: Product) => Matches(x, q)) by {
      SameWhere(products, order, keep, (x: Product) => Matches(x, q));
    }
    Paginate(products, order, keep, page.GetOr(1), limit.GetOr(10))
  }

  /** Two predicates that agree on every product select the same rows. */
  lemma {:induction false} SameWhere(products: Products, order: seq<ProductId>, a: Product -> bool, b: Product -> bool)
    requires Stored(products, order) && forall x :: a(x) == b(x)
    ensures Where(products, order, a) == Where(products, order, b)
  {
    if order != [] {
      SameWhere(products, order[1..], a, b);
    }
  }

  // ---- search ----------------------------------------------------------------------

  /** `searchProducts`' filter: the term in the name, the description or the brand. */
  function SearchFilter(q: string): Filter {
    Filter(None, None, None, Some([(Name, q), (Description, q), (Brand, q)]))
  }

  /** A product the search for `q` finds. */
  predicate Found(p: Product, q: string) {
    ContainsInsensitive(p.name, q) || ContainsInsensitive(p.description, q) || ContainsInsensitive(p.brand, q)
  }

  lemma SearchFilterMeansFound(p: Product, q: string)
    ensures Satisfies(p, SearchFilter(q)) <==> Found(p, q)
  {
    var alts := SearchFilter(q).or.value;
    if ContainsInsensitive(p.name, q) {
      assert ContainsInsensitive(FieldText(p, alts[0].0), alts[0].1);
    } else if ContainsInsensitive(p.description, q) {
      assert ContainsInsensitive(FieldText(p, alts[1].0), alts[1].1);
    } else if ContainsInsensitive(p.brand, q) {
      assert ContainsInsensitive(FieldText(p, alts[2].0), alts[2].1);
    }
  }

  /** `searchProducts`: 400 without a search term; otherwise the products whose name,
      description or brand contain it, newest first. */
  function SearchProducts(products: Products, newestFirst: seq<ProductId>, q: Option<string>, page: Option<int>, limit: Option<int>): (r: Reply<Listing>)
    requires Stored(products, newestFirst)
    ensures !Given(q) ==> r == Failure(NewAppError("Search query is required", 400))
    ensures Given(q) ==> (r.Failure? <==> SkipOf(page.GetOr(1), limit.GetOr(10)) < 0)
    ensures r.Success? ==>
      Given(q) &&
      (forall p :: p in r.value.rows ==> p in products && Found(products[p], q.value)) &&
      r.value.total == |Where(products, newestFirst, (x: Product) => Found(x, q.value))| &&
      r.value.page == page.GetOr(1) && r.value.limit == limit.GetOr(10) &&
      r.value.pages == Pages(r.value.total, limit.GetOr(10)) &&
      PageOf(r.value.rows, Where(products, newestFirst, (x: Product) => Found(x, q.value)), SkipOf(page.GetOr(1), limit.GetOr(10)), limit.GetOr(10))
  {
    if !Given(q) then Failure(NewAppError("Search query is required", 400))
    else
      var f := SearchFilter(q.value);
      var keep := (x: Product) => Satisfies(x, f);
      var found := (x: Product) => Found(x, q.value);
      forall x ensures keep(x) == found(x) {
        SearchFilterMeansFound(x, q.value);
      }
      SameWhere(products, newestFirst, keep, found);
      Paginate(products, newestFirst, keep, page.GetOr(1), limit.GetOr(10))
  }

  // ---- flag lists ------------------------------------------------------------------

  /** The four lists of the storefront. */
  datatype Flag = Featured | NewArrival | BestSeller | Deal

  predicate HasFlag(p: Product, flag: Flag) {
    match flag
    case Featured => p.featured
    case NewArrival => p.isNewArrival
    case BestSeller => p.isBestSeller
    case Deal => p.oldPrice.Some?
  }

  /** `getFeaturedProducts`, `getNewArrivals`, `getBestSellers` and `getDeals`: the
      newest products with the flag (for deals, with an old price), at most `limit`
      of them, 8 by default, and no skip. */
  function FlagList(products: Products, newestFirst: seq<ProductId>, flag: Flag, limit: Option<int>): (r: seq<ProductId>)
    requires Stored(products, newestFirst)
    ensures forall p :: p in r ==> p in products && HasFlag(products[p], flag)
    ensures var all := Where(products, newestFirst, (x: Product) => HasFlag(x, flag));
      var n := limit.GetOr(8);
      (n >= 0 ==> r == all[..Min(n, |all|)]) && (n < 0 ==> r == all[Max(0, |all| + n)..])
  {
    var keep := (x: Product) => HasFlag(x, flag);
    var all := Where(products, newestFirst, keep);
    var r := Page(all, 0, limit.GetOr(8)).value;
    forall p | p in r ensures p in all {
      PageFromRows(all, 0, limit.GetOr(8), p);
    }
    r
  }

  // ---- details ---------------------------------------------------------------------

  /** `getProductDetails`: the product, or 404. */
  function ProductDetails(products: Products, id: ProductId): (r: Reply<Product>)
    ensures r.Success? <==> id in products
    ensures r.Success? ==> r.value == products[id]
    ensures r.Failure? ==> r.error == NewAppError("Product not found", 404)
  {
    if id in products then Success(products[id]) else Failure(NewAppError("Product not found", 404))
  }

  // ---- writes ----------------------------------------------------------------------

  /** The body of `createProduct`; the optional parts are `None` when absent. */
  datatype ProductInput = ProductInput(
    name: string, price: int, oldPrice: Option<int>, description: string, image: string,
    images: Option<seq<string>>, brand: string, categoryId: CategoryId, stock: int,
    featured: Option<bool>, isNewArrival: Option<bool>, isBestSeller: Option<bool>,
    specifications: Option<map<string, string>>)

  /** The row `createProduct` stores: no images, no flags and no specifications
      unless given. */
  function NewProduct(x: ProductInput): (p: Product)
    ensures p.name == x.name && p.price == x.price && p.oldPrice == x.oldPrice && p.categoryId == x.categoryId && p.stock == x.stock
    ensures p.description == x.description && p.image == x.image && p.brand == x.brand
    ensures p.images == (if x.images.Some? then x.images.value else [])
    ensures p.featured == (x.featured == Some(true)) && p.isNewArrival == (x.isNewArrival == Some(true))
    ensures p.isBestSeller == (x.isBestSeller == Some(true))
    ensures p.specifications == (if x.specifications.Some? then x.specifications.value else map[])
  {
    Product(x.name, x.price, x.oldPrice, x.description, x.image, x.images.GetOr([]), x.brand, x.categoryId, x.stock,
            x.featured.GetOr(false), x.isNewArrival.GetOr(false), x.isBestSeller.GetOr(false), x.specifications.GetOr(map[]))
  }

  /** `createProduct`: 404 when the category is not stored; otherwise exactly the new
      product is added. */
  method CreateProduct(db: Db, newId: ProductId, x: ProductInput) returns (r: Reply<Product>)
    requires db.Valid() && newId !in db.products
    modifies db
    ensures db.Valid()
    ensures x.categoryId !in old(db.categories) ==> r == Failure(NewAppError("Category not found", 404)) && unchanged(db)
    ensures x.categoryId in old(db.categories) ==>
      r == Success(NewProduct(x)) && db.products == old(db.products)[newId := NewProduct(x)]
    ensures db.categories == old(db.categories) && db.carts == old(db.carts) && db.cartItems == old(db.cartItems)
    ensures db.orders == old(db.orders) && db.addresses == old(db.addresses) && db.paymentMethods == old(db.paymentMethods)
  {
    if x.categoryId !in db.categories {
      return Failure(NewAppError("Category not found", 404));
    }
    var p := NewProduct(x);
    db.products := db.products[newId := p];
    r := Success(p);
  }

  /** The body of `updateProduct`: absent fields keep their value; `oldPrice` may also
      be cleared. */
  datatype ProductPatch = ProductPatch(
    name: Option<string>, price: Option<int>, oldPrice: Patch<int>, description: Option<string>, image: Option<string>,
    images: Option<seq<string>>, brand: Option<string>, categoryId: Option<CategoryId>, stock: Option<int>,
    featured: Option<bool>, isNewArrival: Option<bool>, isBestSeller: Option<bool>,
    specifications: Option<map<string, string>>)

  function PatchedProduct(p: Product, x: ProductPatch): Product {
    Product(x.name.GetOr(p.name), x.price.GetOr(p.price), Patched(p.oldPrice, x.oldPrice), x.description.GetOr(p.description),
            x.image.GetOr(p.image), x.images.GetOr(p.images), x.brand.GetOr(p.brand), x.categoryId.GetOr(p.categoryId),
            x.stock.GetOr(p.stock), x.featured.GetOr(p.featured), x.isNewArrival.GetOr(p.isNewArrival),
            x.isBestSeller.GetOr(p.isBestSeller), x.specifications.GetOr(p.specifications))
  }

  /** Why `updateProduct` refuses: a missing product, a given category that is not
      stored, or an empty category id, which skips the check and then fails the
      database's reference check. */
  function UpdateRefusal(products: Products, cats: Categories, id: ProductId, categoryId: Option<CategoryId>): (r: Option<Error>)
    ensures r.None? <==> id in products && (categoryId.None? || (categoryId.value != "" && categoryId.value in cats))
    ensures id !in products ==> r == Some(NewAppError("Product not found", 404))
    ensures id in products && categoryId.Some? && categoryId.value != "" && categoryId.value !in cats ==>
      r == Some(NewAppError("Category not found", 404))
    ensures id in products && categoryId == Some("") ==> r == Some(ForeignKeyViolated)
  {
    if id !in products then Some(NewAppError("Product not found", 404))
    else if categoryId.Some? && categoryId.value != "" && categoryId.value !in cats then Some(NewAppError("Category not found", 404))
    else if categoryId == Some("") then Some(ForeignKeyViolated)
    else None
  }

  /** `updateProduct`: rewrites exactly the product `id`. */
  method UpdateProduct(db: Db, id: ProductId, x: ProductPatch) returns (r: Reply<Product>)
    requires db.Valid()
    modifies db
    ensures db.Valid()
    ensures var refusal := UpdateRefusal(old(db.products), old(db.categories), id, x.categoryId);
      refusal.Some? ==> r == Failure(refusal.value) && unchanged(db)
    ensures UpdateRefusal(old(db.products), old(db.categories), id, x.categoryId).None? ==>
      r == Success(PatchedProduct(old(db.products)[id], x)) && db.products == old(db.products)[id := r.value]
    ensures db.categories == old(db.categories) && db.carts == old(db.carts) && db.cartItems == old(db.cartItems)
    ensures db.orders == old(db.orders) && db.addresses == old(db.addresses) && db.paymentMethods == old(db.paymentMethods)
  {
    var refusal := UpdateRefusal(db.products, db.categories, id, x.categoryId);
    if refusal.Some? {
      return Failure(refusal.value);
    }
    var p := PatchedProduct(db.products[id], x);
    db.products := db.products[id := p];
    r := Success(p);
  }

  /** A cart line or an order item still names the product. */
  predicate Referenced(items: Lines, orders: Orders, id: ProductId) {
    (exists x :: x in items && x.productId == id) ||
    (exists o :: o in orders && exists y :: y in orders[o].items && y.productId == id)
  }

  /** `deleteProduct`: 404 for a missing product; a product still in a cart or an
      order is kept by the database's reference check; otherwise exactly that product
      is removed. */
  method DeleteProduct(db: Db, id: ProductId) returns (r: Result<(), Error>)
    requires db.Valid()
    modifies db
    ensures db.Valid()
    ensures id !in old(db.products) ==> r == Failure(NewAppError("Product not found", 404)) && unchanged(db)
    ensures id in old(db.products) && Referenced(old(db.cartItems), old(db.orders), id) ==>
      r == Failure(ForeignKeyViolated) && unchanged(db)
    ensures id in old(db.products) && !Referenced(old(db.cartItems), old(db.orders), id) ==>
      r.Success? && db.products == old(db.products) - {id}
    ensures db.categories == old(db.categories) && db.carts == old(db.carts) && db.cartItems == old(db.cartItems)
    ensures db.orders == old(db.orders) && db.addresses == old(db.addresses) && db.paymentMethods == old(db.paymentMethods)
  {
    if id !in db.products {
      return Failure(NewAppError("Product not found", 404));
    }
    if Referenced(db.cartItems, db.orders, id) {
      return Failure(ForeignKeyViolated);
    }
    db.products := db.products - {id};
    r := Success(());
  }
}
