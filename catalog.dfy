/** The product listings the catalog handlers share: the rows a `findMany` returns
    for a `where` predicate in a requested order, and the paginated listing with its
    `total` and `pages` (src/controllers/productController.js,
    src/controllers/categoryController.js). The order the database sorts by is an
    input: a sequence listing stored products, each once. */
module Catalog {
  import opened Wrappers
  import opened Entities
  import opened Errors
  import opened CartLines
  import opened Paging

  /** `order` lists stored products. */
  predicate Stored(products: Products, order: seq<ProductId>) {
    forall i :: 0 <= i < |order| ==> order[i] in products
  }

  /** `order` lists stored products, none twice. */
  predicate Listed(products: Products, order: seq<ProductId>) {
    Stored(products, order) && forall i, j :: 0 <= i < j < |order| ==> order[i] != order[j]
  }

  /** `a` comes before `b` in `order`. */
  predicate Precedes(order: seq<ProductId>, a: ProductId, b: ProductId) {
    exists i, j :: 0 <= i < j < |order| && order[i] == a && order[j] == b
  }

  /** `findMany({ where, orderBy })`: the products of `order` that satisfy `keep`, in
      the order of `order`. */
  function Where(products: Products, order: seq<ProductId>, keep: Product -> bool): (r: seq<ProductId>)
    requires Stored(products, order)
    ensures Stored(products, r)
    ensures forall p :: p in r <==> p in order && keep(products[p])
  {
    if order == [] then []
    else
      var rest := Where(products, order[1..], keep);
      assert forall p :: p in order <==> p == order[0] || p in order[1..];
      if keep(products[order[0]]) then [order[0]] + rest else rest
  }

  /** Every two entries of `r` come in the order they have in `order`. */
  predicate InOrder(order: seq<ProductId>, r: seq<ProductId>) {
    forall i, j :: 0 <= i < j < |r| ==> Precedes(order, r[i], r[j])
  }

  /** The listing keeps the requested order and lists no product twice. */
  lemma {:induction false} WhereKeepsOrder(products: Products, order: seq<ProductId>, keep: Product -> bool)
    requires Listed(products, order)
    ensures Listed(products, Where(products, order, keep))
    ensures InOrder(order, Where(products, order, keep))
  {
    if order != [] {
      var tail := order[1..];
      assert Listed(products, tail);
      WhereKeepsOrder(products, tail, keep);
      var rest := Where(products, tail, keep);
      assert order[0] !in tail;
      if keep(products[order[0]]) {
        ConsInOrder(order, rest);
      } else {
        TailInOrder(order, rest);
      }
    }
  }

  lemma TailInOrder(order: seq<ProductId>, rest: seq<ProductId>)
    requires order != [] && InOrder(order[1..], rest)
    ensures InOrder(order, rest)
  {
    forall i, j | 0 <= i < j < |rest| ensures Precedes(order, rest[i], rest[j]) {
      PrecedesInTail(order, rest[i], rest[j]);
    }
  }

  lemma ConsInOrder(order: seq<ProductId>, rest: seq<ProductId>)
    requires order != [] && InOrder(order[1..], rest) && forall p :: p in rest ==> p in order[1..]
    ensures InOrder(order, [order[0]] + rest)
  {
    TailInOrder(order, rest);
    var r := [order[0]] + rest;
    forall i, j | 0 <= i < j < |r| ensures Precedes(order, r[i], r[j]) {
      if i == 0 {
        assert r[j] == rest[j - 1] && rest[j - 1] in rest;
        HeadPrecedes(order, r[j]);
      } else {
        assert r[i] == rest[i - 1] && r[j] == rest[j - 1];
      }
    }
  }

  lemma PrecedesInTail(order: seq<ProductId>, a: ProductId, b: ProductId)
    requires order != [] && Precedes(order[1..], a, b)
    ensures Precedes(order, a, b)
  {
    var i, j :| 0 <= i < j < |order[1..]| && order[1..][i] == a && order[1..][j] == b;
    assert order[i + 1] == a && order[j + 1] == b;
  }

  lemma HeadPrecedes(order: seq<ProductId>, b: ProductId)
    requires order != [] && b in order[1..]
    ensures Precedes(order, order[0], b)
  {
    var k :| 0 <= k < |order[1..]| && order[1..][k] == b;
    assert order[k + 1] == b;
  }

  /** The 500 the database raises for a negative `skip`. */
  const NegativeSkip := Thrown("Invalid value for skip argument: value can only be positive")

  /** A page of a listing and its `pagination` block. */
  datatype Listing = Listing(rows: seq<ProductId>, page: int, limit: int, total: nat, pages: Option<int>)

  /** `findMany({ where, orderBy, skip, take: limit })` with `count({ where })`: the page
      holds a run of consecutive matching rows, no more than the limit; `total` counts
      every matching product whatever the page, and `pages` is its ceiling quotient. */
  function Paginate(products: Products, order: seq<ProductId>, keep: Product -> bool, page: int, limit: int): (r: Reply<Listing>)
    requires Stored(products, order)
    ensures r.Failure? <==> SkipOf(page, limit) < 0
    ensures r.Failure? ==> r.error == NegativeSkip
    ensures r.Success? ==>
      var all := Where(products, order, keep);
      r.value.page == page && r.value.limit == limit && r.value.total == |all| && r.value.pages == Pages(|all|, limit) &&
      (forall p :: p in r.value.rows ==> p in products && keep(products[p])) &&
      (limit >= 0 ==> |r.value.rows| <= limit) &&
      PageOf(r.value.rows, all, SkipOf(page, limit), limit)
  {
    var all := Where(products, order, keep);
    match Page(all, SkipOf(page, limit), limit)
    case None => Failure(NegativeSkip)
    case Some(rows) =>
      forall p | p in rows ensures p in all {
        PageFromRows(all, SkipOf(page, limit), limit, p);
      }
      Success(Listing(rows, page, limit, |all|, Pages(|all|, limit)))
  }

  /** With a positive limit, the pages from 1 to `pages` hold every matching product:
      each matching product is on one of them. */
  lemma EveryMatchOnSomePage(products: Products, order: seq<ProductId>, keep: Product -> bool, limit: int, p: ProductId)
    requires Stored(products, order) && limit > 0
    requires p in order && keep(products[p])
    ensures var page := IndexOf(Where(products, order, keep), p) / limit + 1;
      Paginate(products, order, keep, page, limit).Success? &&
      p in Paginate(products, order, keep, page, limit).value.rows &&
      page <= Pages(|Where(products, order, keep)|, limit).value
  {
    var all := Where(products, order, keep);
    var i := IndexOf(all, p);
    var page := i / limit + 1;
    var skip := SkipOf(page, limit);
    PageOfIndex(i, |all|, limit);
    var rows := Page(all, skip, limit).value;
    assert rows == all[skip..Min(skip + limit, |all|)];
    assert rows[i - skip] == p;
  }

  /** Row `i` of `n` lies on page `i / limit + 1`, which is at most `pages`. */
  lemma PageOfIndex(i: int, n: int, limit: int)
    requires 0 <= i < n && limit > 0
    ensures var skip := SkipOf(i / limit + 1, limit); 0 <= skip <= i < skip + limit
    ensures i / limit + 1 <= Pages(n, limit).value
  {
    var q := i / limit;
    assert SkipOf(q + 1, limit) == q * limit;
    assert i == q * limit + i % limit;
    MulNonNegative(q, limit);
    assert (n + limit - 1) == (q + 1) * limit + (n - 1 - i) + (i % limit) by {
      assert (q + 1) * limit == q * limit + limit;
    }
    DivAtLeast(n + limit - 1, q + 1, limit);
  }

  /** `a / d >= m` when `a >= m * d`. */
  lemma DivAtLeast(a: int, m: int, d: int)
    requires d > 0 && m >= 0 && a >= m * d
    ensures a / d >= m
  {
    if a / d < m {
      MulMonotone(a / d + 1, m, d);
    }
  }

  /** The position of an element of a sequence. */
  function IndexOf<T(==)>(s: seq<T>, x: T): (i: nat)
    requires x in s
    ensures i < |s| && s[i] == x
  {
    if s[0] == x then 0 else 1 + IndexOf(s[1..], x)
  }
}
