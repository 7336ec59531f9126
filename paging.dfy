/** The pagination arithmetic the listing handlers share: `skip = (page - 1) * limit`,
    the page of rows the database returns for that skip and take, and
    `pages = Math.ceil(total / limit)` (src/controllers/productController.js,
    src/controllers/categoryController.js). */
module Paging {
  import opened Wrappers

  /** `const skip = (pageNumber - 1) * limitNumber`. */
  function SkipOf(page: int, limit: int): int {
    (page - 1) * limit
  }

  function Min(a: int, b: int): int { if a <= b then a else b }
  function Max(a: int, b: int): int { if a <= b then b else a }

  /** `page` is what skipping `skip` rows and taking `take` gives: with `take >= 0`
      the next `take` rows after the skipped ones (fewer at the end); with `take < 0`
      the `-take` rows that end `skip` rows before the end (fewer at the front). */
  ghost predicate PageOf<T>(page: seq<T>, rows: seq<T>, skip: nat, take: int) {
    var n := |rows|;
    if take >= 0 then
      |page| == Min(take, Max(0, n - skip)) &&
      forall i :: 0 <= i < |page| ==> skip + i < n && page[i] == rows[skip + i]
    else
      |page| == Min(-take, Max(0, n - skip)) &&
      forall i :: 0 <= i < |page| ==> 0 <= n - skip - |page| + i < n && page[i] == rows[n - skip - |page| + i]
  }

  /** The rows `findMany({ skip, take })` returns from the matching rows, in their
      order: `None` when the database refuses a negative skip. A non-negative take
      counts forward after the skipped rows; a negative take counts backward from the
      end, after skipping as many rows from the end. */
  function Page<T>(rows: seq<T>, skip: int, take: int): (r: Option<seq<T>>)
    ensures r.Some? <==> skip >= 0
    ensures r.Some? && take >= 0 ==> |r.value| <= take
    ensures r.Some? && take < 0 ==> |r.value| <= -take
    ensures r.Some? ==> PageOf(r.value, rows, skip, take)
    ensures r.Some? ==> exists k, j :: 0 <= k <= j <= |rows| && r.value == rows[k..j]
  {
    if skip < 0 then None
    else
      var n := |rows|;
      var lo := if take >= 0 then Min(skip, n) else Max(0, n - skip + take);
      var hi := if take >= 0 then Min(skip + take, n) else Max(0, n - skip);
      Some(rows[lo..hi])
  }

  /** A page holds only rows of the matching list. */
  lemma PageFromRows<T>(rows: seq<T>, skip: int, take: int, x: T)
    requires Page(rows, skip, take).Some? && x in Page(rows, skip, take).value
    ensures x in rows
  {
    var p := Page(rows, skip, take).value;
    var k, j :| 0 <= k <= j <= |rows| && p == rows[k..j];
    var i :| 0 <= i < |p| && p[i] == x;
    assert rows[k + i] == x;
  }

  /** `Math.ceil(total / limit)` for a row count; `None` stands for the JSON `null`
      that `Infinity` (or `NaN`, when `total` is 0) becomes when `limit` is 0. */
  function Pages(total: nat, limit: int): (r: Option<int>)
    ensures r.None? <==> limit == 0
  {
    if limit == 0 then None
    else if limit > 0 then Some((total + limit - 1) / limit)
    else Some(-(total / -limit))
  }

  /** With a positive limit, `pages` is the least number of pages that hold every
      row. */
  lemma PagesIsCeiling(total: nat, limit: int)
    requires limit > 0
    ensures Pages(total, limit).value * limit >= total
    ensures Pages(total, limit).value == 0 || (Pages(total, limit).value - 1) * limit < total
  {
    var q := (total + limit - 1) / limit;
    var m := (total + limit - 1) % limit;
    assert total + limit - 1 == q * limit + m;
    assert (q - 1) * limit == q * limit - limit;
  }

  /** With a positive limit, page number `page` (counting from 1) is non-empty
      exactly when `1 <= page <= pages`. */
  lemma NonEmptyPages<T>(rows: seq<T>, page: int, limit: int)
    requires limit > 0 && page >= 1
    ensures Page(rows, SkipOf(page, limit), limit).Some?
    ensures Page(rows, SkipOf(page, limit), limit).value != [] <==> page <= Pages(|rows|, limit).value
  {
    PagesIsCeiling(|rows|, limit);
    var p := Pages(|rows|, limit).value;
    var s := SkipOf(page, limit);
    assert s >= 0 by { MulNonNegative(page - 1, limit); }
    if page <= p {
      MulMonotone(page - 1, p - 1, limit);
    } else {
      MulMonotone(p, page - 1, limit);
    }
  }

  lemma MulNonNegative(a: int, b: int)
    requires a >= 0 && b >= 0
    ensures a * b >= 0
  {
  }

  lemma MulMonotone(a: int, b: int, c: int)
    requires a <= b && c >= 0
    ensures a * c <= b * c
  {
    assert b * c - a * c == (b - a) * c;
    MulNonNegative(b - a, c);
  }
}
