/** The category handlers (src/controllers/categoryController.js): the top-level
    listing, lookup by slug, the products of a category and its direct children, and
    the admin writes that keep slugs unique and the parent references acyclic. New
    category ids are the `newId` parameters; the order in which the database lists
    rows for a requested sort is an input sequence of ids. */
module CategoryController {
  import opened Wrappers
  import opened Entities
  import opened Errors
  import opened Hierarchy
  import opened CartLines
  import opened Paging
  import opened Catalog
  import opened Store

  // ---- reads -----------------------------------------------------------------------

  /** One entry of `getAllCategories`: a category with the ids of its subcategories. */
  datatype CategoryEntry = CategoryEntry(id: CategoryId, category: Category, subcategories: set<CategoryId>)

  /** `getAllCategories`: every top-level category, once each, with its direct
      children, in the order of `byName` (all stored categories in ascending name
      order). */
  function AllCategories(cats: Categories, byName: seq<CategoryId>): (r: seq<CategoryEntry>)
    requires Scan(cats, byName)
    ensures |r| == |TopLevel(cats, byName)| && forall i :: 0 <= i < |r| ==> r[i].id == TopLevel(cats, byName)[i]
    ensures forall i :: 0 <= i < |r| ==>
      r[i].id in cats && cats[r[i].id].parentId.None? && r[i].category == cats[r[i].id] &&
      forall c :: c in r[i].subcategories <==> c in cats && cats[c].parentId == Some(r[i].id)
    ensures forall c :: c in cats && cats[c].parentId.None? ==> exists i :: 0 <= i < |r| && r[i].id == c
    ensures forall i, j :: 0 <= i < j < |r| ==> r[i].id != r[j].id
    ensures SortedByName(cats, byName) ==> forall i, j :: 0 <= i < j < |r| ==> TextLe(r[i].category.name, r[j].category.name)
  {
    var top := TopLevel(cats, byName);
    var r := EntriesOf(cats, top);
    assert forall c :: c in byName && cats[c].parentId.None? ==> r[IndexOf(top, c)].id == c;
    r
  }

  /** The entry of each category of `ids`, in their order. */
  function EntriesOf(cats: Categories, ids: seq<CategoryId>): (r: seq<CategoryEntry>)
    requires forall i :: 0 <= i < |ids| ==> ids[i] in cats
    ensures |r| == |ids| && forall i :: 0 <= i < |r| ==> r[i] == CategoryEntry(ids[i], cats[ids[i]], ChildrenOf(cats, ids[i]))
    ensures Distinct(ids) ==> forall i, j :: 0 <= i < j < |r| ==> r[i].id != r[j].id
    ensures SortedByName(cats, ids) ==> forall i, j :: 0 <= i < j < |r| ==> TextLe(r[i].category.name, r[j].category.name)
  {
    seq(|ids|, i requires 0 <= i < |ids| => CategoryEntry(ids[i], cats[ids[i]], ChildrenOf(cats, ids[i])))
  }

  /** What `getCategoryBySlug` shows: the row, its subcategories and its parent. */
  datatype CategoryDetail = CategoryDetail(id: CategoryId, category: Category, subcategories: set<CategoryId>, parent: Option<CategoryId>)

  /** `getCategoryBySlug`: 404 when no category has the slug. */
  function CategoryBySlug(cats: Categories, slug: string): (r: Reply<CategoryDetail>)
    requires SlugsUnique(cats)
    ensures r.Failure? <==> forall c :: c in cats ==> cats[c].slug != slug
    ensures r.Failure? ==> r.error == NewAppError("Category not found", 404)
    ensures r.Success? ==>
      r.value.id in cats && r.value.category == cats[r.value.id] && r.value.category.slug == slug &&
      r.value.parent == cats[r.value.id].parentId &&
      forall c :: c in r.value.subcategories <==> c in cats && cats[c].parentId == Some(r.value.id)
  {
    match CategoryWithSlug(cats, slug)
    case None => Failure(NewAppError("Category not found", 404))
    case Some(id) => Success(CategoryDetail(id, cats[id], ChildrenOf(cats, id), cats[id].parentId))
  }

  /** `getProductsByCategory`'s payload. */
  datatype CategoryProducts = CategoryProducts(id: CategoryId, listing: Listing)

  /** `getProductsByCategory`: the products of the category and of its direct
      children, in the requested order `order`, paginated with page 1 and limit 10 as
      defaults. */
  function ProductsByCategory(products: Products, cats: Categories, order: seq<ProductId>, slug: string,
                              page: Option<int>, limit: Option<int>): (r: Reply<CategoryProducts>)
    requires SlugsUnique(cats) && Stored(products, order)
    ensures (forall c :: c in cats ==> cats[c].slug != slug) ==> r == Failure(NewAppError("Category not found", 404))
    ensures (exists c :: c in cats && cats[c].slug == slug) ==> (r.Success? <==> SkipOf(page.GetOr(1), limit.GetOr(10)) >= 0)
    ensures r.Success? ==>
      var id := r.value.id;
      id in cats && cats[id].slug == slug &&
      Paginate(products, order, InCategories(CategoryIds(cats, id)), page.GetOr(1), limit.GetOr(10)) == Success(r.value.listing) &&
      forall p :: p in r.value.listing.rows ==>
        p in products && (products[p].categoryId == id ||
                             (products[p].categoryId in cats && cats[products[p].categoryId].parentId == Some(id)))
  {
    match CategoryWithSlug(cats, slug)
    case None => Failure(NewAppError("Category not found", 404))
    case Some(id) =>
      var keep := InCategories(CategoryIds(cats, id));
      match Paginate(products, order, keep, page.GetOr(1), limit.GetOr(10))
      case Failure(e) => Failure(e)
      case Success(listing) =>
        assert forall p :: p in listing.rows ==> p in products && keep(products[p]);
        Success(CategoryProducts(id, listing))
  }

  /** The expansion is one level deep: a product of a grandchild category is not
      listed. */
  lemma GrandchildProductsLeftOut(products: Products, cats: Categories, order: seq<ProductId>, slug: string,
                                  page: Option<int>, limit: Option<int>, p: ProductId)
    requires CatalogValid(products, cats) && Stored(products, order)
    requires ProductsByCategory(products, cats, order, slug, page, limit).Success?
    requires p in products
    requires var id := ProductsByCategory(products, cats, order, slug, page, limit).value.id;
      var c := products[p].categoryId;
      cats[c].parentId.Some? && cats[c].parentId.value in cats && cats[cats[c].parentId.value].parentId == Some(id)
    ensures p !in ProductsByCategory(products, cats, order, slug, page, limit).value.listing.rows
  {
    var id := ProductsByCategory(products, cats, order, slug, page, limit).value.id;
    var c := products[p].categoryId;
    OneLevelOnly(cats, id, cats[c].parentId.value, c);
  }

  /** The `where: { categoryId: { in: ids } }` predicate. */
  function InCategories(ids: set<CategoryId>): Product -> bool {
    (p: Product) => p.categoryId in ids
  }

  // ---- createCategory ---------------------------------------------------------------

  /** Why `createCategory` refuses, in the order it checks. A parent id that is the
      empty text skips the parent check and then fails the database's reference
      check. */
  function CreateRefusal(cats: Categories, slug: string, parentId: Option<CategoryId>): (r: Option<Error>)
    requires SlugsUnique(cats)
    ensures r.None? <==>
      (forall c :: c in cats ==> cats[c].slug != slug) && (parentId.None? || (parentId.value != "" && parentId.value in cats))
    ensures (exists c :: c in cats && cats[c].slug == slug) ==> r == Some(NewAppError("Slug is already in use", 400))
    ensures (forall c :: c in cats ==> cats[c].slug != slug) && parentId.Some? && parentId.value != "" && parentId.value !in cats ==>
      r == Some(NewAppError("Parent category not found", 404))
    ensures (forall c :: c in cats ==> cats[c].slug != slug) && parentId == Some("") ==> r == Some(ForeignKeyViolated)
  {
    if CategoryWithSlug(cats, slug).Some? then Some(NewAppError("Slug is already in use", 400))
    else if parentId.Some? && parentId.value != "" && parentId.value !in cats then Some(NewAppError("Parent category not found", 404))
    else if parentId == Some("") then Some(ForeignKeyViolated)
    else None
  }

  /** `createCategory`: adds exactly the new category `newId` when its slug is free and
      its parent, if any, is stored; otherwise nothing changes. */
  method CreateCategory(db: Db, newId: CategoryId, name: string, slug: string, description: Option<string>,
                        image: Option<string>, parentId: Option<CategoryId>) returns (r: Reply<Category>)
    requires db.Valid() && newId != "" && newId !in db.categories
    modifies db
    ensures db.Valid()
    ensures var refusal := old(CreateRefusal(db.categories, slug, parentId));
      refusal.Some? ==> r == Failure(refusal.value) && unchanged(db)
    ensures old(CreateRefusal(db.categories, slug, parentId)).None? ==>
      r == Success(Category(name, slug, description, image, parentId)) &&
      db.categories == old(db.categories)[newId := r.value]
    ensures db.products == old(db.products) && db.carts == old(db.carts) && db.cartItems == old(db.cartItems)
    ensures db.orders == old(db.orders) && db.addresses == old(db.addresses) && db.paymentMethods == old(db.paymentMethods)
  {
    var refusal := CreateRefusal(db.categories, slug, parentId);
    if refusal.Some? {
      return Failure(refusal.value);
    }
    var c := Category(name, slug, description, image, parentId);
    AddLeaf(db.categories, newId, c);
    db.categories := db.categories[newId := c];
    r := Success(c);
  }

  // ---- updateCategory ---------------------------------------------------------------

  /** The row `category.update` writes: absent fields keep their value. */
  function Updated(c: Category, name: Option<string>, slug: Option<string>, description: Patch<string>,
                   image: Patch<string>, parentId: Patch<CategoryId>): Category
  {
    Category(name.GetOr(c.name), slug.GetOr(c.slug), Patched(c.description, description),
             Patched(c.image, image), Patched(c.parentId, parentId))
  }

  /** The loop of `updateCategory` that climbs the parent references from the new
      parent `p`: true exactly when it meets `id`, that is when `p` lies below `id`.
      It ends because the rank falls at every step. */
  method AncestorWalk(cats: Categories, id: CategoryId, p: CategoryId) returns (circular: bool)
    requires WellFormed(cats) && p in cats
    ensures circular <==> HasAncestor(cats, p, id)
  {
    ghost var rank :| RankedBy(cats, rank);
    HasAncestorByRank(cats, rank, p, id);
    var cur := p;
    var current := cats[p];
    while current.parentId.Some?
      invariant cur in cats && current == cats[cur]
      invariant IsProperAncestor(cats, rank, id, p) <==> IsProperAncestor(cats, rank, id, cur)
      decreases rank[cur]
    {
      if current.parentId.value == id {
        return true;
      }
      cur := current.parentId.value;
      current := cats[cur];
    }
    circular := false;
  }

  /** Why `updateCategory` refuses, in the order it checks: a missing category, a
      taken slug, the category as its own parent, a missing parent, a parent below
      the category; then the database's own refusals of an empty slug that another
      category holds and of an empty parent id. */
  ghost function UpdateRefusal(cats: Categories, id: CategoryId, slug: Option<string>, parentId: Patch<CategoryId>): (r: Option<Error>)
    requires WellFormed(cats) && SlugsUnique(cats)
  {
    if id !in cats then Some(NewAppError("Category not found", 404))
    else if slug.Some? && slug.value != "" && slug.value != cats[id].slug && CategoryWithSlug(cats, slug.value).Some? then
      Some(NewAppError("Slug is already in use", 400))
    else if parentId.Set? && parentId.value != "" && parentId.value == id then
      Some(NewAppError("A category cannot be its own parent", 400))
    else if parentId.Set? && parentId.value != "" && parentId.value !in cats then
      Some(NewAppError("Parent category not found", 404))
    else if parentId.Set? && parentId.value != "" && HasAncestor(cats, parentId.value, id) then
      Some(NewAppError("Circular reference detected in category hierarchy", 400))
    else if slug.Some? && exists c :: c in cats && c != id && cats[c].slug == slug.value then
      Some(UniqueViolated)
    else if parentId == Set("") then
      Some(ForeignKeyViolated)
    else None
  }

  /** An update goes through exactly when the category is stored, the new slug is no
      other category's, and the new parent, if one is set, is another stored
      category that does not lie below it. */
  lemma UpdateAllowed(cats: Categories, id: CategoryId, slug: Option<string>, parentId: Patch<CategoryId>)
    requires WellFormed(cats) && SlugsUnique(cats) && "" !in cats
    ensures UpdateRefusal(cats, id, slug, parentId).None? <==>
      id in cats &&
      (slug.None? || forall c :: c in cats && c != id ==> cats[c].slug != slug.value) &&
      (parentId.Set? ==> parentId.value in cats && parentId.value != id && !HasAncestor(cats, parentId.value, id))
  {
  }

  /** `updateCategory`: on success exactly the category `id` is rewritten, the slugs
      stay unique and the tree stays acyclic. */
  method UpdateCategory(db: Db, id: CategoryId, name: Option<string>, slug: Option<string>, description: Patch<string>,
                        image: Patch<string>, parentId: Patch<CategoryId>) returns (r: Reply<Category>)
    requires db.Valid()
    modifies db
    ensures db.Valid()
    ensures var refusal := old(UpdateRefusal(db.categories, id, slug, parentId));
      refusal.Some? ==> r == Failure(refusal.value) && unchanged(db)
    ensures old(UpdateRefusal(db.categories, id, slug, parentId)).None? ==>
      r == Success(Updated(old(db.categories)[id], name, slug, description, image, parentId)) &&
      db.categories == old(db.categories)[id := r.value]
    ensures db.products == old(db.products) && db.carts == old(db.carts) && db.cartItems == old(db.cartItems)
    ensures db.orders == old(db.orders) && db.addresses == old(db.addresses) && db.paymentMethods == old(db.paymentMethods)
  {
    var refusal := CheckUpdate(db.categories, id, slug, parentId);
    if refusal.Some? {
      return Failure(refusal.value);
    }
    var c := Updated(db.categories[id], name, slug, description, image, parentId);
    UpdateKeepsCatalog(db.products, db.categories, id, slug, parentId, c);
    db.categories := db.categories[id := c];
    r := Success(c);
  }

  /** The checks of `updateCategory`, in its order, with the ancestor walk. */
  method CheckUpdate(cats: Categories, id: CategoryId, slug: Option<string>, parentId: Patch<CategoryId>) returns (refusal: Option<Error>)
    requires WellFormed(cats) && SlugsUnique(cats)
    ensures refusal == UpdateRefusal(cats, id, slug, parentId)
  {
    if id !in cats {
      return Some(NewAppError("Category not found", 404));
    }
    var existing := cats[id];
    if slug.Some? && slug.value != "" && slug.value != existing.slug {
      if CategoryWithSlug(cats, slug.value).Some? {
        return Some(NewAppError("Slug is already in use", 400));
      }
    }
    if parentId.Set? && parentId.value != "" {
      var p := parentId.value;
      if p == id {
        return Some(NewAppError("A category cannot be its own parent", 400));
      }
      if p !in cats {
        return Some(NewAppError("Parent category not found", 404));
      }
      var circular := AncestorWalk(cats, id, p);
      if circular {
        return Some(NewAppError("Circular reference detected in category hierarchy", 400));
      }
    }
    if slug.Some? && exists c :: c in cats && c != id && cats[c].slug == slug.value {
      return Some(UniqueViolated);
    }
    if parentId == Set("") {
      return Some(ForeignKeyViolated);
    }
    refusal := None;
  }

  /** An update the checks let through keeps the catalog rules: unique slugs, an
      acyclic tree closed under parents, and every product's category stored. */
  lemma UpdateKeepsCatalog(products: Products, cats: Categories, id: CategoryId, slug: Option<string>,
                           parentId: Patch<CategoryId>, c: Category)
    requires CatalogValid(products, cats) && UpdateRefusal(cats, id, slug, parentId).None?
    requires id in cats && c.slug == slug.GetOr(cats[id].slug) && c.parentId == Patched(cats[id].parentId, parentId)
    ensures CatalogValid(products, cats[id := c])
  {
    UpdateAllowed(cats, id, slug, parentId);
    match parentId {
      case Keep => KeepParent(cats, id, c);
      case Clear => Detach(cats, id, c);
      case Set(p) =>
        var rank :| RankedBy(cats, rank);
        HasAncestorByRank(cats, rank, p, id);
        Reparent(cats, rank, id, p, c);
    }
  }

  // ---- deleteCategory ---------------------------------------------------------------

  /** Why `deleteCategory` refuses, in the order it checks. */
  function DeleteRefusal(products: Products, cats: Categories, id: CategoryId): (r: Option<Error>)
    ensures r.None? <==> id in cats && ChildrenOf(cats, id) == {} && forall p :: p in products ==> products[p].categoryId != id
    ensures id !in cats ==> r == Some(NewAppError("Category not found", 404))
    ensures id in cats && ChildrenOf(cats, id) != {} ==> r == Some(NewAppError("Cannot delete category with subcategories", 400))
    ensures id in cats && ChildrenOf(cats, id) == {} && (exists p :: p in products && products[p].categoryId == id) ==>
      r == Some(NewAppError("Cannot delete category with products", 400))
  {
    if id !in cats then Some(NewAppError("Category not found", 404))
    else if ChildrenOf(cats, id) != {} then Some(NewAppError("Cannot delete category with subcategories", 400))
    else if exists p :: p in products && products[p].categoryId == id then Some(NewAppError("Cannot delete category with products", 400))
    else None
  }

  /** `deleteCategory`: removes exactly the category `id`, and only when nothing
      refers to it. */
  method DeleteCategory(db: Db, id: CategoryId) returns (r: Result<(), Error>)
    requires db.Valid()
    modifies db
    ensures db.Valid()
    ensures var refusal := old(DeleteRefusal(db.products, db.categories, id));
      refusal.Some? ==> r == Failure(refusal.value) && unchanged(db)
    ensures old(DeleteRefusal(db.products, db.categories, id)).None? ==>
      r.Success? && db.categories == old(db.categories) - {id}
    ensures db.products == old(db.products) && db.carts == old(db.carts) && db.cartItems == old(db.cartItems)
    ensures db.orders == old(db.orders) && db.addresses == old(db.addresses) && db.paymentMethods == old(db.paymentMethods)
  {
    var refusal := DeleteRefusal(db.products, db.categories, id);
    if refusal.Some? {
      return Failure(refusal.value);
    }
    RemoveLeaf(db.categories, id);
    db.categories := db.categories - {id};
    r := Success(());
  }
}
