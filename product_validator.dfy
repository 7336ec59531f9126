/** The product validator (src/validators/productValidator.js). The `isURL` check and
    the `URL` constructor belong to libraries and are parameters of the model:
    `isUrl` judges a text, `parsesAsUrl` judges one element of `images`. */
module ProductValidator {
  import opened Wrappers
  import Text
  import opened Validation

  datatype ProductBody = ProductBody(
    name: Option<Json>, price: Option<Json>, oldPrice: Option<Json>,
    description: Option<Json>, image: Option<Json>, images: Option<Json>,
    brand: Option<Json>, categoryId: Option<Json>, stock: Option<Json>,
    featured: Option<Json>, isNewArrival: Option<Json>, isBestSeller: Option<Json>,
    specifications: Option<Json>)

  /** The custom check on `images`, which runs even after `isArray` failed: an array
      must hold only parseable URLs; a non-empty string has a length but no `every`,
      so the check throws a type error whose message becomes the error message. */
  function ImagesCustom(v: Json, parsesAsUrl: Json -> bool): (r: seq<string>)
    ensures v.JArray? ==> (r == [] <==> forall i :: 0 <= i < |v.elems| ==> parsesAsUrl(v.elems[i]))
  {
    match v
    case JArray(elems) =>
      Check(forall i :: 0 <= i < |elems| ==> parsesAsUrl(elems[i]), "All images must be valid URLs")
    case JString(s) => if s != "" then ["images.every is not a function"] else []
    case _ => []
  }

  function ImagesErrors(v: Option<Json>, parsesAsUrl: Json -> bool): (r: seq<string>)
    ensures r == [] <==> v.None? || (v.value.JArray? && forall i :: 0 <= i < |v.value.elems| ==> parsesAsUrl(v.value.elems[i]))
  {
    Optional(v, if v.None? then [] else Check(v.value.JArray?, "Images must be an array") + ImagesCustom(v.value, parsesAsUrl))
  }

  /** The checks on name, price, old price, description and image. */
  function ListingErrors(b: ProductBody, isUrl: string -> bool): (r: seq<string>)
    ensures r == [] <==>
      3 <= |Trimmed(b.name)| <= 100 &&
      TextOf(b.price) != "" && IsNonNegativeFloat(TextOf(b.price)) &&
      (b.oldPrice.None? || IsNonNegativeFloat(TextOf(b.oldPrice))) &&
      |Trimmed(b.description)| >= 10 &&
      Trimmed(b.image) != "" && isUrl(Trimmed(b.image))
  {
    var r1 := RequiredText(b.name, 3, 100, "Product name is required", "Product name must be between 3 and 100 characters");
    var r2 := Check(TextOf(b.price) != "", "Price is required") + Check(IsNonNegativeFloat(TextOf(b.price)), "Price must be a positive number");
    var r3 := Optional(b.oldPrice, Check(IsNonNegativeFloat(TextOf(b.oldPrice)), "Old price must be a positive number"));
    var r4 := Check(Trimmed(b.description) != "", "Description is required") + Check(|Trimmed(b.description)| >= 10, "Description must be at least 10 characters");
    var r5 := Check(Trimmed(b.image) != "", "Product image is required") + Check(isUrl(Trimmed(b.image)), "Image must be a valid URL");
    NoErrorsIff(r1, r2, r3, r4, r5);
    r1 + r2 + r3 + r4 + r5
  }

  /** The checks on images, brand, category id and stock. */
  function InventoryErrors(b: ProductBody, parsesAsUrl: Json -> bool): (r: seq<string>)
    ensures r == [] <==>
      (b.images.None? || (b.images.value.JArray? && forall i :: 0 <= i < |b.images.value.elems| ==> parsesAsUrl(b.images.value.elems[i]))) &&
      2 <= |Trimmed(b.brand)| <= 50 &&
      Trimmed(b.categoryId) != "" && UuidPattern(Trimmed(b.categoryId)) &&
      TextOf(b.stock) != "" && IsIntAtLeast(TextOf(b.stock), 0)
  {
    var r1 := ImagesErrors(b.images, parsesAsUrl);
    var r2 := RequiredText(b.brand, 2, 50, "Brand is required", "Brand must be between 2 and 50 characters");
    var r3 := Check(Trimmed(b.categoryId) != "", "Category ID is required") + Check(UuidPattern(Trimmed(b.categoryId)), "Category ID must be a valid UUID");
    var r4 := Check(TextOf(b.stock) != "", "Stock is required") + Check(IsIntAtLeast(TextOf(b.stock), 0), "Stock must be a non-negative integer");
    NoErrorsIff(r1, r2, r3, r4, []);
    assert r1 + r2 + r3 + r4 + [] == r1 + r2 + r3 + r4;
    r1 + r2 + r3 + r4
  }

  /** `typeof value === "object"`, the custom check on `specifications`: a truthy
      value must be an object or an array. */
  predicate SpecificationsOk(v: Option<Json>) {
    v.None? || !Truthy(v.value) || v.value.JObject? || v.value.JArray?
  }

  /** The checks on the three flags and the specifications. */
  function FlagErrors(b: ProductBody): (r: seq<string>)
    ensures r == [] <==>
      (b.featured.None? || IsBooleanText(TextOf(b.featured))) &&
      (b.isNewArrival.None? || IsBooleanText(TextOf(b.isNewArrival))) &&
      (b.isBestSeller.None? || IsBooleanText(TextOf(b.isBestSeller))) &&
      SpecificationsOk(b.specifications)
  {
    var r1 := Optional(b.featured, Check(IsBooleanText(TextOf(b.featured)), "Featured must be a boolean value"));
    var r2 := Optional(b.isNewArrival, Check(IsBooleanText(TextOf(b.isNewArrival)), "isNewArrival must be a boolean value"));
    var r3 := Optional(b.isBestSeller, Check(IsBooleanText(TextOf(b.isBestSeller)), "isBestSeller must be a boolean value"));
    var r4 := Optional(b.specifications, Check(SpecificationsOk(b.specifications), "Specifications must be an object"));
    NoErrorsIff(r1, r2, r3, r4, []);
    assert r1 + r2 + r3 + r4 + [] == r1 + r2 + r3 + r4;
    r1 + r2 + r3 + r4
  }

  /** `validateProduct`: every failed check's message, in chain order. */
  function ProductErrors(b: ProductBody, isUrl: string -> bool, parsesAsUrl: Json -> bool): (r: seq<string>)
    ensures r == [] <==> ListingErrors(b, isUrl) == [] && InventoryErrors(b, parsesAsUrl) == [] && FlagErrors(b) == []
  {
    ListingErrors(b, isUrl) + InventoryErrors(b, parsesAsUrl) + FlagErrors(b)
  }

  /** With numeric price, old price and stock, a product whose text fields are valid
      passes exactly when the price and the old price are not negative and the stock is
      a whole number not below zero. */
  lemma NumericProduct(b: ProductBody, isUrl: string -> bool, parsesAsUrl: Json -> bool, price: int, oldPrice: Option<int>, stock: int)
    requires b.price == Some(JNumber(price)) && b.stock == Some(JNumber(stock))
    requires b.oldPrice == (if oldPrice.Some? then Some(JNumber(oldPrice.value)) else None)
    requires 3 <= |Trimmed(b.name)| <= 100 && |Trimmed(b.description)| >= 10
    requires Trimmed(b.image) != "" && isUrl(Trimmed(b.image))
    requires b.images.None? && 2 <= |Trimmed(b.brand)| <= 50 && UuidShape(Trimmed(b.categoryId))
    requires b.featured.None? && b.isNewArrival.None? && b.isBestSeller.None? && b.specifications.None?
    ensures Validate(ProductErrors(b, isUrl, parsesAsUrl)).Success? <==>
      price >= 0 && (oldPrice.None? || oldPrice.value >= 0) && stock >= 0
  {
    NumericListing(b, isUrl, price, oldPrice);
    NumericInventory(b, parsesAsUrl, stock);
    assert FlagErrors(b) == [];
  }

  /** The listing checks with a numeric price and old price. */
  lemma NumericListing(b: ProductBody, isUrl: string -> bool, price: int, oldPrice: Option<int>)
    requires b.price == Some(JNumber(price))
    requires b.oldPrice == (if oldPrice.Some? then Some(JNumber(oldPrice.value)) else None)
    requires 3 <= |Trimmed(b.name)| <= 100 && |Trimmed(b.description)| >= 10
    requires Trimmed(b.image) != "" && isUrl(Trimmed(b.image))
    ensures ListingErrors(b, isUrl) == [] <==> price >= 0 && (oldPrice.None? || oldPrice.value >= 0)
  {
    NumberIsNonNegativeFloat(price);
    if oldPrice.Some? {
      NumberIsNonNegativeFloat(oldPrice.value);
    }
  }

  /** The stock-keeping checks with a numeric stock. */
  lemma NumericInventory(b: ProductBody, parsesAsUrl: Json -> bool, stock: int)
    requires b.stock == Some(JNumber(stock))
    requires b.images.None? && 2 <= |Trimmed(b.brand)| <= 50 && UuidShape(Trimmed(b.categoryId))
    ensures InventoryErrors(b, parsesAsUrl) == [] <==> stock >= 0
  {
    NumberIsIntAtLeast(stock, 0);
    UuidPatternIff(Trimmed(b.categoryId));
  }

  /** A string sent as `images` fails `isArray`, whose message comes first among the
      stock-keeping checks; a non-empty one also throws in the custom check. */
  lemma StringImagesRefused(b: ProductBody, parsesAsUrl: Json -> bool, s: string)
    requires b.images == Some(JString(s))
    ensures InventoryErrors(b, parsesAsUrl) != []
    ensures InventoryErrors(b, parsesAsUrl)[0] == "Images must be an array"
    ensures s != "" ==> ImagesErrors(b.images, parsesAsUrl) == ["Images must be an array", "images.every is not a function"]
  {
    var images := ImagesErrors(b.images, parsesAsUrl);
    var inventory := InventoryErrors(b, parsesAsUrl);
    assert images != [] && images[0] == "Images must be an array";
    assert inventory == images + inventory[|images|..];
  }
}
