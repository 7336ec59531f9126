/** The cart-item validators (src/validators/cartValidator.js). No value is trimmed. */
module CartValidator {
  import opened Wrappers
  import opened Validation

  datatype CartItemBody = CartItemBody(productId: Option<Json>, quantity: Option<Json>)

  /** `validateCartItem`. */
  function CartItemErrors(b: CartItemBody): (r: seq<string>)
    ensures r == [] <==> TextOf(b.productId) != "" && IsIntAtLeast(TextOf(b.productId), 1) &&
                         (b.quantity.None? || IsIntAtLeast(TextOf(b.quantity), 1))
  {
    Check(TextOf(b.productId) != "", "Product ID is required") +
    Check(IsIntAtLeast(TextOf(b.productId), 1), "Product ID must be a positive integer") +
    Optional(b.quantity, Check(IsIntAtLeast(TextOf(b.quantity), 1), "Quantity must be at least 1"))
  }

  /** With numeric values the rule is: a product id of at least 1 and, if sent, a
      quantity of at least 1. */
  lemma NumericCartItem(id: int, quantity: Option<int>)
    ensures Validate(CartItemErrors(CartItemBody(Some(JNumber(id)), if quantity.Some? then Some(JNumber(quantity.value)) else None))).Success?
        <==> id >= 1 && (quantity.None? || quantity.value >= 1)
  {
    NumberIsIntAtLeast(id, 1);
    if quantity.Some? {
      NumberIsIntAtLeast(quantity.value, 1);
    }
  }

  /** A missing product id is reported first as required. */
  lemma MissingProductIdReported(b: CartItemBody)
    requires b.productId.None?
    ensures Validate(CartItemErrors(b)).Failure?
    ensures Validate(CartItemErrors(b)).error.message == "Product ID is required"
  {
  }

  /** `validateCartItemUpdate`. */
  function CartItemUpdateErrors(quantity: Option<Json>): (r: seq<string>)
    ensures r == [] <==> TextOf(quantity) != "" && IsIntAtLeast(TextOf(quantity), 1)
  {
    Check(TextOf(quantity) != "", "Quantity is required") +
    Check(IsIntAtLeast(TextOf(quantity), 1), "Quantity must be at least 1")
  }

  lemma NumericQuantityUpdate(quantity: int)
    ensures Validate(CartItemUpdateErrors(Some(JNumber(quantity)))).Success? <==> quantity >= 1
  {
    NumberIsIntAtLeast(quantity, 1);
  }
}
