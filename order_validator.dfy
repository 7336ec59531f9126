/** The order and order-status validators (src/validators/orderValidator.js). */
module OrderValidator {
  import opened Wrappers
  import Text
  import opened Validation
  import opened Entities

  datatype OrderBody = OrderBody(shippingAddressId: Option<Json>, paymentMethod: Option<Json>, shippingFee: Option<Json>)

  /** `validateOrder`; the shipping fee is not trimmed. */
  function OrderErrors(b: OrderBody): (r: seq<string>)
    ensures r == [] <==>
      Trimmed(b.shippingAddressId) != "" && UuidPattern(Trimmed(b.shippingAddressId)) &&
      Trimmed(b.paymentMethod) != "" &&
      (b.shippingFee.None? || IsNonNegativeFloat(TextOf(b.shippingFee)))
  {
    var id := Trimmed(b.shippingAddressId);
    Check(id != "", "Shipping address ID is required") +
    Check(UuidPattern(id), "Shipping address ID must be a valid UUID") +
    Check(Trimmed(b.paymentMethod) != "", "Payment method is required") +
    Optional(b.shippingFee, Check(IsNonNegativeFloat(TextOf(b.shippingFee)), "Shipping fee must be a positive number"))
  }

  /** An order request whose address id is a UUID and whose payment method is
      present passes with a numeric shipping fee exactly when the fee is not negative
      (zero included, despite the message's "positive"). */
  lemma NumericShippingFee(b: OrderBody, fee: int)
    requires UuidShape(Trimmed(b.shippingAddressId)) && Trimmed(b.paymentMethod) != ""
    requires b.shippingFee == Some(JNumber(fee))
    ensures Validate(OrderErrors(b)).Success? <==> fee >= 0
  {
    UuidPatternIff(Trimmed(b.shippingAddressId));
    NumberIsNonNegativeFloat(fee);
  }

  /** The status names `isIn` accepts, in the order the rule lists them. */
  const StatusNames: seq<string> := ["PROCESSING", "SHIPPED", "COMPLETED", "CANCELLED"]

  /** `validateOrderStatus`. */
  function StatusErrors(status: Option<Json>): (r: seq<string>)
    ensures r == [] <==> Trimmed(status) in StatusNames
  {
    var t := Trimmed(status);
    Check(t != "", "Status is required") + Check(t in StatusNames, "Invalid status")
  }

  /** The accepted statuses are exactly the names of the order statuses. */
  lemma StatusAcceptsIff(status: Option<Json>)
    ensures Validate(StatusErrors(status)).Success? <==> exists s: OrderStatus :: Trimmed(status) == OrderStatusName(s)
  {
    var t := Trimmed(status);
    if t in StatusNames {
      var s := if t == "PROCESSING" then PROCESSING else if t == "SHIPPED" then SHIPPED
               else if t == "COMPLETED" then COMPLETED else CANCELLED;
      assert t == OrderStatusName(s);
    }
  }
}
