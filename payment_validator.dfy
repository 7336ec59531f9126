/** The payment-intent validator (src/validators/paymentValidator.js). */
module PaymentValidator {
  import opened Wrappers
  import opened Validation
  import Errors

  /** `validatePaymentIntent`: only the presence of the order id is checked. */
  function PaymentIntentErrors(orderId: Option<Json>): (r: seq<string>)
    ensures r == [] <==> Trimmed(orderId) != ""
    ensures r != [] ==> r == ["Order ID is required"]
  {
    Check(Trimmed(orderId) != "", "Order ID is required")
  }

  /** A request without an order id, or with one that is only whitespace, is refused
      with 400 and the one message. */
  lemma BlankOrderIdRefused(orderId: Option<Json>)
    requires Trimmed(orderId) == ""
    ensures Validate(PaymentIntentErrors(orderId)) == Failure(Errors.NewAppError("Order ID is required", 400))
  {
  }
}
