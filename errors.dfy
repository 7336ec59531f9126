/** The application error type and the Express error middleware
    (src/middleware/errorHandler.js). */
module Errors {
  import opened Wrappers
  import Text

  /** An error a handler passes on: an `AppError` it raised itself, or an exception
      thrown by a collaborator (the storage layer, the payment gateway), which has no
      status code of its own. */
  datatype Error =
    | AppError(message: string, statusCode: int, status: string, isOperational: bool)
    | Thrown(message: string)

  /** A handler's outcome: its payload or the error it forwards. */
  type Reply<T> = Result<T, Error>

  /** `new AppError(message, statusCode)`: the status text is "fail" when the decimal
      text of the code starts with `4`, and "error" otherwise. */
  function NewAppError(message: string, statusCode: int): (e: Error)
    ensures e.AppError? && e.message == message && e.statusCode == statusCode && e.isOperational
    ensures e.status == "fail" || e.status == "error"
  {
    AppError(message, statusCode, if Text.DecimalText(statusCode)[0] == '4' then "fail" else "error", true)
  }

  /** `NewAppError` classifies a code as "fail" exactly for 4, 40–49, 400–499, … */
  lemma FailExactlyForLeadingFour(message: string, statusCode: int)
    ensures NewAppError(message, statusCode).status == "fail"
        <==> statusCode >= 0 && exists k: nat :: 4 * Text.Pow10(k) <= statusCode < 5 * Text.Pow10(k)
  {
    Text.LeadingFour(statusCode);
  }

  /** Every 4xx code is a client failure. */
  lemma ClientCodesFail(message: string, statusCode: int)
    requires 400 <= statusCode < 500
    ensures NewAppError(message, statusCode).status == "fail"
  {
    Text.LeadingFour(statusCode);
    assert 4 * Text.Pow10(2) <= statusCode < 5 * Text.Pow10(2);
  }

  /** Every 5xx code is a server error. */
  lemma ServerCodesError(message: string, statusCode: int)
    requires 500 <= statusCode < 600
    ensures NewAppError(message, statusCode).status == "error"
  {
    Text.LeadingFour(statusCode);
    forall k: nat | 4 * Text.Pow10(k) <= statusCode < 5 * Text.Pow10(k)
      ensures false
    {
      PowBounds(k);
    }
  }

  lemma {:induction false} PowBounds(k: nat)
    ensures k <= 1 ==> Text.Pow10(k) <= 10
    ensures k == 2 ==> Text.Pow10(k) == 100
    ensures k >= 3 ==> Text.Pow10(k) >= 1000
  {
    if k > 0 {
      PowBounds(k - 1);
    }
  }

  /** What the error middleware sends back. */
  datatype ErrorResponse = ErrorResponse(statusCode: int, success: bool, message: string, stack: Option<string>)

  /** `errorHandler(err, ...)`: the status code is the error's own when it has a
      non-zero one and 500 otherwise; the message defaults to "Something went wrong";
      `success` is false; the stack trace is shown only when NODE_ENV is "development". */
  function HandleError(err: Error, stack: string, nodeEnv: string): (r: ErrorResponse)
    ensures !r.success
    ensures r.statusCode == (if err.AppError? && err.statusCode != 0 then err.statusCode else 500)
    ensures r.message == (if err.message != "" then err.message else "Something went wrong")
    ensures r.stack == (if nodeEnv == "development" then Some(stack) else None)
  {
    var code := if err.AppError? && err.statusCode != 0 then err.statusCode else 500;
    var message := if err.message != "" then err.message else "Something went wrong";
    ErrorResponse(code, false, message, if nodeEnv == "development" then Some(stack) else None)
  }

  /** An `AppError` with a code and a message reaches the client unchanged, with a
      failure flag; an exception thrown by a collaborator becomes a 500. */
  lemma AppErrorReachesClient(message: string, statusCode: int, stack: string, nodeEnv: string)
    requires statusCode != 0 && message != ""
    ensures HandleError(NewAppError(message, statusCode), stack, nodeEnv).statusCode == statusCode
    ensures HandleError(NewAppError(message, statusCode), stack, nodeEnv).message == message
    ensures HandleError(Thrown(message), stack, nodeEnv).statusCode == 500
  {
  }
}
