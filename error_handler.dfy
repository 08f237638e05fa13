/** The global error middleware of backend/middleware/errorHandler.js. */
module ErrorHandler {
  import opened Wrappers

  /** The error answer: status, `message`, and `stack` (`None` is JSON null). */
  datatype ErrorBody = ErrorBody(status: int, message: string, stack: Option<string>)

  /**
   * The status code and body for an error `err` reaching the middleware
   * while the response carries `statusCode`: a status still at the default
   * 200 becomes 500 and any other is kept; the message is the error's; the
   * stack is hidden exactly in production.
   */
  function HandleError(statusCode: int, errMessage: string, errStack: string, nodeEnv: Option<string>): (b: ErrorBody)
    ensures b.status != 200
    ensures statusCode != 200 ==> b.status == statusCode
    ensures statusCode == 200 ==> b.status == 500
    ensures b.message == errMessage
    ensures b.stack.None? <==> nodeEnv == Some("production")
    ensures b.stack.Some? ==> b.stack.value == errStack
  {
    ErrorBody(if statusCode == 200 then 500 else statusCode, errMessage,
              if nodeEnv == Some("production") then None else Some(errStack))
  }

  /** Handling the same error twice changes nothing more: the status map is idempotent. */
  lemma HandleErrorIdempotent(statusCode: int, errMessage: string, errStack: string, nodeEnv: Option<string>)
    ensures var b := HandleError(statusCode, errMessage, errStack, nodeEnv);
      HandleError(b.status, errMessage, errStack, nodeEnv) == b
  {
  }
}
