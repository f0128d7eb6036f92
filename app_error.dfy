/** The service's own exception, and the four kinds of failure that reach
    the error handler. */
module AppErrors {
  import opened Wrappers
  import opened Json
  import Zod

  /** An AppError: the message (a catalog key or free text), the HTTP status,
      the machine-readable code and optional details. */
  datatype AppError = AppError(message: string, status: int, code: string, details: Option<seq<Json>>)

  /** `new AppError(message, status?, code?, details?)`: an undefined status
      defaults to 400 and an undefined code to "BAD_REQUEST"; what is given is
      stored unchanged. */
  function NewAppError(message: string, status: Option<int>, code: Option<string>, details: Option<seq<Json>>): (e: AppError)
    ensures e.message == message && e.details == details
    ensures e.status == if status.Some? then status.value else 400
    ensures e.code == if code.Some? then code.value else "BAD_REQUEST"
  {
    AppError(message, status.GetOr(400), code.GetOr("BAD_REQUEST"), details)
  }

  /** What a handler passes to `next(err)`. */
  datatype Failure =
    | ZodFailure(issue: Zod.Issue)    // a ZodError; only its first issue is ever read
    | AppFailure(error: AppError)     // an AppError
    | SyntaxFailure(hasBody: bool)    // a SyntaxError, with or without a `body` property
    | OtherFailure                    // anything else

  /** `new AppError(message, status, code)`, the form every raise site uses. */
  function Raise(message: string, status: int, code: string): (f: Failure)
    ensures f.AppFailure? && f.error == NewAppError(message, Some(status), Some(code), None)
  {
    AppFailure(AppError(message, status, code, None))
  }

  /** Omitting status and code gives a 400 BAD_REQUEST with no details. */
  lemma DefaultsAreBadRequest(message: string)
    ensures NewAppError(message, None, None, None) == AppError(message, 400, "BAD_REQUEST", None)
  {
  }
}
