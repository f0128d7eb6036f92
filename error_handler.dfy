/** The boundary translator: every failure becomes an HTTP status and the
    envelope {error, message, request_id}, with the message passed through
    `t`, the request's `t(req, ·)` (I18n.Translator of its language). */
module ErrorHandler {
  import opened Wrappers
  import Text
  import Zod
  import opened AppErrors

  /** The error body every failure is answered with. */
  datatype Envelope = Envelope(error: string, message: string, requestId: string)

  datatype Outcome = Outcome(status: int, body: Envelope)

  /** The issue path joined with ".". */
  function JoinPath(path: seq<string>): (s: string)
    ensures path == [] ==> s == ""
    ensures |path| == 1 ==> s == path[0]
  {
    if path == [] then "" else Text.Join(path, '.')
  }

  /** The localised message of a validation issue: the translated REQUIRED
      prefix and the field for "Required", else the translated message. */
  function IssueMessage(issue: Zod.Issue, t: string -> string): string {
    var joined := JoinPath(issue.path);
    var field := if joined == "" then "unknown_field" else joined;
    var reason := if issue.message == "" then "VALIDATION_ERROR" else issue.message;
    if reason == "Required" then t("REQUIRED") + " " + field
    else t(reason)
  }

  /** errorHandler: the checks run in the order ZodError, AppError,
      SyntaxError with a body, and anything else. */
  function HandleError(err: Failure, t: string -> string, requestId: string): (out: Outcome)
    ensures out.body.requestId == requestId
    ensures err.ZodFailure? ==> out.status == 400 && out.body.error == "VALIDATION_ERROR"
    ensures err.AppFailure? ==>
      out.status == err.error.status && out.body.error == err.error.code
      && out.body.message == t(err.error.message)
    ensures err.SyntaxFailure? && err.hasBody ==>
      out == Outcome(400, Envelope("INVALID_JSON", t("INVALID_JSON"), requestId))
    ensures err.OtherFailure? || (err.SyntaxFailure? && !err.hasBody) ==>
      out == Outcome(500, Envelope("INTERNAL_ERROR", t("INTERNAL_ERROR"), requestId))
  {
    match err
    case ZodFailure(issue) => Outcome(400, Envelope("VALIDATION_ERROR", IssueMessage(issue, t), requestId))
    case AppFailure(e) => Outcome(e.status, Envelope(e.code, t(e.message), requestId))
    case SyntaxFailure(hasBody) =>
      if hasBody then Outcome(400, Envelope("INVALID_JSON", t("INVALID_JSON"), requestId))
      else Outcome(500, Envelope("INTERNAL_ERROR", t("INTERNAL_ERROR"), requestId))
    case OtherFailure => Outcome(500, Envelope("INTERNAL_ERROR", t("INTERNAL_ERROR"), requestId))
  }

  /** A missing field (zod's "Required") is reported as the translated
      REQUIRED prefix, a space and the dotted path of the field. */
  lemma RequiredNamesTheField(path: seq<string>, t: string -> string, requestId: string)
    requires path != [] && path[0] != ""
    ensures HandleError(ZodFailure(Zod.Issue(path, "Required")), t, requestId).body.message
      == t("REQUIRED") + " " + Text.Join(path, '.')
  {
    assert Text.Join(path, '.')[0] == path[0][0];
  }

  /** A custom validation message (a catalog key) comes back translated;
      the status and code do not depend on which issue it was. */
  lemma ValidationMessageTranslated(issue: Zod.Issue, t: string -> string, requestId: string)
    requires issue.message != "" && issue.message != "Required"
    ensures HandleError(ZodFailure(issue), t, requestId)
      == Outcome(400, Envelope("VALIDATION_ERROR", t(issue.message), requestId))
  {
  }
}
