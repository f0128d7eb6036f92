/** validateBody, validateQuery and validateParams: one combinator over the
    request field it targets. */
module Validate {
  import opened Wrappers
  import opened Json
  import opened AppErrors
  import Zod
  import Http

  /** Parse the target with the schema's decoder. On success the target is
      replaced by the decoded value (so defaults, coercions and trims are
      what later handlers read) and the chain goes on; on failure the
      decoder's issue is passed on as a ZodError and the target keeps its
      raw value. No other field of the request is touched. */
  method Validate<T>(
    req: Http.Request, target: Http.Target,
    decode: Json -> Result<T, Zod.Issue>, wrap: T -> Http.Payload)
    returns (r: Result<T, Failure>)
    modifies req
    requires req.Slot(target).Raw?
    ensures decode(old(req.Slot(target)).json).Ok? ==>
      && r == Ok(decode(old(req.Slot(target)).json).value)
      && req.Slot(target) == wrap(r.value)
    ensures decode(old(req.Slot(target)).json).Err? ==>
      && r == Err(ZodFailure(decode(old(req.Slot(target)).json).error))
      && req.Slot(target) == old(req.Slot(target))
    ensures target != Http.BodyTarget ==> req.body == old(req.body)
    ensures target != Http.QueryTarget ==> req.query == old(req.query)
    ensures target != Http.ParamsTarget ==> req.params == old(req.params)
    ensures req.user == old(req.user)
  {
    var parsed := decode(req.Slot(target).json);
    if parsed.Err? {
      return Err(ZodFailure(parsed.error));
    }
    match target {
      case BodyTarget => req.body := wrap(parsed.value);
      case QueryTarget => req.query := wrap(parsed.value);
      case ParamsTarget => req.params := wrap(parsed.value);
    }
    r := Ok(parsed.value);
  }
}
