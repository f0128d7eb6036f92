/** What every route shares: the inputs the outside world contributes to a
    request, `next(err)` answered by the error handler, and `res.json`
    with a status. */
module Pipeline {
  import opened Wrappers
  import opened AppErrors
  import opened Json
  import Tables
  import Zod
  import ErrorHandler
  import Http
  import Cache
  import AuthMiddleware
  import Validate

  /** The clock (milliseconds), zod's e-mail pattern, the token verifier and
      the three ways the cache can throw. */
  datatype Env = Env(
    now: int,
    isEmail: string -> bool,
    verify: string -> Result<Http.Principal, AuthMiddleware.TokenError>,
    cacheGetFault: bool,
    cacheWriteFault: bool,
    flushFault: bool)

  /** The roles of roleMiddleware(["ADMIN"]). */
  const Admins: set<Tables.Role> := {Tables.AdminRole}

  /** A schema's issue as the ZodError a validator passes on. */
  function Zodded<T>(r: Result<T, Zod.Issue>): (z: Result<T, Failure>)
    ensures r.Ok? <==> z.Ok?
    ensures r.Ok? ==> z.value == r.value
    ensures r.Err? ==> z.error == ZodFailure(r.error)
  {
    match r
    case Ok(v) => Ok(v)
    case Err(issue) => Err(ZodFailure(issue))
  }

  /** The error handler's outcome for this request. */
  function Answer(req: Http.Request, err: Failure): ErrorHandler.Outcome {
    ErrorHandler.HandleError(err, req.translate, req.requestId)
  }

  /** The reply is the error handler's envelope for `err`. */
  predicate Rejected(req: Http.Request, res: Http.Reply, err: Failure)
    reads res
  {
    res.Answered(Answer(req, err).status, Http.ErrorBody(Answer(req, err).body))
  }

  /** `next(err)`: the error handler sends its envelope with `res.json`,
      which stores it in the cache when the cache middleware installed its
      wrapper on this reply. */
  method Reject(req: Http.Request, res: Http.Reply, cache: Cache.ResponseCache, err: Failure, env: Env)
    modifies res, cache
    ensures Rejected(req, res, err) && res.storeUnder == old(res.storeUnder)
    ensures cache.entries == Cache.AfterJson(
      old(cache.entries), old(res.storeUnder), Http.ErrorBody(Answer(req, err).body), env.now, env.cacheWriteFault)
  {
    var out := Answer(req, err);
    res.status := out.status;
    Cache.SendJson(res, cache, Http.ErrorBody(out.body), env.now, env.cacheWriteFault);
  }

  /** `res.status(code).json(body)`. */
  method Respond(res: Http.Reply, cache: Cache.ResponseCache, code: int, body: Http.Body, env: Env)
    modifies res, cache
    ensures res.Answered(code, body) && res.storeUnder == old(res.storeUnder)
    ensures cache.entries == Cache.AfterJson(old(cache.entries), old(res.storeUnder), body, env.now, env.cacheWriteFault)
  {
    res.status := code;
    Cache.SendJson(res, cache, body, env.now, env.cacheWriteFault);
  }

  /** A handler result as a reply body. */
  function Served<T>(r: Result<T, Failure>, wrap: T -> Http.Body): (s: Result<Http.Body, Failure>)
    ensures r.Ok? <==> s.Ok?
    ensures r.Ok? ==> s.value == wrap(r.value)
    ensures r.Err? ==> s.error == r.error
  {
    match r
    case Ok(v) => Ok(wrap(v))
    case Err(e) => Err(e)
  }

  /** What a handler's result sends: the value, or the error handler's
      envelope. */
  function Sent(req: Http.Request, served: Result<Http.Body, Failure>): Http.Body {
    if served.Ok? then served.value else Http.ErrorBody(Answer(req, served.error).body)
  }

  function SentStatus(req: Http.Request, served: Result<Http.Body, Failure>, code: int): int {
    if served.Ok? then code else Answer(req, served.error).status
  }

  /** How a GET behind cacheMiddleware ends once its validators have passed:
      a cache error answered with 500 and nothing stored; a live entry
      replayed with status 200 whatever the status it was stored with; or the
      handler's result (`served`, sent with 200 when it succeeds) sent and
      stored under the URL for 30 seconds, error envelopes included. */
  predicate CachedGet(
    req: Http.Request, res: Http.Reply, before: map<string, Cache.Entry>, after: map<string, Cache.Entry>,
    env: Env, served: Result<Http.Body, Failure>)
    reads res
  {
    var hit := Cache.Find(before, req.originalUrl, env.now);
    if env.cacheGetFault then Rejected(req, res, Cache.CacheError) && after == before
    else if hit.Some? then res.Answered(200, hit.value) && after == before
    else
      && res.Answered(SentStatus(req, served, 200), Sent(req, served))
      && after == Cache.AfterJson(before, Some(req.originalUrl), Sent(req, served), env.now, env.cacheWriteFault)
  }

  /** cacheMiddleware in front of a GET handler, with its `next(err)`:
      `proceed` says the handler runs, with the storing wrapper installed. */
  method Lookup(req: Http.Request, res: Http.Reply, cache: Cache.ResponseCache, env: Env) returns (proceed: bool)
    modifies res, cache
    requires req.verb == Http.Get && res.Untouched()
    ensures proceed <==> !env.cacheGetFault && Cache.Find(old(cache.entries), req.originalUrl, env.now).None?
    ensures !proceed ==> CachedGet(req, res, old(cache.entries), cache.entries, env, Err(OtherFailure))
    ensures proceed ==>
      && res.status == 200 && !res.sent && res.storeUnder == Some(req.originalUrl)
      && cache.entries == old(cache.entries)
  {
    var flow := Cache.CacheMiddleware(cache, req, res, env.now, env.cacheGetFault);
    if flow.Fail? {
      Reject(req, res, cache, flow.failure, env);
      return false;
    }
    proceed := flow.Next?;
  }

  /** The handler of a cached GET sends its result through the wrapper. */
  method Finish(req: Http.Request, res: Http.Reply, cache: Cache.ResponseCache, served: Result<Http.Body, Failure>, env: Env)
    modifies res, cache
    requires res.status == 200 && res.storeUnder == Some(req.originalUrl)
    requires !env.cacheGetFault && Cache.Find(cache.entries, req.originalUrl, env.now).None?
    ensures CachedGet(req, res, old(cache.entries), cache.entries, env, served)
  {
    if served.Ok? {
      Respond(res, cache, 200, served.value, env);
    } else {
      Reject(req, res, cache, served.error, env);
    }
  }

  /** The reply is the handler's result: `code` and the value when it
      succeeded, the error handler's envelope when it threw. */
  predicate Delivered(req: Http.Request, res: Http.Reply, served: Result<Http.Body, Failure>, code: int)
    reads res
  {
    res.Answered(SentStatus(req, served, code), Sent(req, served))
  }

  /** A handler of a route the cache does not wrap sends its result. */
  method Deliver(req: Http.Request, res: Http.Reply, cache: Cache.ResponseCache, served: Result<Http.Body, Failure>, code: int, env: Env)
    modifies res, cache
    requires res.storeUnder.None?
    ensures Delivered(req, res, served, code) && res.storeUnder.None?
    ensures cache.entries == old(cache.entries)
  {
    if served.Ok? {
      Respond(res, cache, code, served.value, env);
    } else {
      Reject(req, res, cache, served.error, env);
    }
  }

  /** A handler that changed the tables: `invalidateCache()`, then
      `res.status(code).send()`. */
  method FlushAndSend(res: Http.Reply, cache: Cache.ResponseCache, code: int, env: Env)
    modifies res, cache
    ensures res.Answered(code, Http.NoBody) && res.storeUnder == old(res.storeUnder)
    ensures !env.flushFault ==> cache.entries == map[]
  {
    cache.Invalidate(env.flushFault);
    res.SendEmpty(code);
  }

  /** A handler that changed the tables: `invalidateCache()`, then
      `res.status(code).json(body)` on a reply the cache does not store. */
  method FlushAndRespond(res: Http.Reply, cache: Cache.ResponseCache, code: int, body: Http.Body, env: Env)
    modifies res, cache
    requires res.storeUnder.None?
    ensures res.Answered(code, body) && res.storeUnder.None?
    ensures !env.flushFault ==> cache.entries == map[]
  {
    cache.Invalidate(env.flushFault);
    Respond(res, cache, code, body, env);
  }

  /** authMiddleware then roleMiddleware(roles), a refusal answered by the
      error handler. */
  method Admit(req: Http.Request, res: Http.Reply, cache: Cache.ResponseCache, env: Env, roles: set<Tables.Role>)
    returns (r: Result<Http.Principal, Failure>)
    modifies req, res, cache
    requires req.user.None? && res.Untouched()
    ensures r == AuthMiddleware.Admission(req.authorization, env.verify, roles, req.translate)
    ensures r.Err? ==> Rejected(req, res, r.error)
    ensures r.Ok? ==> res.Untouched() && req.user == Some(r.value)
    ensures cache.entries == old(cache.entries)
    ensures req.body == old(req.body) && req.query == old(req.query) && req.params == old(req.params)
  {
    var user := AuthMiddleware.Authenticate(req, env.verify);
    if user.Err? {
      Reject(req, res, cache, user.error, env);
      return Err(user.error);
    }
    var denied := AuthMiddleware.RoleGate(req.user, roles, req.translate);
    if denied.Some? {
      Reject(req, res, cache, denied.value, env);
      return Err(denied.value);
    }
    r := user;
  }

  /** authMiddleware alone, a refusal answered by the error handler. */
  method Authenticate(req: Http.Request, res: Http.Reply, cache: Cache.ResponseCache, env: Env)
    returns (r: Result<Http.Principal, Failure>)
    modifies req, res, cache
    requires req.user.None? && res.Untouched()
    ensures r == AuthMiddleware.Authentication(req.authorization, env.verify, req.translate)
    ensures r.Err? ==> Rejected(req, res, r.error)
    ensures r.Ok? ==> res.Untouched() && req.user == Some(r.value)
    ensures cache.entries == old(cache.entries)
    ensures req.body == old(req.body) && req.query == old(req.query) && req.params == old(req.params)
  {
    r := AuthMiddleware.Authenticate(req, env.verify);
    if r.Err? {
      Reject(req, res, cache, r.error, env);
    }
  }

  /** A validator, a refusal answered by the error handler. */
  method Check<T>(
    req: Http.Request, res: Http.Reply, cache: Cache.ResponseCache, env: Env, target: Http.Target,
    decode: Json -> Result<T, Zod.Issue>, wrap: T -> Http.Payload)
    returns (r: Result<T, Failure>)
    modifies req, res, cache
    requires req.Slot(target).Raw? && res.Untouched()
    ensures r == Zodded(decode(old(req.Slot(target)).json))
    ensures r.Err? ==> Rejected(req, res, r.error)
    ensures r.Ok? ==> res.Untouched() && req.Slot(target) == wrap(r.value)
    ensures cache.entries == old(cache.entries)
    ensures target != Http.BodyTarget ==> req.body == old(req.body)
    ensures target != Http.QueryTarget ==> req.query == old(req.query)
    ensures target != Http.ParamsTarget ==> req.params == old(req.params)
    ensures req.user == old(req.user)
  {
    r := Validate.Validate(req, target, decode, wrap);
    if r.Err? {
      Reject(req, res, cache, r.error, env);
    }
  }
}
