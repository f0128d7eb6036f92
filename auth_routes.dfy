/** The account routes, mounted at /auth: authRateLimiter, then the body's
    schema, then the service. Whether the client has used up its window is
    a parameter, `limited`: the counting belongs to the rate-limit library. */
module AuthRoutes {
  import opened Wrappers
  import opened Json
  import opened Tables
  import opened AppErrors
  import Http
  import Cache
  import Pipeline
  import AuthDto
  import AuthRepository
  import AuthService
  import Zod

  /** What authRateLimiter's handler passes on: 429 RATE_LIMIT_AUTH with
      the request's translation of TOO_MANY_REQUESTS as the message. */
  function Throttled(t: string -> string): Failure {
    Raise(t("TOO_MANY_REQUESTS"), 429, "RATE_LIMIT_AUTH")
  }

  /** authRateLimiter then validateBody(schema): a throttled client is
      refused before its body is looked at. */
  function Gates<T>(limited: bool, t: string -> string, body: Json, schema: Json -> Result<T, Zod.Issue>)
    : (r: Result<T, Failure>)
    ensures limited ==> r == Err(Throttled(t))
    ensures !limited ==> r == Pipeline.Zodded(schema(body))
  {
    if limited then Err(Throttled(t)) else Pipeline.Zodded(schema(body))
  }

  /** The middlewares of an /auth route. */
  method PassGates<T>(
    cache: Cache.ResponseCache, req: Http.Request, res: Http.Reply, env: Pipeline.Env, limited: bool,
    schema: Json -> Result<T, Zod.Issue>, wrap: T -> Http.Payload)
    returns (g: Result<T, Failure>)
    modifies req, res, cache
    requires req.Incoming() && res.Untouched()
    ensures g == Gates(limited, req.translate, old(req.body).json, schema)
    ensures g.Err? ==> Pipeline.Rejected(req, res, g.error)
    ensures g.Ok? ==> res.Untouched() && req.body == wrap(g.value)
    ensures cache.entries == old(cache.entries)
  {
    if limited {
      Pipeline.Reject(req, res, cache, Throttled(req.translate), env);
      return Err(Throttled(req.translate));
    }
    g := Pipeline.Check(req, res, cache, env, Http.BodyTarget, schema, wrap);
  }

  /** POST /auth/register. A taken e-mail is a 409 and changes nothing; a
      registration is answered 201 with a token for the new USER. `salted`
      and `crypto` are bcrypt and jsonwebtoken, `configured` is
      JWT_EXPIRES_IN, and `rival` a concurrent registration of the same
      e-mail that lands first. */
  method Register(
    db: Database, cache: Cache.ResponseCache, req: Http.Request, res: Http.Reply, env: Pipeline.Env,
    limited: bool, salted: string -> string, crypto: AuthService.Crypto, configured: Option<real>,
    rival: Option<AuthService.Registration>)
    modifies db, req, res, cache
    requires req.verb == Http.Post && req.Incoming() && res.Untouched()
    requires Valid(db.State())
    ensures Valid(db.State())
    ensures cache.entries == old(cache.entries)
    ensures var g := Gates(limited, req.translate, old(req.body).json, b => AuthDto.DecodeRegister(b, env.isEmail));
      g.Err? ==> Pipeline.Rejected(req, res, g.error) && db.State() == old(db.State())
    ensures var g := Gates(limited, req.translate, old(req.body).json, b => AuthDto.DecodeRegister(b, env.isEmail));
      g.Ok? ==> db.State() == AuthService.AfterRegistration(old(db.State()), g.value, salted, rival)
    ensures var g := Gates(limited, req.translate, old(req.body).json, b => AuthDto.DecodeRegister(b, env.isEmail));
      g.Ok? && AuthRepository.EmailExists(old(db.State()), AuthService.NormalEmail(g.value.email)) ==>
        Pipeline.Rejected(req, res, AuthService.EmailInUse)
    ensures var g := Gates(limited, req.translate, old(req.body).json, b => AuthDto.DecodeRegister(b, env.isEmail));
      g.Ok? && !AuthRepository.EmailExists(old(db.State()), AuthService.NormalEmail(g.value.email)) && rival.Some? ==>
        Pipeline.Rejected(req, res, OtherFailure)
    ensures var g := Gates(limited, req.translate, old(req.body).json, b => AuthDto.DecodeRegister(b, env.isEmail));
      g.Ok? && !AuthRepository.EmailExists(old(db.State()), AuthService.NormalEmail(g.value.email)) && rival.None? ==>
        res.Answered(201, Http.RegisteredBody(AuthService.Registered(
          crypto.sign(old(db.nextUserId), UserRole),
          AuthRepository.IdAndRole(old(db.nextUserId), UserRole),
          AuthService.ExpiresIn(configured))))
  {
    var g := PassGates(cache, req, res, env, limited, b => AuthDto.DecodeRegister(b, env.isEmail), x => Http.RegisterValue(x));
    if g.Ok? {
      StoreUser(db, cache, req, res, env, g.value, salted, crypto, configured, rival);
    }
  }

  /** The handler of POST /auth/register. */
  method StoreUser(
    db: Database, cache: Cache.ResponseCache, req: Http.Request, res: Http.Reply, env: Pipeline.Env,
    data: AuthDto.RegisterInput, salted: string -> string, crypto: AuthService.Crypto, configured: Option<real>,
    rival: Option<AuthService.Registration>)
    modifies db, res, cache
    requires res.Untouched() && Valid(db.State()) && req.body == Http.RegisterValue(data)
    ensures Valid(db.State())
    ensures cache.entries == old(cache.entries)
    ensures db.State() == AuthService.AfterRegistration(old(db.State()), data, salted, rival)
    ensures AuthRepository.EmailExists(old(db.State()), AuthService.NormalEmail(data.email)) ==>
      Pipeline.Rejected(req, res, AuthService.EmailInUse)
    ensures !AuthRepository.EmailExists(old(db.State()), AuthService.NormalEmail(data.email)) && rival.Some? ==>
      Pipeline.Rejected(req, res, OtherFailure)
    ensures !AuthRepository.EmailExists(old(db.State()), AuthService.NormalEmail(data.email)) && rival.None? ==>
      res.Answered(201, Http.RegisteredBody(AuthService.Registered(
        crypto.sign(old(db.nextUserId), UserRole),
        AuthRepository.IdAndRole(old(db.nextUserId), UserRole),
        AuthService.ExpiresIn(configured))))
  {
    var registered := AuthService.RegisterUser(db, req.body.registration, salted, crypto, configured, rival);
    Pipeline.Deliver(req, res, cache, Pipeline.Served(registered, x => Http.RegisteredBody(x)), 201, env);
  }

  /** POST /auth/login: 200 with a token and the user's row, or the
      service's single 401 for an unknown e-mail and a wrong password. */
  method Login(
    db: Database, cache: Cache.ResponseCache, req: Http.Request, res: Http.Reply, env: Pipeline.Env,
    limited: bool, crypto: AuthService.Crypto, configured: Option<real>)
    modifies req, res, cache
    requires req.verb == Http.Post && req.Incoming() && res.Untouched()
    ensures cache.entries == old(cache.entries)
    ensures var g := Gates(limited, req.translate, old(req.body).json, b => AuthDto.DecodeLogin(b, env.isEmail));
      (&& (g.Err? ==> Pipeline.Rejected(req, res, g.error))
       && (g.Ok? ==> Pipeline.Delivered(req, res,
             Pipeline.Served(AuthService.LoginUser(db.State(), g.value, crypto, configured), x => Http.LoggedInBody(x)), 200)))
  {
    var g := PassGates(cache, req, res, env, limited, b => AuthDto.DecodeLogin(b, env.isEmail), x => Http.LoginValue(x));
    if g.Ok? {
      var loggedIn := AuthService.LoginUser(db.State(), req.body.login, crypto, configured);
      Pipeline.Deliver(req, res, cache, Pipeline.Served(loggedIn, x => Http.LoggedInBody(x)), 200, env);
    }
  }
}
