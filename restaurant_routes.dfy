/** The public restaurant routes, mounted at /restaurants: the list, the
    detail and the reviews of one restaurant behind the response cache, and
    posting a review, which needs a bearer token and flushes the cache. */
module RestaurantRoutes {
  import opened Wrappers
  import opened Json
  import opened Tables
  import opened AppErrors
  import Text
  import I18n
  import ErrorHandler
  import Http
  import Cache
  import Pipeline
  import Validate
  import AuthMiddleware
  import RestaurantDto
  import ReviewDto
  import FavoriteDto
  import RestaurantRepository
  import ReviewRepository
  import RestaurantService

  /** GET /restaurants: validateQuery(RestaurantsQueryDTO), then the cache,
      then the page with 200. A query the schema refuses is answered 400
      before the cache is consulted, so nothing is stored for it. */
  method ListRestaurants(db: Database, cache: Cache.ResponseCache, req: Http.Request, res: Http.Reply, env: Pipeline.Env)
    modifies req, res, cache
    requires req.verb == Http.Get && req.Incoming() && res.Untouched()
    ensures var q := RestaurantDto.DecodeRestaurantsQuery(old(req.query).json);
      (&& (q.Err? ==> Pipeline.Rejected(req, res, ZodFailure(q.error)) && cache.entries == old(cache.entries))
       && (q.Ok? ==> Pipeline.CachedGet(req, res, old(cache.entries), cache.entries, env,
             Ok(Http.ListBody(RestaurantService.PageFor(db.State(), q.value))))))
  {
    var q := Validate.Validate(req, Http.QueryTarget, RestaurantDto.DecodeRestaurantsQuery, x => Http.QueryValue(x));
    if q.Err? {
      Pipeline.Reject(req, res, cache, q.error, env);
      return;
    }
    ServePage(db, cache, req, res, env, q.value);
  }

  /** The cached part of GET /restaurants, for a query that passed. */
  method ServePage(
    db: Database, cache: Cache.ResponseCache, req: Http.Request, res: Http.Reply, env: Pipeline.Env,
    q: RestaurantDto.RestaurantsQuery)
    modifies res, cache
    requires req.verb == Http.Get && res.Untouched()
    requires q.page >= 1 && q.limit >= 1 && req.query == Http.QueryValue(q)
    ensures Pipeline.CachedGet(req, res, old(cache.entries), cache.entries, env,
      Ok(Http.ListBody(RestaurantService.PageFor(db.State(), q))))
  {
    var proceed := Pipeline.Lookup(req, res, cache, env);
    if !proceed {
      return;
    }
    var page := RestaurantService.ListRestaurants(db, req.query.query);
    Pipeline.Finish(req, res, cache, Ok(Http.ListBody(page)), env);
  }

  /** GET /restaurants/:restaurant_id: validateParams, the cache, then the
      detail with 200 or the 404 envelope, either of them stored. */
  method GetRestaurant(db: Database, cache: Cache.ResponseCache, req: Http.Request, res: Http.Reply, env: Pipeline.Env)
    modifies req, res, cache
    requires req.verb == Http.Get && req.Incoming() && res.Untouched()
    ensures var p := RestaurantDto.DecodeRestaurantParams(old(req.params).json);
      (&& (p.Err? ==> Pipeline.Rejected(req, res, ZodFailure(p.error)) && cache.entries == old(cache.entries))
       && (p.Ok? ==> Pipeline.CachedGet(req, res, old(cache.entries), cache.entries, env,
             Pipeline.Served(RestaurantService.GetRestaurantById(db.State(), p.value), d => Http.DetailBody(d)))))
  {
    var p := Validate.Validate(req, Http.ParamsTarget, RestaurantDto.DecodeRestaurantParams, x => Http.IdValue(x));
    if p.Err? {
      Pipeline.Reject(req, res, cache, p.error, env);
      return;
    }
    ServeDetail(db, cache, req, res, env, p.value);
  }

  /** The cached part of GET /restaurants/:restaurant_id. */
  method ServeDetail(
    db: Database, cache: Cache.ResponseCache, req: Http.Request, res: Http.Reply, env: Pipeline.Env, id: int)
    modifies res, cache
    requires req.verb == Http.Get && res.Untouched() && req.params == Http.IdValue(id)
    ensures Pipeline.CachedGet(req, res, old(cache.entries), cache.entries, env,
      Pipeline.Served(RestaurantService.GetRestaurantById(db.State(), id), d => Http.DetailBody(d)))
  {
    var proceed := Pipeline.Lookup(req, res, cache, env);
    if !proceed {
      return;
    }
    var detail := RestaurantService.GetRestaurantById(db.State(), req.params.id);
    Pipeline.Finish(req, res, cache, Pipeline.Served(detail, d => Http.DetailBody(d)), env);
  }

  /** GET /restaurants/:restaurant_id/reviews: the same chain with the
      restaurant's reviews. */
  method ListReviews(db: Database, cache: Cache.ResponseCache, req: Http.Request, res: Http.Reply, env: Pipeline.Env)
    modifies req, res, cache
    requires req.verb == Http.Get && req.Incoming() && res.Untouched()
    ensures var p := RestaurantDto.DecodeRestaurantParams(old(req.params).json);
      (&& (p.Err? ==> Pipeline.Rejected(req, res, ZodFailure(p.error)) && cache.entries == old(cache.entries))
       && (p.Ok? ==> Pipeline.CachedGet(req, res, old(cache.entries), cache.entries, env,
             Pipeline.Served(RestaurantService.ListReviewsForRestaurant(db.State(), p.value, env.isEmail),
               rows => Http.RestaurantReviewsBody(rows)))))
  {
    var p := Validate.Validate(req, Http.ParamsTarget, RestaurantDto.DecodeRestaurantParams, x => Http.IdValue(x));
    if p.Err? {
      Pipeline.Reject(req, res, cache, p.error, env);
      return;
    }
    ServeReviews(db, cache, req, res, env, p.value);
  }

  /** The cached part of GET /restaurants/:restaurant_id/reviews. */
  method ServeReviews(
    db: Database, cache: Cache.ResponseCache, req: Http.Request, res: Http.Reply, env: Pipeline.Env, id: int)
    modifies res, cache
    requires req.verb == Http.Get && res.Untouched() && req.params == Http.IdValue(id)
    ensures Pipeline.CachedGet(req, res, old(cache.entries), cache.entries, env,
      Pipeline.Served(RestaurantService.ListReviewsForRestaurant(db.State(), id, env.isEmail),
        rows => Http.RestaurantReviewsBody(rows)))
  {
    var proceed := Pipeline.Lookup(req, res, cache, env);
    if !proceed {
      return;
    }
    var reviews := RestaurantService.ListReviewsForRestaurant(db.State(), req.params.id, env.isEmail);
    Pipeline.Finish(req, res, cache, Pipeline.Served(reviews, rows => Http.RestaurantReviewsBody(rows)), env);
  }

  /** The cache stores error envelopes as well: a GET of an unknown
      restaurant is answered 404, and the same URL asked again within 30
      seconds is answered with that envelope, the first request's id
      included, at status 200. */
  method NotFoundReplayedWithOk(
    db: Database, k: nat, url: string, language: Option<string>, firstId: string, secondId: string,
    env: Pipeline.Env, later: int)
    returns (first: Http.Reply, second: Http.Reply)
    requires k >= 1 && !RestaurantRepository.RestaurantExists(db.State(), k)
    requires !env.cacheGetFault && !env.cacheWriteFault
    requires env.now <= later <= env.now + Cache.TtlMillis
    ensures first.status == 404 && first.body.ErrorBody? && first.body.envelope.requestId == firstId
    ensures second.status == 200 && second.body == first.body
  {
    var cache := new Cache.ResponseCache();
    var params := JObj(map["restaurant_id" := JStr(Text.NatToString(k))]);
    FavoriteDto.IdCoercedFromPath(params, k);
    var req1 := IncomingGet(url, language, firstId, params);
    first := AskMissing(db, cache, k, req1, env);
    var req2 := IncomingGet(url, language, secondId, params);
    second := AskMissing(db, cache, k, req2, env.(now := later));
  }

  /** An anonymous GET for `url` with the given path parameters. */
  method IncomingGet(url: string, language: Option<string>, requestId: string, params: Json) returns (req: Http.Request)
    ensures fresh(req) && req.verb == Http.Get && req.Incoming()
    ensures req.originalUrl == url && req.requestId == requestId && req.params == Http.Raw(params)
  {
    req := new Http.Request(Http.Get, url, None, language, requestId, JObj(map[]), JObj(map[]), params);
  }

  /** GET /restaurants/k for a restaurant that does not exist. */
  method AskMissing(db: Database, cache: Cache.ResponseCache, k: nat, req: Http.Request, env: Pipeline.Env)
    returns (res: Http.Reply)
    modifies req, cache
    requires req.verb == Http.Get && req.Incoming() && req.params.json.JObj?
    requires RestaurantDto.DecodeRestaurantParams(req.params.json) == Ok(k)
    requires !RestaurantRepository.RestaurantExists(db.State(), k)
    requires !env.cacheGetFault && !env.cacheWriteFault
    ensures var hit := Cache.Find(old(cache.entries), req.originalUrl, env.now);
      (&& (hit.Some? ==> res.Answered(200, hit.value) && cache.entries == old(cache.entries))
       && (hit.None? ==>
             && res.status == 404 && res.body.ErrorBody? && res.body.envelope.requestId == req.requestId
             && cache.entries == Cache.AfterJson(old(cache.entries), Some(req.originalUrl), res.body, env.now, false)))
  {
    res := new Http.Reply();
    GetRestaurant(db, cache, req, res, env);
  }

  /** What POST /restaurants/:restaurant_id/reviews has once its three
      middlewares have passed. */
  datatype ReviewRequest = ReviewRequest(author: Http.Principal, restaurantId: int, input: ReviewDto.ReviewInput)

  /** authMiddleware, validateParams and validateBody in that order: the
      first refusal is the answer, so an anonymous request is a 401 whatever
      its path and body, and a bad path is reported before a bad body. */
  function ReviewGates(
    authorization: Option<string>, verify: string -> Result<Http.Principal, AuthMiddleware.TokenError>,
    t: string -> string, params: Json, body: Json)
    : (r: Result<ReviewRequest, Failure>)
    ensures AuthMiddleware.Authentication(authorization, verify, t).Err? ==>
      r == Err(AuthMiddleware.Authentication(authorization, verify, t).error)
    ensures AuthMiddleware.Authentication(authorization, verify, t).Ok? && RestaurantDto.DecodeRestaurantParams(params).Err? ==>
      r == Err(ZodFailure(RestaurantDto.DecodeRestaurantParams(params).error))
    ensures r.Ok? <==>
      (&& AuthMiddleware.Authentication(authorization, verify, t).Ok?
       && RestaurantDto.DecodeRestaurantParams(params).Ok?
       && ReviewDto.DecodeReviewBody(body).Ok?)
    ensures r.Ok? ==>
      && r.value.author == AuthMiddleware.Authentication(authorization, verify, t).value
      && r.value.restaurantId == RestaurantDto.DecodeRestaurantParams(params).value
      && r.value.input == ReviewDto.DecodeReviewBody(body).value
  {
    var author :- AuthMiddleware.Authentication(authorization, verify, t);
    var restaurantId :- Pipeline.Zodded(RestaurantDto.DecodeRestaurantParams(params));
    var input :- Pipeline.Zodded(ReviewDto.DecodeReviewBody(body));
    Ok(ReviewRequest(author, restaurantId, input))
  }

  /** POST /restaurants/:restaurant_id/reviews. The author is the token's
      user, never anything in the body. A refused gate or a refused insert
      leaves the tables and the cache as they were; a created review is
      answered 201 with its id and flushes the cache. `rival` and
      `storageFault` are the concurrent insert and the storage error of
      createReviewForRestaurant. */
  method CreateReview(
    db: Database, cache: Cache.ResponseCache, req: Http.Request, res: Http.Reply, env: Pipeline.Env,
    rival: Option<ReviewDto.ReviewInput>, storageFault: bool)
    modifies db, req, res, cache
    requires req.verb == Http.Post && req.Incoming() && res.Untouched()
    requires Valid(db.State())
    ensures Valid(db.State())
    ensures var g := ReviewGates(req.authorization, env.verify, req.translate, old(req.params).json, old(req.body).json);
      g.Err? ==>
        Pipeline.Rejected(req, res, g.error) && db.State() == old(db.State()) && cache.entries == old(cache.entries)
    ensures var g := ReviewGates(req.authorization, env.verify, req.translate, old(req.params).json, old(req.body).json);
      g.Ok? && !RestaurantRepository.RestaurantExists(old(db.State()), g.value.restaurantId) ==>
        && Pipeline.Rejected(req, res, RestaurantService.RestaurantNotFound)
        && db.State() == old(db.State()) && cache.entries == old(cache.entries)
    ensures var g := ReviewGates(req.authorization, env.verify, req.translate, old(req.params).json, old(req.body).json);
      (&& g.Ok? && RestaurantRepository.RestaurantExists(old(db.State()), g.value.restaurantId)
       && ReviewRepository.UserHasReview(old(db.State()), g.value.author.id, g.value.restaurantId)) ==>
        && Pipeline.Rejected(req, res, RestaurantService.AlreadyReviewed)
        && db.State() == old(db.State()) && cache.entries == old(cache.entries)
    ensures var g := ReviewGates(req.authorization, env.verify, req.translate, old(req.params).json, old(req.body).json);
      g.Ok? && Accepted(old(db.State()), g.value) && rival.None? && !storageFault ==>
        res.Answered(201, Http.IdBody(old(db.nextReviewId)))
    ensures var g := ReviewGates(req.authorization, env.verify, req.translate, old(req.params).json, old(req.body).json);
      g.Ok? && Accepted(old(db.State()), g.value) && storageFault ==>
        Pipeline.Rejected(req, res, OtherFailure)
    ensures var g := ReviewGates(req.authorization, env.verify, req.translate, old(req.params).json, old(req.body).json);
      g.Ok? && Accepted(old(db.State()), g.value) && rival.Some? && !storageFault ==>
        Pipeline.Rejected(req, res, RestaurantService.AlreadyReviewed)
    ensures var g := ReviewGates(req.authorization, env.verify, req.translate, old(req.params).json, old(req.body).json);
      g.Ok? ==> db.State() == RestaurantService.AfterReview(old(db.State()), g.value.author.id, g.value.restaurantId,
        g.value.input, env.now, rival, storageFault)
    ensures var g := ReviewGates(req.authorization, env.verify, req.translate, old(req.params).json, old(req.body).json);
      g.Ok? && Accepted(old(db.State()), g.value) && rival.None? && !storageFault && !env.flushFault ==>
        cache.entries == map[]
    ensures res.sent && (res.status != 201 ==> cache.entries == old(cache.entries))
  {
    var g := PassReviewGates(cache, req, res, env);
    if g.Ok? {
      StoreReview(db, cache, req, res, env, g.value, rival, storageFault);
    }
  }

  /** The middlewares of POST /restaurants/:restaurant_id/reviews, each
      refusal answered by the error handler. */
  method PassReviewGates(cache: Cache.ResponseCache, req: Http.Request, res: Http.Reply, env: Pipeline.Env)
    returns (g: Result<ReviewRequest, Failure>)
    modifies req, res, cache
    requires req.Incoming() && res.Untouched()
    ensures g == ReviewGates(req.authorization, env.verify, req.translate, old(req.params).json, old(req.body).json)
    ensures g.Err? ==> Pipeline.Rejected(req, res, g.error) && cache.entries == old(cache.entries)
    ensures g.Ok? ==>
      && res.Untouched() && cache.entries == old(cache.entries)
      && req.user == Some(g.value.author)
      && req.params == Http.IdValue(g.value.restaurantId)
      && req.body == Http.ReviewValue(g.value.input)
  {
    var author := AuthMiddleware.Authenticate(req, env.verify);
    if author.Err? {
      Pipeline.Reject(req, res, cache, author.error, env);
      return Err(author.error);
    }
    var p := Validate.Validate(req, Http.ParamsTarget, RestaurantDto.DecodeRestaurantParams, x => Http.IdValue(x));
    if p.Err? {
      Pipeline.Reject(req, res, cache, p.error, env);
      return Err(p.error);
    }
    var b := Validate.Validate(req, Http.BodyTarget, ReviewDto.DecodeReviewBody, x => Http.ReviewValue(x));
    if b.Err? {
      Pipeline.Reject(req, res, cache, b.error, env);
      return Err(b.error);
    }
    g := Ok(ReviewRequest(author.value, p.value, b.value));
  }

  /** The review can be inserted: its restaurant exists and its author has
      not reviewed it yet. */
  predicate Accepted(t: Tables, g: ReviewRequest) {
    && RestaurantRepository.RestaurantExists(t, g.restaurantId)
    && !ReviewRepository.UserHasReview(t, g.author.id, g.restaurantId)
  }

  /** The handler of POST /restaurants/:restaurant_id/reviews, for a request
      whose middlewares passed with `g`. */
  method StoreReview(
    db: Database, cache: Cache.ResponseCache, req: Http.Request, res: Http.Reply, env: Pipeline.Env,
    g: ReviewRequest, rival: Option<ReviewDto.ReviewInput>, storageFault: bool)
    modifies db, res, cache
    requires res.Untouched() && Valid(db.State())
    requires req.user == Some(g.author) && req.params == Http.IdValue(g.restaurantId) && req.body == Http.ReviewValue(g.input)
    ensures Valid(db.State())
    ensures !RestaurantRepository.RestaurantExists(old(db.State()), g.restaurantId) ==>
      && Pipeline.Rejected(req, res, RestaurantService.RestaurantNotFound)
      && db.State() == old(db.State()) && cache.entries == old(cache.entries)
    ensures (&& RestaurantRepository.RestaurantExists(old(db.State()), g.restaurantId)
             && ReviewRepository.UserHasReview(old(db.State()), g.author.id, g.restaurantId)) ==>
      && Pipeline.Rejected(req, res, RestaurantService.AlreadyReviewed)
      && db.State() == old(db.State()) && cache.entries == old(cache.entries)
    ensures Accepted(old(db.State()), g) && rival.None? && !storageFault ==>
      res.Answered(201, Http.IdBody(old(db.nextReviewId)))
    ensures Accepted(old(db.State()), g) && storageFault ==> Pipeline.Rejected(req, res, OtherFailure)
    ensures Accepted(old(db.State()), g) && rival.Some? && !storageFault ==>
      Pipeline.Rejected(req, res, RestaurantService.AlreadyReviewed)
    ensures db.State() == RestaurantService.AfterReview(old(db.State()), g.author.id, g.restaurantId, g.input, env.now, rival, storageFault)
    ensures Accepted(old(db.State()), g) && rival.None? && !storageFault && !env.flushFault ==>
      cache.entries == map[]
    ensures res.sent && (res.status != 201 ==> cache.entries == old(cache.entries))
  {
    var created := RestaurantService.CreateReviewForRestaurant(
      db, req.user.value.id, req.params.id, req.body.review, env.now, rival, storageFault);
    if created.Err? {
      Pipeline.Reject(req, res, cache, created.error, env);
      return;
    }
    Pipeline.FlushAndRespond(res, cache, 201, Http.IdBody(created.value), env);
  }
}
