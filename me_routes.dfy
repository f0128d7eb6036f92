/** The signed-in user's routes, mounted at /me: every one needs a bearer
    token and acts for the token's user only; the caller never names a
    user. None of them is cached, and each change flushes the cache. */
module MeRoutes {
  import opened Wrappers
  import opened Json
  import opened Tables
  import opened AppErrors
  import Seqs
  import Zod
  import Http
  import Cache
  import Pipeline
  import AuthMiddleware
  import RestaurantDto
  import ReviewDto
  import RestaurantRepository
  import ReviewRepository
  import FavoriteRepository
  import UserService

  /** GET /me: the caller's profile, or 404 when the token outlived its
      user. */
  method GetProfile(db: Database, cache: Cache.ResponseCache, req: Http.Request, res: Http.Reply, env: Pipeline.Env)
    modifies req, res, cache
    requires req.verb == Http.Get && req.Incoming() && res.Untouched()
    ensures var a := AuthMiddleware.Authentication(req.authorization, env.verify, req.translate);
      (&& (a.Err? ==> Pipeline.Rejected(req, res, a.error))
       && (a.Ok? ==> Pipeline.Delivered(req, res,
             Pipeline.Served(UserService.GetUserById(db.State(), a.value.id, env.isEmail), u => Http.UserBody(u)), 200)))
    ensures cache.entries == old(cache.entries)
  {
    var user := Pipeline.Authenticate(req, res, cache, env);
    if user.Err? {
      return;
    }
    var profile := UserService.GetUserById(db.State(), req.user.value.id, env.isEmail);
    Pipeline.Deliver(req, res, cache, Pipeline.Served(profile, u => Http.UserBody(u)), 200, env);
  }

  /** GET /me/reviews: the caller's reviews, newest first. */
  method GetMyReviews(db: Database, cache: Cache.ResponseCache, req: Http.Request, res: Http.Reply, env: Pipeline.Env)
    modifies req, res, cache
    requires req.verb == Http.Get && req.Incoming() && res.Untouched()
    ensures var a := AuthMiddleware.Authentication(req.authorization, env.verify, req.translate);
      (&& (a.Err? ==> Pipeline.Rejected(req, res, a.error))
       && (a.Ok? ==> res.Answered(200, Http.UserReviewsBody(UserService.ListReviewsByUser(db.State(), a.value.id)))))
    ensures cache.entries == old(cache.entries)
  {
    var user := Pipeline.Authenticate(req, res, cache, env);
    if user.Err? {
      return;
    }
    var reviews := UserService.ListReviewsByUser(db.State(), req.user.value.id);
    Pipeline.Respond(res, cache, 200, Http.UserReviewsBody(reviews), env);
  }

  /** GET /me/favorites: the caller's saved restaurants with their ratings. */
  method GetFavorites(db: Database, cache: Cache.ResponseCache, req: Http.Request, res: Http.Reply, env: Pipeline.Env)
    modifies req, res, cache
    requires req.verb == Http.Get && req.Incoming() && res.Untouched()
    ensures var a := AuthMiddleware.Authentication(req.authorization, env.verify, req.translate);
      (&& (a.Err? ==> Pipeline.Rejected(req, res, a.error))
       && (a.Ok? ==> res.Answered(200, Http.FavoritesBody(UserService.ListFavoritesByUser(db.State(), a.value.id)))))
    ensures cache.entries == old(cache.entries)
  {
    var user := Pipeline.Authenticate(req, res, cache, env);
    if user.Err? {
      return;
    }
    var favorites := UserService.ListFavoritesByUser(db.State(), req.user.value.id);
    Pipeline.Respond(res, cache, 200, Http.FavoritesBody(favorites), env);
  }

  /** The caller and the id in the path. */
  datatype Addressed = Addressed(user: Http.Principal, id: int)

  /** authMiddleware then validateParams(schema): an anonymous request is a
      401 whatever its path. */
  function AddressedBy(
    authorization: Option<string>, verify: string -> Result<Http.Principal, AuthMiddleware.TokenError>,
    t: string -> string, params: Json, schema: Json -> Result<int, Zod.Issue>)
    : (r: Result<Addressed, Failure>)
    ensures AuthMiddleware.Authentication(authorization, verify, t).Err? ==>
      r == Err(AuthMiddleware.Authentication(authorization, verify, t).error)
    ensures AuthMiddleware.Authentication(authorization, verify, t).Ok? && schema(params).Err? ==>
      r == Err(ZodFailure(schema(params).error))
    ensures r.Ok? <==> AuthMiddleware.Authentication(authorization, verify, t).Ok? && schema(params).Ok?
    ensures r.Ok? ==>
      r.value == Addressed(AuthMiddleware.Authentication(authorization, verify, t).value, schema(params).value)
  {
    var user :- AuthMiddleware.Authentication(authorization, verify, t);
    var id :- Pipeline.Zodded(schema(params));
    Ok(Addressed(user, id))
  }

  /** The middlewares of a /me route with a path id. */
  method PassAddressedGates(
    cache: Cache.ResponseCache, req: Http.Request, res: Http.Reply, env: Pipeline.Env,
    schema: Json -> Result<int, Zod.Issue>)
    returns (g: Result<Addressed, Failure>)
    modifies req, res, cache
    requires req.Incoming() && res.Untouched()
    ensures g == AddressedBy(req.authorization, env.verify, req.translate, old(req.params).json, schema)
    ensures g.Err? ==> Pipeline.Rejected(req, res, g.error)
    ensures g.Ok? ==> res.Untouched() && req.user == Some(g.value.user) && req.params == Http.IdValue(g.value.id)
    ensures req.body == old(req.body)
    ensures cache.entries == old(cache.entries)
  {
    var user := Pipeline.Authenticate(req, res, cache, env);
    if user.Err? {
      return Err(user.error);
    }
    var id := Pipeline.Check(req, res, cache, env, Http.ParamsTarget, schema, x => Http.IdValue(x));
    if id.Err? {
      return Err(id.error);
    }
    g := Ok(Addressed(user.value, id.value));
  }

  /** What PUT /me/reviews/:review_id has once its middlewares have passed. */
  datatype ReviewEdit = ReviewEdit(user: Http.Principal, reviewId: int, input: ReviewDto.ReviewInput)

  /** authMiddleware, validateParams(ReviewParamsDTO) and
      validateBody(UpdateReviewDTO), in that order. */
  function EditGates(
    authorization: Option<string>, verify: string -> Result<Http.Principal, AuthMiddleware.TokenError>,
    t: string -> string, params: Json, body: Json)
    : (r: Result<ReviewEdit, Failure>)
    ensures AddressedBy(authorization, verify, t, params, ReviewDto.DecodeReviewParams).Err? ==>
      r == Err(AddressedBy(authorization, verify, t, params, ReviewDto.DecodeReviewParams).error)
    ensures r.Ok? <==>
      AddressedBy(authorization, verify, t, params, ReviewDto.DecodeReviewParams).Ok? && ReviewDto.DecodeReviewBody(body).Ok?
    ensures r.Ok? ==>
      && r.value.user == AuthMiddleware.Authentication(authorization, verify, t).value
      && r.value.reviewId == ReviewDto.DecodeReviewParams(params).value
      && r.value.input == ReviewDto.DecodeReviewBody(body).value
  {
    var target :- AddressedBy(authorization, verify, t, params, ReviewDto.DecodeReviewParams);
    var input :- Pipeline.Zodded(ReviewDto.DecodeReviewBody(body));
    Ok(ReviewEdit(target.user, target.id, input))
  }

  /** PUT /me/reviews/:review_id. Only the caller's own review can be
      edited: any other id, someone else's review included, is a 404 and
      changes nothing. An edit is answered 200 with the review id. */
  method EditReview(db: Database, cache: Cache.ResponseCache, req: Http.Request, res: Http.Reply, env: Pipeline.Env)
    modifies db, req, res, cache
    requires req.verb == Http.Put && req.Incoming() && res.Untouched()
    requires Valid(db.State())
    ensures Valid(db.State())
    ensures var g := EditGates(req.authorization, env.verify, req.translate, old(req.params).json, old(req.body).json);
      g.Err? ==>
        Pipeline.Rejected(req, res, g.error) && db.State() == old(db.State()) && cache.entries == old(cache.entries)
    ensures var g := EditGates(req.authorization, env.verify, req.translate, old(req.params).json, old(req.body).json);
      g.Ok? && ReviewRepository.FindUserReview(old(db.State()), g.value.reviewId, g.value.user.id).None? ==>
        && Pipeline.Rejected(req, res, UserService.ReviewNotFound)
        && db.State() == old(db.State()) && cache.entries == old(cache.entries)
    ensures var g := EditGates(req.authorization, env.verify, req.translate, old(req.params).json, old(req.body).json);
      g.Ok? && ReviewRepository.FindUserReview(old(db.State()), g.value.reviewId, g.value.user.id).Some? ==>
        && res.Answered(200, Http.IdBody(g.value.reviewId))
        && UserService.ReviewRewritten(old(db.State()), db.State(), g.value.reviewId, g.value.input)
        && (!env.flushFault ==> cache.entries == map[])
  {
    var g := PassEditGates(cache, req, res, env);
    if g.Ok? {
      StoreEdit(db, cache, req, res, env, g.value);
    }
  }

  /** The middlewares of PUT /me/reviews/:review_id. */
  method PassEditGates(cache: Cache.ResponseCache, req: Http.Request, res: Http.Reply, env: Pipeline.Env)
    returns (g: Result<ReviewEdit, Failure>)
    modifies req, res, cache
    requires req.Incoming() && res.Untouched()
    ensures g == EditGates(req.authorization, env.verify, req.translate, old(req.params).json, old(req.body).json)
    ensures g.Err? ==> Pipeline.Rejected(req, res, g.error)
    ensures g.Ok? ==>
      && res.Untouched() && req.user == Some(g.value.user)
      && req.params == Http.IdValue(g.value.reviewId) && req.body == Http.ReviewValue(g.value.input)
    ensures cache.entries == old(cache.entries)
  {
    var target := PassAddressedGates(cache, req, res, env, ReviewDto.DecodeReviewParams);
    if target.Err? {
      return Err(target.error);
    }
    var input := Pipeline.Check(req, res, cache, env, Http.BodyTarget, ReviewDto.DecodeReviewBody, x => Http.ReviewValue(x));
    if input.Err? {
      return Err(input.error);
    }
    g := Ok(ReviewEdit(target.value.user, target.value.id, input.value));
  }

  /** The handler of PUT /me/reviews/:review_id. */
  method StoreEdit(
    db: Database, cache: Cache.ResponseCache, req: Http.Request, res: Http.Reply, env: Pipeline.Env, g: ReviewEdit)
    modifies db, res, cache
    requires res.Untouched() && Valid(db.State())
    requires req.user == Some(g.user) && req.params == Http.IdValue(g.reviewId) && req.body == Http.ReviewValue(g.input)
    ensures Valid(db.State())
    ensures ReviewRepository.FindUserReview(old(db.State()), g.reviewId, g.user.id).None? ==>
      && Pipeline.Rejected(req, res, UserService.ReviewNotFound)
      && db.State() == old(db.State()) && cache.entries == old(cache.entries)
    ensures ReviewRepository.FindUserReview(old(db.State()), g.reviewId, g.user.id).Some? ==>
      && res.Answered(200, Http.IdBody(g.reviewId))
      && UserService.ReviewRewritten(old(db.State()), db.State(), g.reviewId, g.input)
      && (!env.flushFault ==> cache.entries == map[])
  {
    var edited := UserService.UpdateUserReview(db, req.params.id, req.body.review, req.user.value.id);
    if edited.Err? {
      Pipeline.Reject(req, res, cache, edited.error, env);
      return;
    }
    Pipeline.FlushAndRespond(res, cache, 200, Http.IdBody(edited.value), env);
  }

  /** DELETE /me/reviews/:review_id. Only the caller's own review can be
      deleted; a deletion is answered 204 with no body. */
  method DeleteReview(db: Database, cache: Cache.ResponseCache, req: Http.Request, res: Http.Reply, env: Pipeline.Env)
    modifies db, req, res, cache
    requires req.verb == Http.Delete && req.Incoming() && res.Untouched()
    requires Valid(db.State())
    ensures Valid(db.State())
    ensures var g := AddressedBy(req.authorization, env.verify, req.translate, old(req.params).json, ReviewDto.DecodeReviewParams);
      g.Err? ==>
        Pipeline.Rejected(req, res, g.error) && db.State() == old(db.State()) && cache.entries == old(cache.entries)
    ensures var g := AddressedBy(req.authorization, env.verify, req.translate, old(req.params).json, ReviewDto.DecodeReviewParams);
      g.Ok? && ReviewRepository.FindUserReview(old(db.State()), g.value.id, g.value.user.id).None? ==>
        && Pipeline.Rejected(req, res, UserService.ReviewNotFound)
        && db.State() == old(db.State()) && cache.entries == old(cache.entries)
    ensures var g := AddressedBy(req.authorization, env.verify, req.translate, old(req.params).json, ReviewDto.DecodeReviewParams);
      g.Ok? && ReviewRepository.FindUserReview(old(db.State()), g.value.id, g.value.user.id).Some? ==>
        && res.Answered(204, Http.NoBody)
        && db.State() == old(db.State()).(reviews := Seqs.Filter(old(db.reviews), ReviewRepository.IdIsNot(g.value.id)))
        && (!env.flushFault ==> cache.entries == map[])
  {
    var g := PassAddressedGates(cache, req, res, env, ReviewDto.DecodeReviewParams);
    if g.Ok? {
      RemoveReview(db, cache, req, res, env, g.value);
    }
  }

  /** The handler of DELETE /me/reviews/:review_id. */
  method RemoveReview(
    db: Database, cache: Cache.ResponseCache, req: Http.Request, res: Http.Reply, env: Pipeline.Env, g: Addressed)
    modifies db, res, cache
    requires res.Untouched() && Valid(db.State())
    requires req.user == Some(g.user) && req.params == Http.IdValue(g.id)
    ensures Valid(db.State())
    ensures ReviewRepository.FindUserReview(old(db.State()), g.id, g.user.id).None? ==>
      && Pipeline.Rejected(req, res, UserService.ReviewNotFound)
      && db.State() == old(db.State()) && cache.entries == old(cache.entries)
    ensures ReviewRepository.FindUserReview(old(db.State()), g.id, g.user.id).Some? ==>
      && res.Answered(204, Http.NoBody)
      && db.State() == old(db.State()).(reviews := Seqs.Filter(old(db.reviews), ReviewRepository.IdIsNot(g.id)))
      && (!env.flushFault ==> cache.entries == map[])
  {
    var deleted := UserService.DeleteUserReview(db, req.params.id, req.user.value.id);
    if deleted.Err? {
      Pipeline.Reject(req, res, cache, deleted.error, env);
      return;
    }
    Pipeline.FlushAndSend(res, cache, 204, env);
  }

  /** POST /me/favorites/:restaurant_id. An unknown restaurant is a 404, a
      pair already saved (before the call or by `rival`, a concurrent
      request that won the insert) a 409; a save is answered 201 with the
      restaurant id. `storageFault` is any other error of the insert. */
  method SaveFavorite(
    db: Database, cache: Cache.ResponseCache, req: Http.Request, res: Http.Reply, env: Pipeline.Env,
    rival: bool, storageFault: bool)
    modifies db, req, res, cache
    requires req.verb == Http.Post && req.Incoming() && res.Untouched()
    requires Valid(db.State())
    ensures Valid(db.State())
    ensures var g := AddressedBy(req.authorization, env.verify, req.translate, old(req.params).json, RestaurantDto.DecodeRestaurantParams);
      g.Err? ==>
        Pipeline.Rejected(req, res, g.error) && db.State() == old(db.State()) && cache.entries == old(cache.entries)
    ensures var g := AddressedBy(req.authorization, env.verify, req.translate, old(req.params).json, RestaurantDto.DecodeRestaurantParams);
      g.Ok? && !RestaurantRepository.RestaurantExists(old(db.State()), g.value.id) ==>
        && Pipeline.Rejected(req, res, UserService.RestaurantNotFound)
        && db.State() == old(db.State()) && cache.entries == old(cache.entries)
    ensures var g := AddressedBy(req.authorization, env.verify, req.translate, old(req.params).json, RestaurantDto.DecodeRestaurantParams);
      (&& g.Ok? && RestaurantRepository.RestaurantExists(old(db.State()), g.value.id)
       && (FavoriteRepository.FavoriteExists(old(db.State()), g.value.user.id, g.value.id) || rival)) ==>
        Pipeline.Rejected(req, res, UserService.AlreadyFavorite) && cache.entries == old(cache.entries)
    ensures var g := AddressedBy(req.authorization, env.verify, req.translate, old(req.params).json, RestaurantDto.DecodeRestaurantParams);
      (&& g.Ok? && RestaurantRepository.RestaurantExists(old(db.State()), g.value.id)
       && !FavoriteRepository.FavoriteExists(old(db.State()), g.value.user.id, g.value.id) && rival) ==>
        db.State() == old(db.State()).(favorites := old(db.favorites) + [FavoriteRow(g.value.user.id, g.value.id)])
    ensures var g := AddressedBy(req.authorization, env.verify, req.translate, old(req.params).json, RestaurantDto.DecodeRestaurantParams);
      (&& g.Ok? && RestaurantRepository.RestaurantExists(old(db.State()), g.value.id)
       && !FavoriteRepository.FavoriteExists(old(db.State()), g.value.user.id, g.value.id) && !rival) ==>
        && (storageFault ==>
              && Pipeline.Rejected(req, res, OtherFailure)
              && db.State() == old(db.State()) && cache.entries == old(cache.entries))
        && (!storageFault ==>
              && res.Answered(201, Http.RestaurantIdBody(g.value.id))
              && db.State() == old(db.State()).(favorites := old(db.favorites) + [FavoriteRow(g.value.user.id, g.value.id)])
              && (!env.flushFault ==> cache.entries == map[]))
  {
    var g := PassAddressedGates(cache, req, res, env, RestaurantDto.DecodeRestaurantParams);
    if g.Ok? {
      StoreFavorite(db, cache, req, res, env, g.value, rival, storageFault);
    }
  }

  /** The handler of POST /me/favorites/:restaurant_id. */
  method StoreFavorite(
    db: Database, cache: Cache.ResponseCache, req: Http.Request, res: Http.Reply, env: Pipeline.Env, g: Addressed,
    rival: bool, storageFault: bool)
    modifies db, res, cache
    requires res.Untouched() && Valid(db.State())
    requires req.user == Some(g.user) && req.params == Http.IdValue(g.id)
    ensures Valid(db.State())
    ensures !RestaurantRepository.RestaurantExists(old(db.State()), g.id) ==>
      && Pipeline.Rejected(req, res, UserService.RestaurantNotFound)
      && db.State() == old(db.State()) && cache.entries == old(cache.entries)
    ensures (&& RestaurantRepository.RestaurantExists(old(db.State()), g.id)
             && (FavoriteRepository.FavoriteExists(old(db.State()), g.user.id, g.id) || rival)) ==>
      Pipeline.Rejected(req, res, UserService.AlreadyFavorite) && cache.entries == old(cache.entries)
    ensures (&& RestaurantRepository.RestaurantExists(old(db.State()), g.id)
             && !FavoriteRepository.FavoriteExists(old(db.State()), g.user.id, g.id) && rival) ==>
      db.State() == old(db.State()).(favorites := old(db.favorites) + [FavoriteRow(g.user.id, g.id)])
    ensures (&& RestaurantRepository.RestaurantExists(old(db.State()), g.id)
             && !FavoriteRepository.FavoriteExists(old(db.State()), g.user.id, g.id) && !rival) ==>
      && (storageFault ==>
            && Pipeline.Rejected(req, res, OtherFailure)
            && db.State() == old(db.State()) && cache.entries == old(cache.entries))
      && (!storageFault ==>
            && res.Answered(201, Http.RestaurantIdBody(g.id))
            && db.State() == old(db.State()).(favorites := old(db.favorites) + [FavoriteRow(g.user.id, g.id)])
            && (!env.flushFault ==> cache.entries == map[]))
  {
    var saved := UserService.AddFavorite(db, req.user.value.id, req.params.id, rival, storageFault);
    if saved.Err? {
      Pipeline.Reject(req, res, cache, saved.error, env);
      return;
    }
    Pipeline.FlushAndRespond(res, cache, 201, Http.RestaurantIdBody(saved.value), env);
  }

  /** DELETE /me/favorites/:restaurant_id: answered 204 whether or not the
      pair was saved; afterwards it is not. */
  method DropFavorite(db: Database, cache: Cache.ResponseCache, req: Http.Request, res: Http.Reply, env: Pipeline.Env)
    modifies db, req, res, cache
    requires req.verb == Http.Delete && req.Incoming() && res.Untouched()
    requires Valid(db.State())
    ensures Valid(db.State())
    ensures var g := AddressedBy(req.authorization, env.verify, req.translate, old(req.params).json, RestaurantDto.DecodeRestaurantParams);
      g.Err? ==>
        Pipeline.Rejected(req, res, g.error) && db.State() == old(db.State()) && cache.entries == old(cache.entries)
    ensures var g := AddressedBy(req.authorization, env.verify, req.translate, old(req.params).json, RestaurantDto.DecodeRestaurantParams);
      g.Ok? ==>
        && res.Answered(204, Http.NoBody)
        && db.State() == old(db.State()).(favorites :=
             Seqs.Filter(old(db.favorites), FavoriteRepository.IsNot(FavoriteRow(g.value.user.id, g.value.id))))
        && !FavoriteRepository.FavoriteExists(db.State(), g.value.user.id, g.value.id)
        && (!env.flushFault ==> cache.entries == map[])
  {
    var g := PassAddressedGates(cache, req, res, env, RestaurantDto.DecodeRestaurantParams);
    if g.Ok? {
      var _ := UserService.RemoveFavorite(db, req.user.value.id, req.params.id);
      Pipeline.FlushAndSend(res, cache, 204, env);
    }
  }
}
