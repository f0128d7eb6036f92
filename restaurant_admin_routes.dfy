/** The restaurant administration routes, mounted at /admin/restaurants:
    each needs a bearer token of role ADMIN, and each change it makes
    flushes the response cache before the reply goes out. */
module RestaurantAdminRoutes {
  import opened Wrappers
  import opened Json
  import opened Tables
  import opened AppErrors
  import Http
  import Cache
  import Pipeline
  import AuthMiddleware
  import RestaurantDto
  import RestaurantRepository
  import RestaurantAdminService

  /** authMiddleware, roleMiddleware(["ADMIN"]) and
      validateBody(CreateRestaurantDTO), in that order: who may create is
      decided before what is created is looked at. */
  function CreateGates(
    authorization: Option<string>, verify: string -> Result<Http.Principal, AuthMiddleware.TokenError>,
    t: string -> string, body: Json)
    : (r: Result<RestaurantDto.RestaurantInput, Failure>)
    ensures AuthMiddleware.Admission(authorization, verify, Pipeline.Admins, t).Err? ==>
      r == Err(AuthMiddleware.Admission(authorization, verify, Pipeline.Admins, t).error)
    ensures AuthMiddleware.Admission(authorization, verify, Pipeline.Admins, t).Ok? ==>
      r == Pipeline.Zodded(RestaurantDto.DecodeRestaurantBody(body, false))
    ensures r.Ok? ==> r.value.name.Some?
  {
    var admin :- AuthMiddleware.Admission(authorization, verify, Pipeline.Admins, t);
    Pipeline.Zodded(RestaurantDto.DecodeRestaurantBody(body, false))
  }

  /** POST /admin/restaurants. A created restaurant is answered 201 with
      its id, the id the table hands out next; a refused gate or a failed
      statement leaves the tables and the cache as they were. `fault` is
      the insert statement that throws, if any. */
  method CreateRestaurant(
    db: Database, cache: Cache.ResponseCache, req: Http.Request, res: Http.Reply, env: Pipeline.Env,
    fault: Option<nat>)
    modifies db, req, res, cache
    requires req.verb == Http.Post && req.Incoming() && res.Untouched()
    requires Valid(db.State())
    ensures Valid(db.State())
    ensures var g := CreateGates(req.authorization, env.verify, req.translate, old(req.body).json);
      g.Err? ==>
        Pipeline.Rejected(req, res, g.error) && db.State() == old(db.State()) && cache.entries == old(cache.entries)
    ensures var g := CreateGates(req.authorization, env.verify, req.translate, old(req.body).json);
      g.Ok? && RestaurantAdminService.FaultAmong(fault, 0, 1 + |RestaurantAdminService.HoursToInsert(g.value.hours)|) ==>
        && Pipeline.Rejected(req, res, OtherFailure)
        && db.State() == old(db.State()) && cache.entries == old(cache.entries)
    ensures var g := CreateGates(req.authorization, env.verify, req.translate, old(req.body).json);
      g.Ok? && !RestaurantAdminService.FaultAmong(fault, 0, 1 + |RestaurantAdminService.HoursToInsert(g.value.hours)|) ==>
        && res.Answered(201, Http.IdBody(old(db.nextRestaurantId)))
        && db.State() == RestaurantAdminService.Created(old(db.State()), g.value)
        && (!env.flushFault ==> cache.entries == map[])
  {
    var g := PassCreateGates(cache, req, res, env);
    if g.Ok? {
      StoreRestaurant(db, cache, req, res, env, g.value, fault);
    }
  }

  /** The middlewares of POST /admin/restaurants. */
  method PassCreateGates(cache: Cache.ResponseCache, req: Http.Request, res: Http.Reply, env: Pipeline.Env)
    returns (g: Result<RestaurantDto.RestaurantInput, Failure>)
    modifies req, res, cache
    requires req.Incoming() && res.Untouched()
    ensures g == CreateGates(req.authorization, env.verify, req.translate, old(req.body).json)
    ensures g.Err? ==> Pipeline.Rejected(req, res, g.error)
    ensures g.Ok? ==> res.Untouched() && req.body == Http.RestaurantValue(g.value)
    ensures cache.entries == old(cache.entries)
  {
    var admin := Pipeline.Admit(req, res, cache, env, Pipeline.Admins);
    if admin.Err? {
      return Err(admin.error);
    }
    g := Pipeline.Check(req, res, cache, env, Http.BodyTarget,
      b => RestaurantDto.DecodeRestaurantBody(b, false), x => Http.RestaurantValue(x));
  }

  /** The handler of POST /admin/restaurants. */
  method StoreRestaurant(
    db: Database, cache: Cache.ResponseCache, req: Http.Request, res: Http.Reply, env: Pipeline.Env,
    data: RestaurantDto.RestaurantInput, fault: Option<nat>)
    modifies db, res, cache
    requires res.Untouched() && Valid(db.State())
    requires data.name.Some? && req.body == Http.RestaurantValue(data)
    ensures Valid(db.State())
    ensures RestaurantAdminService.FaultAmong(fault, 0, 1 + |RestaurantAdminService.HoursToInsert(data.hours)|) ==>
      && Pipeline.Rejected(req, res, OtherFailure)
      && db.State() == old(db.State()) && cache.entries == old(cache.entries)
    ensures !RestaurantAdminService.FaultAmong(fault, 0, 1 + |RestaurantAdminService.HoursToInsert(data.hours)|) ==>
      && res.Answered(201, Http.IdBody(old(db.nextRestaurantId)))
      && db.State() == RestaurantAdminService.Created(old(db.State()), data)
      && (!env.flushFault ==> cache.entries == map[])
  {
    var created := RestaurantAdminService.CreateRestaurant(db, req.body.restaurant, fault);
    if created.Err? {
      Pipeline.Reject(req, res, cache, created.error, env);
      return;
    }
    Pipeline.FlushAndRespond(res, cache, 201, Http.IdBody(created.value), env);
  }

  /** What PUT /admin/restaurants/:restaurant_id has once its middlewares
      have passed. */
  datatype Edit = Edit(id: int, input: RestaurantDto.RestaurantInput)

  /** authMiddleware, roleMiddleware(["ADMIN"]), validateParams and
      validateBody(UpdateRestaurantDTO), in that order. */
  function UpdateGates(
    authorization: Option<string>, verify: string -> Result<Http.Principal, AuthMiddleware.TokenError>,
    t: string -> string, params: Json, body: Json)
    : (r: Result<Edit, Failure>)
    ensures AuthMiddleware.Admission(authorization, verify, Pipeline.Admins, t).Err? ==>
      r == Err(AuthMiddleware.Admission(authorization, verify, Pipeline.Admins, t).error)
    ensures AuthMiddleware.Admission(authorization, verify, Pipeline.Admins, t).Ok? && RestaurantDto.DecodeRestaurantParams(params).Err? ==>
      r == Err(ZodFailure(RestaurantDto.DecodeRestaurantParams(params).error))
    ensures r.Ok? <==>
      (&& AuthMiddleware.Admission(authorization, verify, Pipeline.Admins, t).Ok?
       && RestaurantDto.DecodeRestaurantParams(params).Ok?
       && RestaurantDto.DecodeRestaurantBody(body, true).Ok?)
    ensures r.Ok? ==>
      && r.value.id == RestaurantDto.DecodeRestaurantParams(params).value
      && r.value.input == RestaurantDto.DecodeRestaurantBody(body, true).value
  {
    var admin :- AuthMiddleware.Admission(authorization, verify, Pipeline.Admins, t);
    var id :- Pipeline.Zodded(RestaurantDto.DecodeRestaurantParams(params));
    var input :- Pipeline.Zodded(RestaurantDto.DecodeRestaurantBody(body, true));
    Ok(Edit(id, input))
  }

  /** PUT /admin/restaurants/:restaurant_id. An unknown id is a 404; an
      update is answered 200 with the id; a refused gate or a failed
      statement leaves the tables and the cache as they were. */
  method UpdateRestaurant(
    db: Database, cache: Cache.ResponseCache, req: Http.Request, res: Http.Reply, env: Pipeline.Env,
    fault: Option<nat>)
    modifies db, req, res, cache
    requires req.verb == Http.Put && req.Incoming() && res.Untouched()
    requires Valid(db.State())
    ensures Valid(db.State())
    ensures var g := UpdateGates(req.authorization, env.verify, req.translate, old(req.params).json, old(req.body).json);
      g.Err? ==>
        Pipeline.Rejected(req, res, g.error) && db.State() == old(db.State()) && cache.entries == old(cache.entries)
    ensures var g := UpdateGates(req.authorization, env.verify, req.translate, old(req.params).json, old(req.body).json);
      g.Ok? && !RestaurantRepository.RestaurantExists(old(db.State()), g.value.id) ==>
        && Pipeline.Rejected(req, res, RestaurantAdminService.RestaurantNotFound)
        && db.State() == old(db.State()) && cache.entries == old(cache.entries)
    ensures var g := UpdateGates(req.authorization, env.verify, req.translate, old(req.params).json, old(req.body).json);
      (&& g.Ok? && RestaurantRepository.RestaurantExists(old(db.State()), g.value.id)
       && RestaurantAdminService.FaultAmong(fault, 0, 2 + |RestaurantAdminService.HoursToInsert(g.value.input.hours)|)) ==>
        && Pipeline.Rejected(req, res, OtherFailure)
        && db.State() == old(db.State()) && cache.entries == old(cache.entries)
    ensures var g := UpdateGates(req.authorization, env.verify, req.translate, old(req.params).json, old(req.body).json);
      (&& g.Ok? && RestaurantRepository.RestaurantExists(old(db.State()), g.value.id)
       && !RestaurantAdminService.FaultAmong(fault, 0, 2 + |RestaurantAdminService.HoursToInsert(g.value.input.hours)|)) ==>
        && res.Answered(200, Http.IdBody(g.value.id))
        && db.State() == RestaurantAdminService.Updated(old(db.State()), g.value.id, g.value.input)
        && (!env.flushFault ==> cache.entries == map[])
  {
    var g := PassUpdateGates(cache, req, res, env);
    if g.Ok? {
      StoreUpdate(db, cache, req, res, env, g.value, fault);
    }
  }

  /** The middlewares of PUT /admin/restaurants/:restaurant_id. */
  method PassUpdateGates(cache: Cache.ResponseCache, req: Http.Request, res: Http.Reply, env: Pipeline.Env)
    returns (g: Result<Edit, Failure>)
    modifies req, res, cache
    requires req.Incoming() && res.Untouched()
    ensures g == UpdateGates(req.authorization, env.verify, req.translate, old(req.params).json, old(req.body).json)
    ensures g.Err? ==> Pipeline.Rejected(req, res, g.error)
    ensures g.Ok? ==>
      && res.Untouched()
      && req.params == Http.IdValue(g.value.id) && req.body == Http.RestaurantValue(g.value.input)
    ensures cache.entries == old(cache.entries)
  {
    var admin := Pipeline.Admit(req, res, cache, env, Pipeline.Admins);
    if admin.Err? {
      return Err(admin.error);
    }
    var p := Pipeline.Check(req, res, cache, env, Http.ParamsTarget,
      RestaurantDto.DecodeRestaurantParams, x => Http.IdValue(x));
    if p.Err? {
      return Err(p.error);
    }
    var b := Pipeline.Check(req, res, cache, env, Http.BodyTarget,
      x => RestaurantDto.DecodeRestaurantBody(x, true), x => Http.RestaurantValue(x));
    if b.Err? {
      return Err(b.error);
    }
    g := Ok(Edit(p.value, b.value));
  }

  /** The handler of PUT /admin/restaurants/:restaurant_id. */
  method StoreUpdate(
    db: Database, cache: Cache.ResponseCache, req: Http.Request, res: Http.Reply, env: Pipeline.Env,
    g: Edit, fault: Option<nat>)
    modifies db, res, cache
    requires res.Untouched() && Valid(db.State())
    requires req.params == Http.IdValue(g.id) && req.body == Http.RestaurantValue(g.input)
    ensures Valid(db.State())
    ensures !RestaurantRepository.RestaurantExists(old(db.State()), g.id) ==>
      && Pipeline.Rejected(req, res, RestaurantAdminService.RestaurantNotFound)
      && db.State() == old(db.State()) && cache.entries == old(cache.entries)
    ensures (&& RestaurantRepository.RestaurantExists(old(db.State()), g.id)
             && RestaurantAdminService.FaultAmong(fault, 0, 2 + |RestaurantAdminService.HoursToInsert(g.input.hours)|)) ==>
      && Pipeline.Rejected(req, res, OtherFailure)
      && db.State() == old(db.State()) && cache.entries == old(cache.entries)
    ensures (&& RestaurantRepository.RestaurantExists(old(db.State()), g.id)
             && !RestaurantAdminService.FaultAmong(fault, 0, 2 + |RestaurantAdminService.HoursToInsert(g.input.hours)|)) ==>
      && res.Answered(200, Http.IdBody(g.id))
      && db.State() == RestaurantAdminService.Updated(old(db.State()), g.id, g.input)
      && (!env.flushFault ==> cache.entries == map[])
  {
    var updated := RestaurantAdminService.UpdateRestaurant(db, req.params.id, req.body.restaurant, fault);
    if updated.Err? {
      Pipeline.Reject(req, res, cache, updated.error, env);
      return;
    }
    Pipeline.FlushAndRespond(res, cache, 200, Http.IdBody(updated.value), env);
  }

  /** authMiddleware, roleMiddleware(["ADMIN"]) and validateParams, in that
      order. */
  function DeleteGates(
    authorization: Option<string>, verify: string -> Result<Http.Principal, AuthMiddleware.TokenError>,
    t: string -> string, params: Json)
    : (r: Result<int, Failure>)
    ensures AuthMiddleware.Admission(authorization, verify, Pipeline.Admins, t).Err? ==>
      r == Err(AuthMiddleware.Admission(authorization, verify, Pipeline.Admins, t).error)
    ensures AuthMiddleware.Admission(authorization, verify, Pipeline.Admins, t).Ok? ==>
      r == Pipeline.Zodded(RestaurantDto.DecodeRestaurantParams(params))
    ensures r.Ok? ==> r.value >= 1
  {
    var admin :- AuthMiddleware.Admission(authorization, verify, Pipeline.Admins, t);
    Pipeline.Zodded(RestaurantDto.DecodeRestaurantParams(params))
  }

  /** DELETE /admin/restaurants/:restaurant_id. A deletion is answered 204
      with no body; an unknown id is a 404; a refused gate or a failed
      statement leaves the tables and the cache as they were. */
  method DeleteRestaurant(
    db: Database, cache: Cache.ResponseCache, req: Http.Request, res: Http.Reply, env: Pipeline.Env,
    fault: Option<nat>)
    modifies db, req, res, cache
    requires req.verb == Http.Delete && req.Incoming() && res.Untouched()
    requires Valid(db.State())
    ensures Valid(db.State())
    ensures var g := DeleteGates(req.authorization, env.verify, req.translate, old(req.params).json);
      g.Err? ==>
        Pipeline.Rejected(req, res, g.error) && db.State() == old(db.State()) && cache.entries == old(cache.entries)
    ensures var g := DeleteGates(req.authorization, env.verify, req.translate, old(req.params).json);
      g.Ok? && !RestaurantRepository.RestaurantExists(old(db.State()), g.value) ==>
        && Pipeline.Rejected(req, res, RestaurantAdminService.RestaurantNotFound)
        && db.State() == old(db.State()) && cache.entries == old(cache.entries)
    ensures var g := DeleteGates(req.authorization, env.verify, req.translate, old(req.params).json);
      (&& g.Ok? && RestaurantRepository.RestaurantExists(old(db.State()), g.value)
       && RestaurantAdminService.FaultAmong(fault, 0, 4)) ==>
        && Pipeline.Rejected(req, res, OtherFailure)
        && db.State() == old(db.State()) && cache.entries == old(cache.entries)
    ensures var g := DeleteGates(req.authorization, env.verify, req.translate, old(req.params).json);
      (&& g.Ok? && RestaurantRepository.RestaurantExists(old(db.State()), g.value)
       && !RestaurantAdminService.FaultAmong(fault, 0, 4)) ==>
        && res.Answered(204, Http.NoBody)
        && db.State() == RestaurantAdminService.Deleted(old(db.State()), g.value)
        && (!env.flushFault ==> cache.entries == map[])
  {
    var g := PassDeleteGates(cache, req, res, env);
    if g.Ok? {
      Remove(db, cache, req, res, env, g.value, fault);
    }
  }

  /** The middlewares of DELETE /admin/restaurants/:restaurant_id. */
  method PassDeleteGates(cache: Cache.ResponseCache, req: Http.Request, res: Http.Reply, env: Pipeline.Env)
    returns (g: Result<int, Failure>)
    modifies req, res, cache
    requires req.Incoming() && res.Untouched()
    ensures g == DeleteGates(req.authorization, env.verify, req.translate, old(req.params).json)
    ensures g.Err? ==> Pipeline.Rejected(req, res, g.error)
    ensures g.Ok? ==> res.Untouched() && req.params == Http.IdValue(g.value)
    ensures cache.entries == old(cache.entries)
  {
    var admin := Pipeline.Admit(req, res, cache, env, Pipeline.Admins);
    if admin.Err? {
      return Err(admin.error);
    }
    g := Pipeline.Check(req, res, cache, env, Http.ParamsTarget,
      RestaurantDto.DecodeRestaurantParams, x => Http.IdValue(x));
  }

  /** The handler of DELETE /admin/restaurants/:restaurant_id: the service's
      result is not sent, only the status. */
  method Remove(
    db: Database, cache: Cache.ResponseCache, req: Http.Request, res: Http.Reply, env: Pipeline.Env,
    id: int, fault: Option<nat>)
    modifies db, res, cache
    requires res.Untouched() && Valid(db.State()) && req.params == Http.IdValue(id)
    ensures Valid(db.State())
    ensures !RestaurantRepository.RestaurantExists(old(db.State()), id) ==>
      && Pipeline.Rejected(req, res, RestaurantAdminService.RestaurantNotFound)
      && db.State() == old(db.State()) && cache.entries == old(cache.entries)
    ensures RestaurantRepository.RestaurantExists(old(db.State()), id) && RestaurantAdminService.FaultAmong(fault, 0, 4) ==>
      && Pipeline.Rejected(req, res, OtherFailure)
      && db.State() == old(db.State()) && cache.entries == old(cache.entries)
    ensures RestaurantRepository.RestaurantExists(old(db.State()), id) && !RestaurantAdminService.FaultAmong(fault, 0, 4) ==>
      && res.Answered(204, Http.NoBody)
      && db.State() == RestaurantAdminService.Deleted(old(db.State()), id)
      && (!env.flushFault ==> cache.entries == map[])
  {
    var deleted := RestaurantAdminService.DeleteRestaurant(db, req.params.id, fault);
    if deleted.Err? {
      Pipeline.Reject(req, res, cache, deleted.error, env);
      return;
    }
    Pipeline.FlushAndSend(res, cache, 204, env);
  }
}
