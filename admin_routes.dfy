/** The dashboard route, mounted at /admin. */
module AdminRoutes {
  import opened Wrappers
  import opened Tables
  import Http
  import Cache
  import Pipeline
  import AuthMiddleware
  import AdminService

  /** GET /admin/stats: authMiddleware and roleMiddleware(["ADMIN"]), then
      the statistics with 200. A missing or bad token is a 401, a USER's
      token a 403; a failing query is the service's 500 ADMIN_STATS_ERROR.
      `storageFault` is that failing query. */
  method GetStats(
    db: Database, cache: Cache.ResponseCache, req: Http.Request, res: Http.Reply, env: Pipeline.Env, storageFault: bool)
    modifies req, res, cache
    requires req.verb == Http.Get && req.Incoming() && res.Untouched()
    ensures var a := AuthMiddleware.Admission(req.authorization, env.verify, Pipeline.Admins, req.translate);
      (&& (a.Err? ==> Pipeline.Rejected(req, res, a.error))
       && (a.Ok? ==> Pipeline.Delivered(req, res,
             Pipeline.Served(AdminService.GetAdminStats(db.State(), storageFault), s => Http.StatsBody(s)), 200)))
    ensures cache.entries == old(cache.entries)
  {
    var admin := Pipeline.Admit(req, res, cache, env, Pipeline.Admins);
    if admin.Err? {
      return;
    }
    var stats := AdminService.GetAdminStats(db.State(), storageFault);
    Pipeline.Deliver(req, res, cache, Pipeline.Served(stats, s => Http.StatsBody(s)), 200, env);
  }
}
