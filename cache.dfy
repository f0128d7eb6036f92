/** The process-wide response cache: a map from the raw request URL to the
    body last sent for it, each entry living 30 seconds. The middleware
    replays a live entry, or installs a `res.json` wrapper that stores
    whatever body the request ends up sending, error envelopes included.
    The clock is a parameter, in milliseconds. */
module Cache {
  import opened Wrappers
  import opened AppErrors
  import Http

  /** `stdTTL: 30`, in milliseconds. */
  const TtlMillis: int := 30000

  const CacheError := Raise("CACHE_MIDDLEWARE_ERROR", 500, "CACHE_MIDDLEWARE_ERROR")

  datatype Entry = Entry(body: Http.Body, expiresAt: int)

  /** `cache.get(key)`: the stored body while its entry has not expired. */
  function Find(entries: map<string, Entry>, key: string, now: int): (hit: Option<Http.Body>)
    ensures hit.Some? ==> key in entries && hit.value == entries[key].body
  {
    if key in entries && now <= entries[key].expiresAt then Some(entries[key].body) else None
  }

  /** The cache after `res.json(body)`: the wrapper, when installed, stores
      the body under its key unless the write throws. */
  function AfterJson(entries: map<string, Entry>, storeUnder: Option<string>, body: Http.Body, now: int, writeFault: bool)
    : (after: map<string, Entry>)
    ensures storeUnder.None? || writeFault ==> after == entries
    ensures storeUnder.Some? && !writeFault ==>
      forall later :: now <= later <= now + TtlMillis ==> Find(after, storeUnder.value, later) == Some(body)
  {
    if storeUnder.Some? && !writeFault then entries[storeUnder.value := Entry(body, now + TtlMillis)] else entries
  }

  /** A stored body is replayed for 30 seconds and then no more. */
  lemma StoredBodyExpires(entries: map<string, Entry>, key: string, body: Http.Body, now: int, later: int)
    ensures var after := AfterJson(entries, Some(key), body, now, false);
      (&& (later <= now + TtlMillis ==> Find(after, key, later) == Some(body))
       && (later > now + TtlMillis ==> Find(after, key, later).None?))
  {
  }

  /** The key is the URL verbatim: storing under one URL leaves every other
      URL, such as the same path with a query string, as it was. */
  lemma OtherKeysUnaffected(entries: map<string, Entry>, key: string, other: string, body: Http.Body, now: int, later: int, writeFault: bool)
    requires other != key
    ensures Find(AfterJson(entries, Some(key), body, now, writeFault), other, later) == Find(entries, other, later)
  {
  }

  /** What the middleware decided. */
  datatype Flow = Next | Halt | Fail(failure: Failure)

  class ResponseCache {
    var entries: map<string, Entry>

    constructor ()
      ensures entries == map[]
    {
      entries := map[];
    }

    /** `cache.set(key, body)` with the default TTL; `fault` is a throwing
        set, which stores nothing. */
    method Set(key: string, body: Http.Body, now: int, fault: bool)
      modifies this
      ensures entries == AfterJson(old(entries), Some(key), body, now, fault)
    {
      if !fault {
        entries := entries[key := Entry(body, now + TtlMillis)];
      }
    }

    /** invalidateCache: `flushAll()`, whose error is logged and swallowed.
        After a flush that did not throw, every key misses. */
    method Invalidate(fault: bool)
      modifies this
      ensures !fault ==> entries == map[]
      ensures !fault ==> forall key, now :: Find(entries, key, now).None?
    {
      if !fault {
        entries := map[];
      }
    }
  }

  /** `res.json(body)`: through the storing wrapper when the cache
      middleware installed one, then the original send. A write error is
      swallowed and the reply still goes out. */
  method SendJson(res: Http.Reply, cache: ResponseCache, body: Http.Body, now: int, writeFault: bool)
    modifies res, cache
    ensures res.Answered(old(res.status), body) && res.storeUnder == old(res.storeUnder)
    ensures cache.entries == AfterJson(old(cache.entries), old(res.storeUnder), body, now, writeFault)
  {
    if res.storeUnder.Some? {
      cache.Set(res.storeUnder.value, body, now, writeFault);
    }
    res.body := body;
    res.sent := true;
  }

  /** cacheMiddleware. A request other than GET passes straight on. For a
      GET, a live entry under `originalUrl` is sent as it is, with whatever
      status the reply has (Express's 200), and the chain stops; otherwise
      the storing wrapper is installed and the chain goes on. `getFault` is
      an exception inside the middleware, answered with 500
      CACHE_MIDDLEWARE_ERROR. The cache itself is not changed here. */
  method CacheMiddleware(cache: ResponseCache, req: Http.Request, res: Http.Reply, now: int, getFault: bool)
    returns (flow: Flow)
    modifies res
    requires !res.sent
    ensures req.verb != Http.Get ==> flow == Next && unchanged(res)
    ensures req.verb == Http.Get && getFault ==> flow == Fail(CacheError) && unchanged(res)
    ensures req.verb == Http.Get && !getFault && Find(cache.entries, req.originalUrl, now).Some? ==>
      && flow == Halt
      && res.Answered(old(res.status), Find(cache.entries, req.originalUrl, now).value)
      && res.storeUnder == old(res.storeUnder)
    ensures req.verb == Http.Get && !getFault && Find(cache.entries, req.originalUrl, now).None? ==>
      && flow == Next
      && res.storeUnder == Some(req.originalUrl)
      && res.status == old(res.status) && res.body == old(res.body) && !res.sent
  {
    if req.verb != Http.Get {
      return Next;
    }
    if getFault {
      return Fail(CacheError);
    }
    var key := req.originalUrl;
    var hit := Find(cache.entries, key, now);
    if hit.Some? {
      res.body := hit.value;
      res.sent := true;
      return Halt;
    }
    res.storeUnder := Some(key);
    flow := Next;
  }
}
