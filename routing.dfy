/** The fetch handler's choice of strategy for an intercepted request. */
module Routing {
  import opened Text
  import opened Http

  /** `Bypass`: the handler returns without responding, so the browser
      performs the request itself. */
  datatype Route = Bypass | NetworkFirst | CacheFirst

  /** Non-GET requests are bypassed; a GET whose pathname holds `/api/`
      anywhere goes network-first; every other GET goes cache-first. */
  function Classify(req: Request): (route: Route)
    ensures route == Bypass <==> req.verb != Get
    ensures route == NetworkFirst <==> req.verb == Get && Contains(req.pathname, ApiSegment)
    ensures route == CacheFirst <==> req.verb == Get && !Contains(req.pathname, ApiSegment)
  {
    if req.verb != Get then Bypass
    else if Contains(req.pathname, ApiSegment) then NetworkFirst
    else CacheFirst
  }

  /** The API segment is matched anywhere in the pathname, not only as a
      prefix: an app under `/app/` still routes its API network-first. */
  lemma ApiSegmentAnywhere()
    ensures Classify(Request(Get, "https://host/app/api/items", "/app/api/items")) == NetworkFirst
    ensures Classify(Request(Get, "https://host/api", "/api")) == CacheFirst
  {
    var p := "/app/api/items";
    assert p[4..][..5] == ApiSegment;
    ContainsAt(p, ApiSegment, 4);
  }

  /** A GET whose pathname holds `/api/progress` is served network-first,
      which is the path that files its successful responses under
      `CACHE_VERSION`: the cache the progress sync later scans. */
  lemma ProgressRequestsAreNetworkFirst(req: Request)
    requires req.verb == Get && Contains(req.pathname, ProgressSegment)
    ensures Classify(req) == NetworkFirst
  {
    assert ProgressSegment == ApiSegment + "progress";
    ContainsPrefixOfPart(req.pathname, ApiSegment, "progress");
  }
}
