/** A client of the worker: install a two-entry manifest, fetch a progress
    URL while online, then fetch it again while offline. What it asserts
    follows from the handlers' contracts alone. */
module Scenario {
  import opened Text
  import opened Http
  import opened Routing
  import opened CacheState
  import opened Worker

  method OnlineThenOffline()
  {
    var worker := new ServiceWorker(map[]);
    var saved := Response(200, "{\"ok\":true}");
    var page := Response(200, "<html></html>");

    var sent := worker.Install(["/", "/index.html"], u => Received(page));
    InstallTwoEntries(u => Received(page));
    assert |worker.caches[CacheVersion]| == 2;

    var req := Request(Get, "https://host/api/progress", "/api/progress");
    assert Contains(req.pathname, ProgressSegment) by {
      assert req.pathname[0..] == ProgressSegment;
      ContainsAt(req.pathname, ProgressSegment, 0);
    }
    ProgressRequestsAreNetworkFirst(req);

    var reply;
    reply, sent := worker.HandleFetch(req, u => Received(saved));
    assert reply == Some(saved);
    assert StoredIn(worker.caches, req.url, saved);

    ghost var before := worker.caches;
    reply, sent := worker.HandleFetch(req, u => TransportError);
    assert worker.caches.Keys == {CacheVersion};
    SingleMatch(before, req.url, reply.value, saved);
    assert reply == Some(saved);
  }
}
