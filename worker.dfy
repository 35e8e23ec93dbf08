/** The worker's event handlers, acting in place on the origin's Cache
    Storage. The network is an oracle passed to each handler that uses it;
    those handlers also return the URLs they sent to it, in order. */
module Worker {
  import opened Text
  import opened Http
  import opened Routing
  import opened CacheState
  import Enumerate

  class ServiceWorker {
    /** The global `caches`: every named cache of the origin. */
    var caches: Stores

    constructor (initial: Stores)
      ensures caches == initial
    {
      caches := initial;
    }

    /** `caches.match(url)`: a response stored under `url` in some cache,
        or nothing when no cache holds the URL. */
    method Match(url: Url) returns (cached: Option<Response>)
      ensures cached.None? <==> !HasMatch(caches, url)
      ensures cached.Some? ==> StoredIn(caches, url, cached.value)
    {
      var names := Enumerate.Elements(caches.Keys);
      for i := 0 to |names|
        invariant forall j :: 0 <= j < i ==> url !in caches[names[j]]
      {
        if url in caches[names[i]] {
          return Some(caches[names[i]][url]);
        }
      }
      cached := None;
    }

    /** The `install` handler: open `CACHE_VERSION` and add the manifest to
        it; the manifest lands only when every entry was fetched ok, and a
        failure is swallowed. */
    method Install(manifest: seq<Url>, net: Network) returns (sent: seq<Url>)
      modifies this
      ensures sent == manifest
      ensures caches == Installed(old(caches), manifest, net)
    {
      var current := Opened(caches, CacheVersion);
      caches := caches[CacheVersion := current];
      sent := manifest;
      if AllFetchedOk(manifest, net) {
        caches := caches[CacheVersion := current + Batch(manifest, net)];
      }
    }

    /** The `activate` handler: list the cache names and delete every cache
        whose name is neither `CACHE_VERSION` nor `ASSETS_CACHE`. */
    method Activate()
      modifies this
      ensures caches == Activated(old(caches))
    {
      var names := Enumerate.Elements(caches.Keys);
      for i := 0 to |names|
        invariant caches == map n | n in old(caches) && (Recognised(n) || n !in names[..i]) :: old(caches)[n]
      {
        if names[i] != CacheVersion && names[i] != AssetsCache {
          caches := caches - {names[i]};
        }
      }
    }

    /** The `fetch` handler. `reply` is what it passes to `respondWith`;
        `None` means it left the request to the browser. */
    method HandleFetch(req: Request, net: Network) returns (reply: Option<Response>, sent: seq<Url>)
      modifies this
      // Non-GET: no response, no cache read or write, no network call.
      ensures Classify(req) == Bypass ==> reply == None && sent == [] && caches == old(caches)
      // Network-first, a response came back: returned as is, cached only if ok.
      ensures Classify(req) == NetworkFirst && net(req.url).Received? ==>
        sent == [req.url] && reply == Some(net(req.url).response) &&
        caches == CacheIfOk(old(caches), CacheVersion, req.url, net(req.url).response)
      // Network-first, transport failure: any stored match, else 503 Offline; nothing cached.
      ensures Classify(req) == NetworkFirst && net(req.url).TransportError? ==>
        sent == [req.url] && caches == old(caches) &&
        if HasMatch(old(caches), req.url) then reply.Some? && StoredIn(old(caches), req.url, reply.value)
        else reply == Some(Offline)
      // Cache-first hit: the stored response, and the network is never consulted.
      ensures Classify(req) == CacheFirst && HasMatch(old(caches), req.url) ==>
        sent == [] && caches == old(caches) && reply.Some? && StoredIn(old(caches), req.url, reply.value)
      // Cache-first miss, a response came back: returned as is, cached in ASSETS_CACHE only if ok.
      ensures Classify(req) == CacheFirst && !HasMatch(old(caches), req.url) && net(req.url).Received? ==>
        sent == [req.url] && reply == Some(net(req.url).response) &&
        caches == CacheIfOk(old(caches), AssetsCache, req.url, net(req.url).response)
      // Cache-first miss, transport failure: 503 Offline, nothing cached.
      ensures Classify(req) == CacheFirst && !HasMatch(old(caches), req.url) && net(req.url).TransportError? ==>
        sent == [req.url] && reply == Some(Offline) && caches == old(caches)
    {
      match Classify(req) {
        case Bypass =>
          reply, sent := None, [];
        case NetworkFirst =>
          sent := [req.url];
          match net(req.url) {
            case Received(resp) =>
              if IsOk(resp) {
                caches := Put(caches, CacheVersion, req.url, resp);
              }
              reply := Some(resp);
            case TransportError =>
              var cached := Match(req.url);
              reply := if cached.Some? then cached else Some(Offline);
          }
        case CacheFirst =>
          var cached := Match(req.url);
          if cached.Some? {
            reply, sent := cached, [];
            return;
          }
          sent := [req.url];
          match net(req.url) {
            case Received(resp) =>
              if IsOk(resp) {
                caches := Put(caches, AssetsCache, req.url, resp);
              }
              reply := Some(resp);
            case TransportError =>
              reply := Some(Offline);
          }
      }
    }

    /** The `sync` handler with `syncProgress`: for tag `sync-progress`, open
        `CACHE_VERSION`, replay each cached progress URL, and delete it once
        its replay is delivered; a failed replay leaves the entry and the
        loop goes on. Any other tag does nothing. */
    method SyncProgress(tag: string, net: Network) returns (sent: seq<Url>)
      modifies this
      ensures tag != SyncTag ==> caches == old(caches) && sent == []
      ensures tag == SyncTag ==>
        caches == old(caches)[CacheVersion := Synced(Opened(old(caches), CacheVersion), net)]
      // Every cached progress URL is replayed, exactly once, whatever befell the others.
      ensures tag == SyncTag ==>
        forall u :: u in sent <==> u in Opened(old(caches), CacheVersion) && IsProgressUrl(u)
      ensures forall i, j :: 0 <= i < j < |sent| ==> sent[i] != sent[j]
    {
      sent := [];
      if tag != SyncTag {
        return;
      }
      var store := Opened(caches, CacheVersion);
      var cache := store;
      caches := caches[CacheVersion := cache];
      var requests := Enumerate.Elements(store.Keys);
      for i := 0 to |requests|
        invariant caches == old(caches)[CacheVersion := cache]
        invariant cache.Keys <= store.Keys
        invariant forall u :: u in cache ==> cache[u] == store[u]
        invariant forall u :: u in store ==>
          (u !in cache <==> u in requests[..i] && IsProgressUrl(u) && Delivered(net, u))
        invariant forall u :: u in sent <==> u in requests[..i] && IsProgressUrl(u)
        invariant forall k, l :: 0 <= k < l < |sent| ==> sent[k] != sent[l]
      {
        var url := requests[i];
        assert requests[..i + 1] == requests[..i] + [url];
        if IsProgressUrl(url) {
          var outcome := net(url);
          sent := sent + [url];
          if outcome.Received? {
            cache := cache - {url};
            caches := caches[CacheVersion := cache];
          }
        }
      }
      assert requests[..|requests|] == requests;
      assert cache == Synced(store, net);
    }
  }
}
