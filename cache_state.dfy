/** The contents of Cache Storage as a value, and the effect of each worker
    event on it, as functions. The worker's methods are proved to produce
    exactly these states; the lemmas here state what the states mean. */
module CacheState {
  import opened Text
  import opened Http

  /** One named cache: request URL to stored response. */
  type Store = map<Url, Response>

  /** All caches of the origin, by name. */
  type Stores = map<string, Store>

  /** `caches.open(name)`: the named cache, or a new empty one. */
  function Opened(stores: Stores, name: string): Store
  {
    if name in stores then stores[name] else map[]
  }

  /** `caches.open(name)` followed by `cache.put(url, response)`. */
  function Put(stores: Stores, name: string, url: Url, resp: Response): (r: Stores)
    ensures r.Keys == stores.Keys + {name}
    ensures url in r[name] && r[name][url] == resp
    ensures forall u :: u in Opened(stores, name) && u != url ==> u in r[name] && r[name][u] == Opened(stores, name)[u]
    ensures forall u :: u in r[name] ==> u == url || u in Opened(stores, name)
    ensures forall n :: n in stores && n != name ==> r[n] == stores[n]
  {
    stores[name := Opened(stores, name)[url := resp]]
  }

  /** What the fetch handler does with a network response: file it under
      `name` when it is ok, leave the caches alone otherwise. */
  function CacheIfOk(stores: Stores, name: string, url: Url, resp: Response): Stores
  {
    if IsOk(resp) then Put(stores, name, url, resp) else stores
  }

  /** Some cache holds an entry for `url`: `caches.match` finds something. */
  predicate HasMatch(stores: Stores, url: Url)
  {
    exists n :: n in stores && url in stores[n]
  }

  /** Some cache holds `resp` under `url`: a response `caches.match` may give. */
  predicate StoredIn(stores: Stores, url: Url, resp: Response)
  {
    exists n :: n in stores && url in stores[n] && stores[n][url] == resp
  }

  /** A cache name the current deployment keeps on activation. */
  predicate Recognised(name: string)
  {
    name == CacheVersion || name == AssetsCache
  }

  /** The caches after activation: the recognised ones, untouched. */
  function Activated(stores: Stores): Stores
  {
    map n | n in stores && Recognised(n) :: stores[n]
  }

  /** Every manifest entry was fetched with an ok response. */
  predicate AllFetchedOk(manifest: seq<Url>, net: Network)
  {
    forall i :: 0 <= i < |manifest| ==> net(manifest[i]).Received? && IsOk(net(manifest[i]).response)
  }

  /** The responses `cache.addAll` files, one per manifest entry. */
  function Batch(manifest: seq<Url>, net: Network): Store
  {
    map u | u in manifest && net(u).Received? :: net(u).response
  }

  /** The caches after install: `CACHE_VERSION` is opened, and the manifest
      is added to it only when every entry came back ok. */
  function Installed(stores: Stores, manifest: seq<Url>, net: Network): Stores
  {
    var current := Opened(stores, CacheVersion);
    stores[CacheVersion := if AllFetchedOk(manifest, net) then current + Batch(manifest, net) else current]
  }

  /** A cached URL the progress sync replays. */
  predicate IsProgressUrl(url: Url)
  {
    Contains(url, ProgressSegment)
  }

  /** A replay of `url` reached the server: `fetch` resolved, whatever the
      status it resolved with. */
  predicate Delivered(net: Network, url: Url)
  {
    net(url).Received?
  }

  /** The cache after one progress sync: the progress entries whose replay
      was delivered are removed; everything else stays as it was. */
  function Synced(store: Store, net: Network): Store
  {
    map u | u in store && !(IsProgressUrl(u) && Delivered(net, u)) :: store[u]
  }

  // ---- Fetch ----

  /** After a put, a lookup of the URL can find the response just stored,
      and every entry the put did not overwrite is still found. */
  lemma PutIsFound(stores: Stores, name: string, url: Url, resp: Response)
    ensures HasMatch(Put(stores, name, url, resp), url)
    ensures StoredIn(Put(stores, name, url, resp), url, resp)
    ensures forall u, x :: u != url && StoredIn(stores, u, x) ==> StoredIn(Put(stores, name, url, resp), u, x)
  {
    var r := Put(stores, name, url, resp);
    assert name in r && url in r[name];
    forall u, x | u != url && StoredIn(stores, u, x)
      ensures StoredIn(r, u, x)
    {
      var n :| n in stores && u in stores[n] && stores[n][u] == x;
      assert n in r && u in r[n] && r[n][u] == x;
    }
  }

  /** When only one response is stored under `url`, it is the one a lookup
      returns. */
  lemma SingleMatch(stores: Stores, url: Url, x: Response, y: Response)
    requires StoredIn(stores, url, x) && StoredIn(stores, url, y)
    requires forall n :: n in stores && n != CacheVersion ==> url !in stores[n]
    ensures x == y
  {
  }

  // ---- Activate ----

  /** After activation the names are exactly the old names that are
      recognised, and every kept cache has its old contents. */
  lemma ActivatedKeepsRecognised(stores: Stores)
    ensures Activated(stores).Keys == stores.Keys * {CacheVersion, AssetsCache}
    ensures forall n :: n in Activated(stores) ==> Activated(stores)[n] == stores[n]
  {
  }

  /** Activating twice purges nothing more. */
  lemma ActivatedIdempotent(stores: Stores)
    ensures Activated(Activated(stores)) == Activated(stores)
  {
  }

  // ---- Install ----

  /** A successful install files every manifest entry in `CACHE_VERSION`
      with its fetched response, keeps every other entry it held, and adds
      no other key; a failed one leaves `CACHE_VERSION` as opened; no other
      cache is touched either way. */
  lemma InstalledSeedsManifest(stores: Stores, manifest: seq<Url>, net: Network)
    ensures Installed(stores, manifest, net).Keys == stores.Keys + {CacheVersion}
    ensures forall n :: n in stores && n != CacheVersion ==> Installed(stores, manifest, net)[n] == stores[n]
    ensures AllFetchedOk(manifest, net) ==>
      forall i :: 0 <= i < |manifest| ==>
        manifest[i] in Installed(stores, manifest, net)[CacheVersion] &&
        Installed(stores, manifest, net)[CacheVersion][manifest[i]] == net(manifest[i]).response
    ensures AllFetchedOk(manifest, net) ==>
      forall u :: u in Installed(stores, manifest, net)[CacheVersion] <==> u in Opened(stores, CacheVersion) || u in manifest
    ensures forall u :: u in Opened(stores, CacheVersion) && u !in manifest ==>
      u in Installed(stores, manifest, net)[CacheVersion] &&
      Installed(stores, manifest, net)[CacheVersion][u] == Opened(stores, CacheVersion)[u]
    ensures !AllFetchedOk(manifest, net) ==> Installed(stores, manifest, net)[CacheVersion] == Opened(stores, CacheVersion)
  {
  }

  /** Installing `/` and `/index.html` into empty storage, with both fetches
      ok, leaves two entries in `CACHE_VERSION`. */
  lemma InstallTwoEntries(net: Network)
    requires AllFetchedOk(["/", "/index.html"], net)
    ensures |Installed(map[], ["/", "/index.html"], net)[CacheVersion]| == 2
  {
    var manifest: seq<Url> := ["/", "/index.html"];
    assert net(manifest[0]).Received? && net(manifest[1]).Received?;
    assert forall u :: u in manifest <==> u == "/" || u == "/index.html";
    var m := Installed(map[], manifest, net)[CacheVersion];
    assert m.Keys == {"/", "/index.html"};
    assert "/" != "/index.html";
  }

  // ---- Progress sync ----

  /** A sync removes exactly the progress entries whose replay was
      delivered; every other entry keeps its response. */
  lemma SyncedRemovesDelivered(store: Store, net: Network)
    ensures Synced(store, net).Keys <= store.Keys
    ensures forall u :: u in store ==> (u !in Synced(store, net) <==> IsProgressUrl(u) && Delivered(net, u))
    ensures forall u :: u in Synced(store, net) ==> Synced(store, net)[u] == store[u]
  {
  }

  /** A second sync against the same network outcomes changes nothing. */
  lemma SyncedIdempotent(store: Store, net: Network)
    ensures Synced(Synced(store, net), net) == Synced(store, net)
  {
  }

  /** After a sync in which every replay was delivered, no progress entry is
      left, so any later sync, whatever the network does, changes nothing. */
  lemma SyncedAfterCleanRun(store: Store, first: Network, later: Network)
    requires forall u :: u in store && IsProgressUrl(u) ==> Delivered(first, u)
    ensures forall u :: u in Synced(store, first) ==> !IsProgressUrl(u)
    ensures Synced(Synced(store, first), later) == Synced(store, first)
  {
  }
}
