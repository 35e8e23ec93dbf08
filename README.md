# Offline service worker: a verified model

This project models the service worker in `sw.js` of the LittleSteps web app.
The worker keeps the app usable offline. It has five parts:

- **Manifest resolution.** The worker derives `BASE_URL` from its own pathname (a trailing `/sw.js` is stripped, and an empty result becomes `./`). It then rewrites the `./`-relative entries of `STATIC_ASSETS` against that base.
- **Install.** It opens the cache `littlesteps-v1` (`CACHE_VERSION`) and adds the manifest to it. A failure is swallowed.
- **Activate.** It deletes every cache whose name is neither `CACHE_VERSION` nor `littlesteps-assets-v1` (`ASSETS_CACHE`).
- **Fetch.** Requests that are not GET are left to the browser. A GET whose pathname contains `/api/` is served network-first. Every other GET is served cache-first.
  - An `ok` (2xx) network response is cached: under `CACHE_VERSION` on the network-first path, under `ASSETS_CACHE` on the cache-first path.
  - A transport failure falls back to a cached match on the network-first path only.
  - When nothing can be served, the worker answers with a synthesised 503 `Offline` response.
- **Progress sync.** On the background-sync tag `sync-progress` it lists the keys of `CACHE_VERSION`. It replays each key whose URL contains `/api/progress` and deletes that key once the replay is delivered. A failed replay leaves its entry and does not stop the loop.

The model abstracts two collaborators:

- **Cache Storage** is the field `caches: map<string, map<Url, Response>>` of the class `Worker.ServiceWorker`. The handlers are methods that update it in place.
- **The network** is an oracle `Network = Url -> NetResult`. `Install`, `HandleFetch` and `SyncProgress` are each passed one and return the URLs they sent to it (`sent`); `Activate` makes no network call. So "the network is never consulted" is stated as `sent == []`.

Each handler's new state is tied to a function in `CacheState` (`Installed`, `Activated`, `Synced`, `Put`/`CacheIfOk`). The lemmas there state what those states mean. `Scenario.OnlineThenOffline` is a client that walks through three steps from the contracts alone:

1. Install a two-entry manifest.
2. Fetch `/api/progress` online.
3. Fetch it again offline, and get back the stored body rather than a 503.

Files: `text.dfy` (string predicates `StartsWith`, `EndsWith`, `Contains`), `http.dfy` (requests, responses, constants), `manifest.dfy`, `routing.dfy`, `enumerate.dfy` (listing a set, as `caches.keys()` and `cache.keys()` do), `cache_state.dfy`, `worker.dfy`, `scenario.dfy`.

Points where the code's behaviour is easy to misread; the model follows the code as written:

- **Replay delivery.** A replay counts as delivered when `fetch` resolves at all. The progress entry is deleted even on a 4xx or 5xx answer, because `fetch` rejects only on transport failure (sw.js:107-108).
- **Fallback scope.** The network-first fallback searches every cache (`caches.match`), not only `CACHE_VERSION` (sw.js:62).
- **Activate.** Activation leaves the old names intersected with the two recognised names. It does not create a recognised cache that is missing (sw.js:29-37).
- **Install is all-or-nothing.** `cache.addAll` is all-or-nothing, so a failed install adds no entry at all, not a partial subset (sw.js:20).
- **Sync creates the cache.** `caches.open` creates `CACHE_VERSION` when it is missing, so a sync on storage without it leaves an empty `CACHE_VERSION` behind (sw.js:100).

## Model

| member | source | states |
|---|---|---|
| Manifest.BaseUrl | sw.js:10 | The base is never empty. A pathname ending in `/sw.js` (and longer than it) is the base followed by `/sw.js`. A pathname without that suffix is its own base. The empty pathname and `/sw.js` itself give `./`. |
| Manifest.ResolveEntry | sw.js:11-15 | `./` resolves to the base. `./rest` resolves to the base immediately followed by `rest`, with no separator inserted. Any other entry is unchanged. |
| Manifest.ResolveManifest | sw.js:11-15 | The resolved manifest has the same length as the input, and each position holds that entry resolved against the base. |
| Manifest.StaticManifestEntries | sw.js:5-15 | The two-entry `STATIC_ASSETS` resolves to the resolutions of `./` and `./index.html`, in that order. |
| Manifest.RootManifest | sw.js:5-15 | Served as `/sw.js`, the manifest stays `./` and `./index.html`. |
| Manifest.SubdirectoryDropsSeparator | sw.js:10-13 | For any non-empty directory `d`, a worker at `d/sw.js` resolves `./x` to `d + x`. |
| Manifest.SubdirectoryManifest | sw.js:5-15 | Served as `/app/sw.js`, the manifest is `/app` and `/appindex.html`. |
| Manifest.DirectoryOf | sw.js:10 | Corrected base. It is never empty. For a pathname ending in `/sw.js` it is the pathname minus `sw.js`, keeping the slash; any other non-empty pathname is kept whole, as the anchored pattern does; the empty pathname gives `./`. |
| Manifest.DirectoryKeepsSeparator | sw.js:10-13 | With the corrected base, `./x` under `d/sw.js` resolves to `d/x` for every `d`, the site root included. |
| Manifest.SubdirectoryManifestInDirectory | sw.js:5-15 | With the corrected base, `/app/sw.js` gives `/app/` and `/app/index.html`. |
| Routing.Classify | sw.js:47-71 | Bypass if and only if the method is not GET. Network-first if and only if it is a GET whose pathname contains `/api/`. Cache-first if and only if it is a GET whose pathname does not. |
| Routing.ApiSegmentAnywhere | sw.js:50 | `/api/` is matched as a substring: `/app/api/items` is network-first, while `/api` (no trailing slash) is cache-first. |
| Routing.ProgressRequestsAreNetworkFirst | sw.js:50-57 | A GET for a `/api/progress` path is served network-first, the path that caches its ok responses in `CACHE_VERSION`, the cache the sync scans. |
| Text.ContainsPrefixOfPart | sw.js:50 | A string that includes `p + q` includes `p`. Applied to a pathname: a pathname holding `/api/progress` also holds `/api/`. The sync tests the full URL instead (sw.js:105), so a progress URL need not have an API pathname. |
| Enumerate.Elements | sw.js:29 | Listing a set (cache names, or one cache's keys at sw.js:101) yields every element exactly once. |
| CacheState.Put | sw.js:55-57 | Opening a cache and putting `url` leaves every other cache unchanged. In the named cache, `url` maps to the new response and every other entry is kept. The cache is created if absent. |
| CacheState.PutIsFound | sw.js:54-57 | After a put, a lookup of the URL finds it, the stored response is among the possible matches, and every other URL's matches survive. |
| CacheState.SingleMatch | sw.js:61-64 | When only `CACHE_VERSION` can hold the URL, every possible match is the same response. |
| CacheState.ActivatedKeepsRecognised | sw.js:29-37 | After activation the names are the old names intersected with `{CACHE_VERSION, ASSETS_CACHE}`. Every kept cache has its old contents. |
| CacheState.ActivatedIdempotent | sw.js:29-37 | A second activation deletes nothing more. |
| CacheState.InstalledSeedsManifest | sw.js:17-25 | Install adds `CACHE_VERSION` to the names and changes no other cache. Entries of `CACHE_VERSION` outside the manifest keep their responses. When every manifest fetch is ok, each entry is stored with its fetched response and the keys are exactly the old keys plus the manifest; otherwise `CACHE_VERSION` is left as opened. |
| CacheState.InstallTwoEntries | sw.js:17-25 | Installing `/` and `/index.html` into empty storage with both fetches ok leaves exactly two entries. |
| CacheState.SyncedRemovesDelivered | sw.js:104-113 | A sync removes an entry if and only if its URL contains `/api/progress` and its replay was delivered. Every remaining entry keeps its response. |
| CacheState.SyncedIdempotent | sw.js:104-113 | A second sync against the same network outcomes changes nothing. |
| CacheState.SyncedAfterCleanRun | sw.js:104-113 | After a sync in which every replay was delivered, no progress entry remains, and any later sync changes nothing whatever the network does. |
| Worker.ServiceWorker.Match | sw.js:72-73 | `caches.match` returns nothing exactly when no cache holds the URL. Otherwise it returns a response that some cache stores under that URL. |
| Worker.ServiceWorker.Install | sw.js:17-25 | The manifest is fetched and the caches become `Installed(old caches, manifest, network)`. |
| Worker.ServiceWorker.Activate | sw.js:27-40 | The loop over the listed names deletes each unrecognised cache in place. The caches become `Activated(old caches)`. |
| Worker.ServiceWorker.HandleFetch | sw.js:42-89 | Non-GET: no reply, no cache change, no network call. Network-first: the network response is returned unchanged and cached in `CACHE_VERSION` only if ok; on transport failure, some stored match is returned, else 503 `Offline`, and nothing is cached. Cache-first hit: a stored match, with no network call. Cache-first miss: the network response is returned and cached in `ASSETS_CACHE` only if ok; on transport failure, 503 `Offline` and no change. |
| Worker.ServiceWorker.SyncProgress | sw.js:91-117 | Any tag but `sync-progress`: nothing happens. Otherwise `CACHE_VERSION` becomes `Synced` of its old contents, no other cache changes, and every cached progress URL is replayed exactly once, whatever happened to the others. |

## Left out

- **Promise sequencing.** `event.waitUntil`, `event.respondWith` and interleaving between events are not modelled. The fire-and-forget `caches.open(...).then(put)` writes (sw.js:55-57, 78-80) are modelled as done before the reply is returned.
- **Request, Response and URL objects.** `response.clone()` is not modelled. A request is its method, URL and pathname, with the pathname given rather than parsed from the URL. A response is its status and body. Cache keys are request URLs: `Vary` headers, query-string options and method matching in the Cache API are not modelled.
- **The network** is one oracle per event, a function from URL to outcome. Within one event the worker asks it at most once per URL.
- **Store failures.** Quota errors, open or list failures and a failing `cache.delete` are not modelled: store operations always succeed. So the outer `try/catch` of `syncProgress` (sw.js:114-116) and the console logging (sw.js:21, 110, 115) are left out.
- **Partial-content responses.** `cache.put` and `cache.addAll` reject a 206 response, although `response.ok` accepts it, so the worker never stores one. `CacheState.CacheIfOk` and `CacheState.Installed` do store a 206, since the model treats every store operation as succeeding.
- **The `/\/sw\.js$/` regular expression** (sw.js:10) is modelled as a plain suffix check.
- **`cache.addAll` internals** (sw.js:20). It succeeds exactly when every manifest URL is fetched with an ok response, and then adds them all. Its rejection of duplicate entries is not modelled. Manifest entries are used as keys as resolved strings, not resolved into absolute URLs against the worker's location.
- **Install's manifest.** `Worker.ServiceWorker.Install` takes the resolved manifest as a parameter. `Manifest.FullStaticAssets` gives the list as written and `Manifest.FullStaticAssetsInDirectory` the corrected one.
- Worker.ServiceWorker.Match: does not say which cache's response is returned when several caches hold the URL. The search order of `caches.match` across caches is left out.
- Worker.ServiceWorker.HandleFetch: on a cache hit or a network-first fallback, it says only that the reply is some stored match for the URL, for the same reason.

## Findings

| source | as written | input that shows it | evidently intended | confidence | as-written member | corrected member |
|---|---|---|---|---|---|---|
| sw.js:10-13 | `BASE_URL` strips `/sw.js` including its slash, and `./x` then becomes `BASE_URL + x` | worker pathname `/app/sw.js` pre-caches `/app` and `/appindex.html` | strip only `sw.js`, so the manifest is `/app/` and `/app/index.html` (at the site root both give `/` and `/index.html` once made absolute) | high; not executed | Manifest.SubdirectoryManifest | Manifest.DirectoryKeepsSeparator |
