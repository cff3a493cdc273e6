# Offline caching of the KDKMP portal, in Dafny

The KDKMP portal is a static Progressive Web App. Its only component with
real decisions is the service-worker caching layer, and that layer exists
twice:

- the deployed worker `sw.js`. It precaches an asset list on install and
  deletes every other cache generation on activate. It answers
  `GET_CACHE_INFO` messages with the cache names. It serves each GET request
  in one of three ways, chosen from the shape of the URL: cache-first with a
  background refresh, network-first, or cache-with-update;
- a simpler cache-first worker that `script.js` builds as a string. It takes
  its cache name and precache list from `CONFIG`.

Both are modelled as pure state transitions over an immutable cache storage,
following the Cache and CacheStorage objects of the W3C Service Workers
specification (sections 5.4 and 5.5). The storage maps a cache name to a
cache, and a cache maps a request URL to a response. The names keep their
creation order, because `caches.keys()` reports that order and
`caches.match` searches the caches in it. The network is an input: an
executor receives the outcome of its one fetch, `Ok(response)` or `Fail`,
and an install receives a function from URL to outcome. Every cache write a
handler starts and does not await is taken as applied when the handler
finishes.

Modules:

- `Fetch` (`fetch.dfy`): requests, responses, network outcomes,
  `Response.error()`, `startsWith` and `includes`, and the resolution of the
  relative URLs given to `addAll` and `caches.match` against the worker's
  location.
- `CacheStorage` (`cache_storage.dfy`): `open`, `delete`, `keys`, `put`,
  `match` and `addAll`, plus the "delete every cache but one" loop that both
  activate handlers run.
- `Worker` (`worker.dfy`): what a handler produces. That is the reply given to
  `respondWith` (none when the promise settles to `undefined`) and the
  storage afterwards.
- `DeployedWorker` (`deployed_worker.dfy`): `sw.js`.
- `EmbeddedWorker` (`embedded_worker.dfy`): the worker text in `script.js`.
- `WorkerComparison` (`worker_comparison.dfy`): where the two workers agree
  and where they differ.

Behaviour of the code that the model makes explicit:

- A failed precache does not fail the deployed worker's install. Its
  `.catch` swallows the `addAll` rejection, so the install succeeds without
  `skipWaiting` and without any asset stored (`DeployedWorker.Install`). The
  embedded worker has no `.catch`, so its install fails
  (`WorkerComparison.FailedPrecacheDiverges`).
- Strategy selection tests substrings, not membership in the asset list.
  `/tombolkd/` is itself an asset, so every URL containing it is served
  cache-first. That includes `/tombolkd/api/...` (`DeployedWorker.AppDirectoryShadowsApi`).
- With every write applied, `cacheFirst` and `cacheWithUpdate` behave the
  same: same reply, same storage (`DeployedWorker.CacheFirstMatchesCacheWithUpdate`).
- Two cache-first requests for the same cached URL need not return the same
  response. The first request's background refresh decides what the second
  one sees (`DeployedWorker.CacheFirstHitSeesRefresh`). That holds only while no
  cache created before the current one holds the URL: such a cache keeps
  answering, because refreshes land in the current cache, which `caches.match`
  reaches later (`DeployedWorker.OlderGenerationShadowsRefresh`). The worker's
  own lifecycle never produces that state. Fetch events arrive only once the
  worker is active, activation has already deleted every other generation, and
  the handlers write only to the current one. Another script on the same origin
  would have to create the cache after activation.
- The deployed worker stores every response whatever its status, including
  404s and opaque responses, except a 206, which `Cache.put` refuses (as it
  refuses any URL that is not http(s)). The embedded worker stores only a 200
  of type `basic` (`WorkerComparison.UncacheableMissDiverges`).
- When both cache and network fail, `cacheFirst` and `cacheWithUpdate`
  answer with `caches.match('/tombolkd/')`. That may be `undefined`, which
  the page sees as a network error. Only `networkFirst` answers with an
  explicit `Response.error()`.

## Model

| member | source | states |
|---|---|---|
| `Fetch.Resolve` | script.js:42-50 | a relative precache or fallback URL resolves under the worker's origin and an absolute http(s) URL stays as it is, so resolving against an http(s) origin yields an http(s) URL |
| `Fetch.ResolvedIncludesReference` | sw.js:73 | an asset string that is absolute or origin-relative occurs inside its resolved URL, which is why precached URLs pass the substring test |
| `CacheStorage.Keys` | sw.js:271 | `caches.keys()` lists every cache present exactly once and nothing else |
| `CacheStorage.Open` | sw.js:23 | opening returns the existing cache untouched or appends a new empty one; no entry of any cache changes |
| `CacheStorage.Delete` | sw.js:49 | deleting removes exactly that cache name, leaves every other cache as it was, and keeps the remaining names in their creation order |
| `CacheStorage.RemoveAt` | sw.js:49 | taking a name out of a list without repetitions cuts exactly its position out, so the other names keep their relative order |
| `CacheStorage.MatchAfterDelete` | sw.js:49 | deleting a cache that does not hold a URL does not change what matching that URL returns |
| `CacheStorage.FirstHolderAfterCut` | sw.js:49 | when a cache is cut out of the order, the first holder of a URL it does not hold stays first, one place earlier if it came after the cut |
| `CacheStorage.FirstHolderAfterDelete` | sw.js:49 | deleting a cache that precedes or follows the first holder of a URL leaves that URL's match unchanged |
| `CacheStorage.Put` | sw.js:105 | `put` sets exactly one entry, unless `Cache.put` refuses it (non-http URL, status 206) or the cache no longer exists; every other entry is unchanged |
| `CacheStorage.OpenAndPut` | sw.js:104-105 | open-then-put stores the response under the URL in the named cache, unless `put` refuses it, and changes nothing else |
| `CacheStorage.Match` | sw.js:92 | `caches.match` finds nothing exactly when no cache holds the URL, and otherwise returns the entry of the first cache in creation order that holds it |
| `CacheStorage.MatchFromFirst` | sw.js:92 | a match found from a given position is the entry of the first cache at or after that position that holds the URL, with no earlier cache from there holding it |
| `CacheStorage.MatchSoleHolder` | sw.js:92 | when only one cache can hold the URL, matching returns that cache's entry |
| `CacheStorage.MatchFirstHolder` | sw.js:92 | matching returns the entry of the earliest cache holding the URL |
| `CacheStorage.MatchKeepsEarlierHolder` | sw.js:92 | a write into one cache cannot change the match of a URL already held by a cache created before it |
| `CacheStorage.MatchUnaffected` | sw.js:105 | a write confined to one URL leaves the match of every other URL unchanged |
| `CacheStorage.PutAll` | sw.js:26 | the batch of puts stores each URL's fetched response in the named cache and changes nothing else |
| `CacheStorage.AddAll` | sw.js:26 | `addAll` is all-or-nothing: it succeeds exactly when every URL is http(s) and fetched with a non-error, ok, non-206 response, then stores them all; otherwise nothing is stored |
| `CacheStorage.DeleteEach` | sw.js:45-52 | deleting each listed name except the kept one leaves exactly the caches that were kept or not listed, with their contents |
| `CacheStorage.DeleteAllExcept` | sw.js:44-53 | afterwards the kept name is the only cache left, if it existed, and its entries are unchanged |
| `CacheStorage.MatchAfterDeleteAllExcept` | sw.js:44-53 | once every cache but the kept one is deleted, matching any URL reads the kept cache alone |
| `DeployedWorker.SomeIncluded` | sw.js:73 | `some(asset => url.includes(asset))` holds exactly when some asset string occurs in the URL |
| `DeployedWorker.Classify` | sw.js:73-83 | total, ordered classification: cache-first when the URL contains an asset string; network-first when it contains none and the pathname contains `/api/`; cache-with-update otherwise |
| `DeployedWorker.PrecachedUrlIsCacheFirst` | sw.js:73-75 | every URL stored by the precache is classified cache-first, whatever its path |
| `DeployedWorker.AppDirectoryShadowsApi` | sw.js:73-79 | a URL under `/tombolkd/api/` is classified cache-first, never network-first |
| `DeployedWorker.UpdateCache` | sw.js:170-179 | the background refresh changes at most the current cache's entry for the request; on network failure nothing changes; on a response that `put` accepts, that response is stored, and on one `put` refuses (206, non-http(s) URL) the entry stays as it was |
| `DeployedWorker.CacheFirst` | sw.js:91-112 | a hit returns exactly the cached response, whatever the network does; a miss returns the network's response and stores it whatever its status, except 206, which `Cache.put` refuses; with neither, the `/tombolkd/` entry, possibly absent; the request's entry becomes the network's response exactly when `put` accepts it and is otherwise unchanged; network failure changes nothing |
| `DeployedWorker.NetworkFirst` | sw.js:117-131 | always answers: on success the live response, stored exactly when `put` accepts it (otherwise the entry is unchanged); on failure the cached entry or else `Response.error()`, with the storage unchanged |
| `DeployedWorker.CacheWithUpdate` | sw.js:136-165 | a network response is stored, hit or miss, whenever `put` accepts it, and the entry is otherwise unchanged; a hit returns the cached response, a miss the network's, and a miss with the network down the `/tombolkd/` entry, possibly absent |
| `DeployedWorker.CacheFirstMatchesCacheWithUpdate` | sw.js:91-165 | with every write applied, cache-first and cache-with-update give the same reply and the same storage for every input |
| `DeployedWorker.NetworkFirstServesStoredOffline` | sw.js:117-131 | a response fetched network-first is returned by a later network-first request made offline, when no other generation holds the URL |
| `DeployedWorker.CacheWithUpdateServesStoredOffline` | sw.js:136-165 | the first request for an uncached URL returns the live response and stores it; the next returns the stored copy even offline |
| `DeployedWorker.CacheFirstHitSeesRefresh` | sw.js:91-98 | a hit returns the cached entry, and the refresh it triggers is what the next request for that URL returns |
| `DeployedWorker.OlderGenerationShadowsRefresh` | sw.js:91-98 | while a cache created before the current one holds the URL (a state only another script on the origin can set up after activation), repeated cache-first requests keep returning its entry despite the refresh |
| `DeployedWorker.HandleFetch` | sw.js:62-84 | non-GET and `chrome-extension://` requests are not intercepted; an intercepted request is answered by the strategy `Classify` picks: outside network-first, a hit returns the cached response and an offline miss the `/tombolkd/` entry; any miss with the network up returns the network's response; network-first returns the live response, or offline the cached entry or else `Response.error()`; at most the current cache's entry for the URL changes, and it becomes the network's response exactly when `put` accepts it; a network failure changes nothing |
| `DeployedWorker.Install` | sw.js:19-36 | the install always succeeds; the current cache is created last if it was missing and the order is otherwise unchanged; `skipWaiting` is reached exactly when every precache URL is admissible, and then all are stored; otherwise no entry changes |
| `DeployedWorker.PrecacheHeldAfterLifecycle` | sw.js:22-59 | after an install in which every precache URL fetched a storable response, and an activation, matching any precached URL finds the response fetched for it at install |
| `DeployedWorker.PrecacheServedAfterLifecycle` | sw.js:22-35 | after an install in which every precache URL fetched a storable response, and an activation, a GET for any precached URL goes cache-first and is answered with the precached response, whatever the network does |
| `DeployedWorker.Activate` | sw.js:39-59 | afterwards no cache other than `kdkmp-portal-v1.2` remains; that cache survives if it existed and its entries are unchanged |
| `DeployedWorker.ActivateIdempotent` | sw.js:43-53 | activating twice leaves the same storage as activating once |
| `DeployedWorker.HandleMessage` | sw.js:265-278 | `SKIP_WAITING` and only it asks to skip waiting; `GET_CACHE_INFO` and only it is answered, with exactly the cache names present, each once |
| `DeployedWorker.CacheInfoAfterActivate` | sw.js:270-276 | after activation the reported names are exactly the current generation, if it exists |
| `EmbeddedWorker.HandleFetch` | script.js:631-670 | non-GET requests are not intercepted; a hit is returned with no write; a miss returns the network's response, and the entry becomes that response exactly when it is a 200 of type `basic` for an http(s) URL, otherwise it is unchanged; with the network down, the `./index.html` entry, possibly absent |
| `EmbeddedWorker.StoredResponseServedOffline` | script.js:646-662 | a cacheable response fetched on a miss is returned by a later offline request for the same URL |
| `EmbeddedWorker.Install` | script.js:601-611 | the install succeeds exactly when every configured URL is admissible, and `skipWaiting` is reached exactly then; the configured cache is created last if it was missing and the order is otherwise unchanged; on success all are stored, otherwise no entry changes |
| `EmbeddedWorker.OfflinePagePrecached` | script.js:42-50 | the resolved `./index.html` is among the configured precache URLs |
| `EmbeddedWorker.Activate` | script.js:614-628 | afterwards no cache other than `CONFIG.cacheName` remains, and that cache keeps its entries |
| `EmbeddedWorker.MatchAfterLifecycle` | script.js:603-628 | after an install in which every precache URL fetched a storable response, and an activation, matching reads only the configured cache: the precached response, or the entry that cache held before |
| `EmbeddedWorker.OfflinePageAfterLifecycle` | script.js:664-667 | after an install in which every precache URL fetched a storable response, and an activation, an uncached GET made offline is answered with the precached `./index.html` |
| `WorkerComparison.ActivationsAgree` | script.js:41 | `CONFIG.cacheName` equals the deployed `CACHE_NAME`, so both activations leave the same storage |
| `WorkerComparison.HitsAgree` | script.js:635-640 | on a hit both workers return the cached response (unless the deployed worker routes network-first), the embedded one with no write |
| `WorkerComparison.UncacheableMissDiverges` | script.js:649-651 | on a miss, a response that is not a same-origin 200 and that `Cache.put` accepts (not a 206, for an http(s) URL) is stored by the deployed worker and not by the embedded one; both return it |
| `WorkerComparison.OfflineFallbacksDiffer` | script.js:664-667 | offline on a miss, the deployed worker answers with `/tombolkd/` or `Response.error()` and the embedded one with `./index.html` |
| `WorkerComparison.FailedPrecacheDiverges` | script.js:603-610 | if the shared icon cannot be precached, the deployed install still succeeds without `skipWaiting`, and the embedded install fails |

## Left out

- Timing and interleaving: real async scheduling, concurrent fetch events and last-write-wins races. A fire-and-forget write is applied at the end of its handler. A write that never lands is not modelled apart from a refused `put` or a failed fetch.
- Cloning, streams, headers, `Vary` and full URL parsing. A request carries its method, absolute URL and pathname. `includes` and `startsWith` are sequence predicates. Relative URLs resolve by the simple rule in `Fetch.Resolve`: protocol-relative and `../` forms are not handled.
- `Fetch.Location`: `dir` is taken to be a directory path that starts and ends with `/`, as `/tombolkd/`. The model does not check this, and `Fetch.Resolve` gives an unparsed join for any other `dir`.
- `CacheStorage.AddAll`: the platform rejects an `addAll` that names the same request twice. The model leaves that rule out because the network is a function of the URL, so duplicates would store the same response. Neither list has a duplicate.
- `CacheStorage.Put`: quota errors and other storage failures are not modelled. A `put` fails only for a non-http(s) URL or a 206 response.
- `DeployedWorker.HandleMessage`: a `GET_CACHE_INFO` message without a reply port makes the reply throw. This is not modelled; the reply is given as sent.
- `self.skipWaiting()` and `self.clients.claim()` are recorded as a flag, or not at all. They change which worker controls pages, not the storage.
- The push, notification-click, sync and periodic-sync handlers (sw.js:182-262) are left out. They are display calls or empty stubs and never touch the caches. The embedded worker's equivalents (script.js:672-712) are left out too.
- The error and unhandled-rejection listeners (sw.js:281-287) are left out. They only log.
- `OFFLINE_URL` (sw.js:4) is declared but never used.
- Worker registration (script.js:359-382 and 715-722) is left out. It is platform plumbing: line 362 calls `navigator.worker.register`, which throws and is caught, so `sw.js` is never registered from the page.
- The embedded worker is registered from a `blob:` URL (script.js:716-720). Registration accepts only http(s) script URLs, so that worker never actually runs. The model still gives it a meaning: its `./` URLs resolve against an http(s) origin supplied as the worker's `Location`.
- The page's DOM code in `script.js` (toasts, theme, ripple, modal, fullscreen, shortcuts, share, install prompt) has no caching logic and is left out.
