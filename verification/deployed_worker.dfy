/**
 The deployed service worker, `sw.js`: it precaches a fixed asset list on
 install, purges every other cache generation on activate, answers
 `GET_CACHE_INFO` messages with the cache names, and serves each GET
 request by one of three strategies chosen from the shape of its URL.
 */
module DeployedWorker {
  import opened Fetch
  import opened CacheStorage
  import opened Worker

  /** `CACHE_NAME`: the current cache generation. */
  const CurrentCacheName: CacheName := "kdkmp-portal-v1.2"

  /** `PRECACHE_ASSETS`, in the order they are handed to `addAll` (the
      scheme of the external URLs is written apart so that proofs see it). */
  const PrecacheAssets: seq<string> := [
    "/tombolkd/",
    "/tombolkd/index.html",
    "/tombolkd/style.css",
    "/tombolkd/script.js",
    "/tombolkd/manifest.json",
    "https://" + "cdn.jsdelivr.net/npm/@mdi/svg@7.4.47/svg/earth.svg",
    "https://" + "cdnjs.cloudflare.com/ajax/libs/font-awesome/6.4.0/css/all.min.css",
    "https://" + "cdnjs.cloudflare.com/ajax/libs/font-awesome/6.4.0/webfonts/fa-solid-900.woff2"
  ]

  /** The page served when both cache and network fail. */
  const RootPage: string := "/tombolkd/"

  const ExtensionScheme: string := "chrome-extension://"
  const ApiMarker: string := "/api/"

  datatype Strategy = CacheFirstStrategy | NetworkFirstStrategy | CacheWithUpdateStrategy

  /** The URLs `addAll` stores when the worker lives at `loc`. */
  function PrecacheUrls(loc: Location): (urls: seq<Url>)
    ensures |urls| == |PrecacheAssets|
  {
    ResolveAll(loc, PrecacheAssets)
  }

  /** The fetch handler answers only GET requests outside extension URLs. */
  predicate Intercepts(req: Request)
  {
    req.verb == "GET" && !StartsWith(req.url, ExtensionScheme)
  }

  /** `assets.some(asset => url.includes(asset))`. */
  function SomeIncluded(url: Url, assets: seq<string>): (b: bool)
    ensures b <==> exists a | a in assets :: Includes(url, a)
    decreases |assets|
  {
    if assets == [] then false
    else if Includes(url, assets[0]) then true
    else
      var b := SomeIncluded(url, assets[1..]);
      assert forall a | a in assets :: a == assets[0] || a in assets[1..];
      b
  }

  /** The strategy for an intercepted request. The tests are ordered: a URL
      containing a precache asset string is served cache-first even when its
      path also names the API. */
  function Classify(req: Request): (st: Strategy)
    ensures st == CacheFirstStrategy <==> exists a | a in PrecacheAssets :: Includes(req.url, a)
    ensures st == NetworkFirstStrategy <==>
      (forall a | a in PrecacheAssets :: !Includes(req.url, a)) && Includes(req.pathname, ApiMarker)
    ensures st == CacheWithUpdateStrategy <==>
      (forall a | a in PrecacheAssets :: !Includes(req.url, a)) && !Includes(req.pathname, ApiMarker)
  {
    if SomeIncluded(req.url, PrecacheAssets) then CacheFirstStrategy
    else if Includes(req.pathname, ApiMarker) then NetworkFirstStrategy
    else CacheWithUpdateStrategy
  }

  /** `updateCache`: the background refresh. A network failure is swallowed
      and changes nothing; a response is written to the current cache. */
  function UpdateCache(s: Storage, req: Request, net: Fetched): (s': Storage)
    requires Valid(s)
    ensures Valid(s')
    ensures ChangesAtMost(s, s', CurrentCacheName, req.url)
    ensures net.Fail? ==> s' == s
    ensures Entry(s', CurrentCacheName, req.url)
      == if net.Ok? && PutAllowed(req.url, net.resp) then Some(net.resp) else Entry(s, CurrentCacheName, req.url)
  {
    match net
    case Fail => s
    case Ok(resp) => OpenAndPut(s, CurrentCacheName, req.url, resp)
  }

  /** `cacheFirst`: a hit is answered from the cache whatever the network
      does, and refreshed in the background; a miss goes to the network,
      whose response is stored whatever its status; with neither, the root
      page from the cache, if any. */
  function CacheFirst(s: Storage, loc: Location, req: Request, net: Fetched): (r: Served)
    requires Valid(s)
    ensures Valid(r.storage)
    ensures ChangesAtMost(s, r.storage, CurrentCacheName, req.url)
    ensures net.Fail? ==> r.storage == s
    ensures Entry(r.storage, CurrentCacheName, req.url)
      == if net.Ok? && PutAllowed(req.url, net.resp) then Some(net.resp) else Entry(s, CurrentCacheName, req.url)
    ensures Match(s, req.url).Some? ==> r.reply == Match(s, req.url)
    ensures Match(s, req.url).None? && net.Ok? ==> r.reply == Some(net.resp)
    ensures Match(s, req.url).None? && net.Fail? ==> r.reply == Match(s, Resolve(loc, RootPage))
  {
    var cached := Match(s, req.url);
    if cached.Some? then Served(cached, UpdateCache(s, req, net))
    else
      match net
      case Ok(resp) => Served(Some(resp), OpenAndPut(s, CurrentCacheName, req.url, resp))
      case Fail => Served(Match(s, Resolve(loc, RootPage)), s)
  }

  /** `networkFirst`: the network's response, stored; without a network, the
      cached entry or else `Response.error()`. It always answers. */
  function NetworkFirst(s: Storage, req: Request, net: Fetched): (r: Served)
    requires Valid(s)
    ensures Valid(r.storage)
    ensures ChangesAtMost(s, r.storage, CurrentCacheName, req.url)
    ensures r.reply.Some?
    ensures net.Ok? ==> r.reply == Some(net.resp)
    ensures Entry(r.storage, CurrentCacheName, req.url)
      == if net.Ok? && PutAllowed(req.url, net.resp) then Some(net.resp) else Entry(s, CurrentCacheName, req.url)
    ensures net.Fail? ==> r.storage == s
    ensures net.Fail? && Match(s, req.url).Some? ==> r.reply == Match(s, req.url)
    ensures net.Fail? && Match(s, req.url).None? ==> r.reply == Some(ErrorResponse())
  {
    match net
    case Ok(resp) => Served(Some(resp), OpenAndPut(s, CurrentCacheName, req.url, resp))
    case Fail =>
      var cached := Match(s, req.url);
      Served(if cached.Some? then cached else Some(ErrorResponse()), s)
  }

  /** `cacheWithUpdate`: the network is always asked and its response always
      stored; the page gets the cached entry if there was one, else the
      network's response, else the root page from the cache, if any. */
  function CacheWithUpdate(s: Storage, loc: Location, req: Request, net: Fetched): (r: Served)
    requires Valid(s)
    ensures Valid(r.storage)
    ensures ChangesAtMost(s, r.storage, CurrentCacheName, req.url)
    ensures net.Fail? ==> r.storage == s
    ensures Entry(r.storage, CurrentCacheName, req.url)
      == if net.Ok? && PutAllowed(req.url, net.resp) then Some(net.resp) else Entry(s, CurrentCacheName, req.url)
    ensures Match(s, req.url).Some? ==> r.reply == Match(s, req.url)
    ensures Match(s, req.url).None? && net.Ok? ==> r.reply == Some(net.resp)
    ensures Match(s, req.url).None? && net.Fail? ==> r.reply == Match(s, Resolve(loc, RootPage))
  {
    var cached := Match(s, req.url);
    var fromNetwork: Option<Response> := if net.Ok? then Some(net.resp) else None;
    var s' := if net.Ok? then OpenAndPut(s, CurrentCacheName, req.url, net.resp) else s;
    if cached.Some? then Served(cached, s')
    else if fromNetwork.Some? then Served(fromNetwork, s')
    else Served(Match(s, Resolve(loc, RootPage)), s')
  }

  /** The fetch event handler. */
  function HandleFetch(s: Storage, loc: Location, req: Request, net: Fetched): (h: Handled)
    requires Valid(s)
    ensures h.NotIntercepted? <==> req.verb != "GET" || StartsWith(req.url, ExtensionScheme)
    ensures h.Responded? ==> Valid(h.served.storage)
    ensures h.Responded? ==> ChangesAtMost(s, h.served.storage, CurrentCacheName, req.url)
    ensures h.Responded? && net.Fail? ==> h.served.storage == s
    ensures h.Responded? ==>
      (Entry(h.served.storage, CurrentCacheName, req.url)
       == if net.Ok? && PutAllowed(req.url, net.resp) then Some(net.resp) else Entry(s, CurrentCacheName, req.url))
    ensures h.Responded? && Classify(req) != NetworkFirstStrategy && Match(s, req.url).Some? ==>
      h.served.reply == Match(s, req.url)
    ensures h.Responded? && Classify(req) != NetworkFirstStrategy && Match(s, req.url).None? && net.Fail? ==>
      h.served.reply == Match(s, Resolve(loc, RootPage))
    ensures h.Responded? && Match(s, req.url).None? && net.Ok? ==> h.served.reply == Some(net.resp)
    ensures h.Responded? && Classify(req) == NetworkFirstStrategy && net.Ok? ==> h.served.reply == Some(net.resp)
    ensures h.Responded? && Classify(req) == NetworkFirstStrategy && net.Fail? ==>
      h.served.reply == if Match(s, req.url).Some? then Match(s, req.url) else Some(ErrorResponse())
  {
    if !Intercepts(req) then NotIntercepted
    else
      match Classify(req)
      case CacheFirstStrategy => Responded(CacheFirst(s, loc, req, net))
      case NetworkFirstStrategy => Responded(NetworkFirst(s, req, net))
      case CacheWithUpdateStrategy => Responded(CacheWithUpdate(s, loc, req, net))
  }

  /** The install handler: open the current cache, `addAll` the precache
      list, then `skipWaiting`. A failed `addAll` is caught, so the install
      still succeeds, without `skipWaiting` and without any asset stored. */
  function Install(s: Storage, loc: Location, net: Network): (r: Installed)
    requires Valid(s)
    ensures r.succeeded
    ensures Valid(r.storage) && CurrentCacheName in r.storage.caches
    ensures r.storage.order == if CurrentCacheName in s.caches then s.order else s.order + [CurrentCacheName]
    ensures r.skippedWaiting <==> forall u | u in PrecacheUrls(loc) :: Admissible(u, net(u))
    ensures r.skippedWaiting ==>
      forall u | u in PrecacheUrls(loc) :: Entry(r.storage, CurrentCacheName, u) == Some(net(u).resp)
    ensures forall n, u | n != CurrentCacheName || u !in PrecacheUrls(loc) :: Entry(r.storage, n, u) == Entry(s, n, u)
    ensures !r.skippedWaiting ==> forall n, u :: Entry(r.storage, n, u) == Entry(s, n, u)
  {
    var created := Open(s, CurrentCacheName);
    match AddAll(created, CurrentCacheName, PrecacheUrls(loc), net)
    case Some(s') => Installed(true, true, s')
    case None => Installed(true, false, created)
  }

  /** The activate handler: every cache but the current one is deleted, and
      the current one keeps its entries. */
  function Activate(s: Storage): (s': Storage)
    requires Valid(s)
    ensures Valid(s')
    ensures forall n | n in s'.caches :: n == CurrentCacheName
    ensures CurrentCacheName in s'.caches <==> CurrentCacheName in s.caches
    ensures forall u :: Entry(s', CurrentCacheName, u) == Entry(s, CurrentCacheName, u)
  {
    DeleteAllExcept(s, CurrentCacheName)
  }

  /** What a message does: `SKIP_WAITING` asks to skip waiting, and
      `GET_CACHE_INFO` is answered with the cache names. */
  datatype MessageEffect = MessageEffect(skipWaiting: bool, cacheInfo: Option<seq<CacheName>>)

  /** The message handler; `kind` is `event.data.type`, None when the message
      carries no data or no type. */
  function HandleMessage(s: Storage, kind: Option<string>): (e: MessageEffect)
    requires Valid(s)
    ensures e.skipWaiting <==> kind == Some("SKIP_WAITING")
    ensures e.cacheInfo.Some? <==> kind == Some("GET_CACHE_INFO")
    ensures e.cacheInfo.Some? ==> Distinct(e.cacheInfo.value)
    ensures e.cacheInfo.Some? ==> forall n :: n in e.cacheInfo.value <==> n in s.caches
  {
    MessageEffect(
      kind == Some("SKIP_WAITING"),
      if kind == Some("GET_CACHE_INFO") then Some(Keys(s)) else None)
  }

  // ----- Properties -----

  /** Every precached URL is served cache-first, whatever its path. */
  lemma PrecachedUrlIsCacheFirst(loc: Location, i: nat, req: Request)
    requires i < |PrecacheAssets| && req.url == PrecacheUrls(loc)[i]
    ensures Classify(req) == CacheFirstStrategy
  {
    var a := PrecacheAssets[i];
    if i < 5 {
      assert a[..1] == "/";
    }
    ResolvedIncludesReference(loc, a);
  }

  /** Because `/tombolkd/` is itself a precache asset, every request below
      the app's directory is served cache-first: an API path there never
      reaches the network-first strategy. */
  lemma AppDirectoryShadowsApi(origin: string, rest: string)
    ensures Classify(Request("GET", origin + "/tombolkd/api/" + rest, "/tombolkd/api/" + rest)) == CacheFirstStrategy
  {
    var url := origin + "/tombolkd/api/" + rest;
    assert url[|origin|..] == "/tombolkd/api/" + rest;
    assert RootPage <= url[|origin|..];
    IncludesAt(url, RootPage, |origin|);
    assert RootPage in PrecacheAssets;
  }

  /** Once every write is taken as applied, cache-first and cache-with-update
      behave alike: same response, same storage. */
  lemma CacheFirstMatchesCacheWithUpdate(s: Storage, loc: Location, req: Request, net: Fetched)
    requires Valid(s)
    ensures CacheFirst(s, loc, req, net) == CacheWithUpdate(s, loc, req, net)
  {
  }

  /** A response fetched by network-first is what a later offline request
      gets back, unless another cache generation also holds the URL. */
  lemma NetworkFirstServesStoredOffline(s: Storage, req: Request, resp: Response)
    requires Valid(s) && PutAllowed(req.url, resp)
    requires forall n | n != CurrentCacheName :: Entry(s, n, req.url).None?
    ensures NetworkFirst(NetworkFirst(s, req, Ok(resp)).storage, req, Fail).reply == Some(resp)
  {
    var s1 := NetworkFirst(s, req, Ok(resp)).storage;
    MatchSoleHolder(s1, CurrentCacheName, req.url);
  }

  /** The first cache-with-update request for a URL, online, returns the live
      response and stores it; the next one returns the stored copy even
      offline. */
  lemma CacheWithUpdateServesStoredOffline(s: Storage, loc: Location, req: Request, resp: Response)
    requires Valid(s) && PutAllowed(req.url, resp)
    requires Match(s, req.url).None?
    ensures CacheWithUpdate(s, loc, req, Ok(resp)).reply == Some(resp)
    ensures CacheWithUpdate(CacheWithUpdate(s, loc, req, Ok(resp)).storage, loc, req, Fail).reply == Some(resp)
  {
    var s1 := CacheWithUpdate(s, loc, req, Ok(resp)).storage;
    forall n | n != CurrentCacheName
      ensures Entry(s1, n, req.url).None?
    {
      if n in s.caches {
        assert n in s.order;
      }
    }
    MatchSoleHolder(s1, CurrentCacheName, req.url);
  }

  /** Two cache-first requests for a cached URL need not return the same
      response: when the current cache alone holds the URL, the background
      refresh of the first decides what the second returns. */
  lemma CacheFirstHitSeesRefresh(s: Storage, loc: Location, req: Request, refreshed: Response, net: Fetched)
    requires Valid(s) && PutAllowed(req.url, refreshed)
    requires Entry(s, CurrentCacheName, req.url).Some?
    requires forall n | n != CurrentCacheName :: Entry(s, n, req.url).None?
    ensures CacheFirst(s, loc, req, Ok(refreshed)).reply == Entry(s, CurrentCacheName, req.url)
    ensures CacheFirst(CacheFirst(s, loc, req, Ok(refreshed)).storage, loc, req, net).reply == Some(refreshed)
  {
    MatchSoleHolder(s, CurrentCacheName, req.url);
    var s1 := CacheFirst(s, loc, req, Ok(refreshed)).storage;
    MatchSoleHolder(s1, CurrentCacheName, req.url);
  }

  /** A cache created ahead of the current one that holds the URL keeps
      answering cache-first requests: the refresh lands in the current cache,
      which matching reaches too late. The worker itself never sets this up,
      since activation deletes every other cache before fetch events arrive;
      another script on the origin must create that cache afterwards. */
  lemma OlderGenerationShadowsRefresh(s: Storage, loc: Location, req: Request, net1: Fetched, net2: Fetched, i: int)
    requires Valid(s) && FirstHolder(s, req.url, i)
    requires forall j | 0 <= j <= i :: s.order[j] != CurrentCacheName
    ensures CacheFirst(CacheFirst(s, loc, req, net1).storage, loc, req, net2).reply == Match(s, req.url)
  {
    var s1 := CacheFirst(s, loc, req, net1).storage;
    MatchKeepsEarlierHolder(s, s1, CurrentCacheName, req.url, i);
  }

  /** After activation the cache names reported to the page are exactly the
      current generation, if it exists. */
  lemma CacheInfoAfterActivate(s: Storage)
    requires Valid(s)
    ensures HandleMessage(Activate(s), Some("GET_CACHE_INFO")).cacheInfo
      == Some(if CurrentCacheName in s.caches then [CurrentCacheName] else [])
  {
  }

  /** Activating twice is activating once. */
  lemma ActivateIdempotent(s: Storage)
    requires Valid(s)
    ensures Activate(Activate(s)) == Activate(s)
  {
    var s1 := Activate(s);
    var s2 := Activate(s1);
    assert s2.caches.Keys == s1.caches.Keys;
    assert s2.caches == s1.caches;
  }

  /** After a complete install and an activation, matching a precached URL
      finds the precached response. */
  lemma PrecacheHeldAfterLifecycle(s: Storage, loc: Location, net: Network, u: Url)
    requires Valid(s) && u in PrecacheUrls(loc)
    requires forall v | v in PrecacheUrls(loc) :: Admissible(v, net(v))
    ensures Match(Activate(Install(s, loc, net).storage), u) == Some(net(u).resp)
  {
    var r := Install(s, loc, net);
    assert r.skippedWaiting;
    MatchAfterDeleteAllExcept(r.storage, CurrentCacheName, u);
  }

  /** The whole lifecycle: after a complete install and an activation, a GET
      for any precached URL is answered with the precached response, whatever
      the network does. */
  lemma PrecacheServedAfterLifecycle(s: Storage, loc: Location, net: Network, i: nat, path: string, net2: Fetched)
    requires Valid(s) && IsHttp(loc.origin) && i < |PrecacheAssets|
    requires forall u | u in PrecacheUrls(loc) :: Admissible(u, net(u))
    ensures
      var u := PrecacheUrls(loc)[i];
      HandleFetch(Activate(Install(s, loc, net).storage), loc, Request("GET", u, path), net2)
        == Responded(CacheFirst(Activate(Install(s, loc, net).storage), loc, Request("GET", u, path), net2))
    ensures
      var u := PrecacheUrls(loc)[i];
      HandleFetch(Activate(Install(s, loc, net).storage), loc, Request("GET", u, path), net2).served.reply
        == Some(net(u).resp)
  {
    var u := PrecacheUrls(loc)[i];
    var req := Request("GET", u, path);
    assert u in PrecacheUrls(loc);
    PrecacheHeldAfterLifecycle(s, loc, net, u);
    HttpIsNotExtension(u);
    PrecachedUrlIsCacheFirst(loc, i, req);
  }
}
