/**
 The service worker that `script.js` builds as text and registers from a
 blob: a plain cache-first worker. It takes its cache name and precache
 list from the page's configuration, stores only same-origin 200
 responses, never refreshes a hit, and falls back to `./index.html`.
 Registration refuses a `blob:` script URL, so this worker never runs; it
 is modelled as if served from the http(s) origin of its `Location`.
 */
module EmbeddedWorker {
  import opened Fetch
  import opened CacheStorage
  import opened Worker

  /** `CONFIG.cacheName`, spliced into the worker as `CACHE_NAME`. */
  const CurrentCacheName: CacheName := "kdkmp-portal-v1.2"

  /** `CONFIG.cacheUrls`, spliced into the worker as `urlsToCache` (the
      scheme of the external URLs is written apart so that proofs see it). */
  const CacheUrls: seq<string> := [
    "./",
    "./index.html",
    "./style.css",
    "./script.js",
    "./manifest.json",
    "https://" + "cdn.jsdelivr.net/npm/@mdi/svg@7.4.47/svg/earth.svg",
    "https://" + "cdnjs.cloudflare.com/ajax/libs/font-awesome/6.4.0/css/all.min.css"
  ]

  /** The page served when both cache and network fail. */
  const OfflinePage: string := "./index.html"

  function PrecacheUrls(loc: Location): (urls: seq<Url>)
    ensures |urls| == |CacheUrls|
  {
    ResolveAll(loc, CacheUrls)
  }

  /** Only a 200 response of type basic (same-origin) is worth storing. */
  predicate Cacheable(resp: Response)
  {
    resp.status == 200 && resp.kind == Basic
  }

  /** The fetch handler: a hit is answered as it is, with no fetch and no
      write; a miss is fetched, and the response is stored only when it is
      cacheable; with neither, the offline page from the cache, if any. */
  function HandleFetch(s: Storage, loc: Location, req: Request, net: Fetched): (h: Handled)
    requires Valid(s)
    ensures h.NotIntercepted? <==> req.verb != "GET"
    ensures h.Responded? ==> Valid(h.served.storage)
    ensures h.Responded? ==> ChangesAtMost(s, h.served.storage, CurrentCacheName, req.url)
    ensures h.Responded? && Match(s, req.url).Some? ==>
      h.served.reply == Match(s, req.url) && h.served.storage == s
    ensures h.Responded? && Match(s, req.url).None? && net.Ok? ==> h.served.reply == Some(net.resp)
    ensures h.Responded? ==>
      (Entry(h.served.storage, CurrentCacheName, req.url)
       == if Match(s, req.url).None? && net.Ok? && Cacheable(net.resp) && IsHttp(req.url)
          then Some(net.resp) else Entry(s, CurrentCacheName, req.url))
    ensures h.Responded? && (net.Fail? || !Cacheable(net.resp)) ==> h.served.storage == s
    ensures h.Responded? && Match(s, req.url).None? && net.Fail? ==>
      h.served.reply == Match(s, Resolve(loc, OfflinePage))
  {
    if req.verb != "GET" then NotIntercepted
    else
      var cached := Match(s, req.url);
      if cached.Some? then Responded(Served(cached, s))
      else
        match net
        case Fail => Responded(Served(Match(s, Resolve(loc, OfflinePage)), s))
        case Ok(resp) =>
          if !Cacheable(resp) then Responded(Served(Some(resp), s))
          else Responded(Served(Some(resp), OpenAndPut(s, CurrentCacheName, req.url, resp)))
  }

  /** The install handler: open the cache and `addAll` the configured URLs,
      then `skipWaiting`. Nothing catches a failed `addAll`, so the install
      fails with it. */
  function Install(s: Storage, loc: Location, net: Network): (r: Installed)
    requires Valid(s)
    ensures Valid(r.storage) && CurrentCacheName in r.storage.caches
    ensures r.storage.order == if CurrentCacheName in s.caches then s.order else s.order + [CurrentCacheName]
    ensures r.succeeded <==> forall u | u in PrecacheUrls(loc) :: Admissible(u, net(u))
    ensures r.skippedWaiting <==> r.succeeded
    ensures r.succeeded ==>
      forall u | u in PrecacheUrls(loc) :: Entry(r.storage, CurrentCacheName, u) == Some(net(u).resp)
    ensures forall n, u | n != CurrentCacheName || u !in PrecacheUrls(loc) :: Entry(r.storage, n, u) == Entry(s, n, u)
    ensures !r.succeeded ==> forall n, u :: Entry(r.storage, n, u) == Entry(s, n, u)
  {
    var created := Open(s, CurrentCacheName);
    match AddAll(created, CurrentCacheName, PrecacheUrls(loc), net)
    case Some(s') => Installed(true, true, s')
    case None => Installed(false, false, created)
  }

  /** The activate handler: every cache but the configured one is deleted,
      and the configured one keeps its entries. */
  function Activate(s: Storage): (s': Storage)
    requires Valid(s)
    ensures Valid(s')
    ensures forall n | n in s'.caches :: n == CurrentCacheName
    ensures CurrentCacheName in s'.caches <==> CurrentCacheName in s.caches
    ensures forall u :: Entry(s', CurrentCacheName, u) == Entry(s, CurrentCacheName, u)
  {
    DeleteAllExcept(s, CurrentCacheName)
  }

  // ----- Properties -----

  /** A cacheable response fetched on a miss is what a later offline request
      gets back: no cache held the URL before, so the configured cache is now
      the only one that does. */
  lemma StoredResponseServedOffline(s: Storage, loc: Location, req: Request, resp: Response)
    requires Valid(s) && req.verb == "GET" && IsHttp(req.url) && Cacheable(resp)
    requires Match(s, req.url).None?
    ensures HandleFetch(s, loc, req, Ok(resp)).served.reply == Some(resp)
    ensures HandleFetch(HandleFetch(s, loc, req, Ok(resp)).served.storage, loc, req, Fail).served.reply == Some(resp)
  {
    var s1 := HandleFetch(s, loc, req, Ok(resp)).served.storage;
    forall n | n != CurrentCacheName
      ensures Entry(s1, n, req.url).None?
    {
      if n in s.caches {
        assert n in s.order;
      }
    }
    MatchSoleHolder(s1, CurrentCacheName, req.url);
  }

  /** After a complete install and an activation, matching a URL reads the
      configured cache alone: the precached response, or what the cache held
      before the install. */
  lemma MatchAfterLifecycle(s: Storage, loc: Location, net: Network, url: Url)
    requires Valid(s)
    requires forall u | u in PrecacheUrls(loc) :: Admissible(u, net(u))
    ensures Match(Activate(Install(s, loc, net).storage), url)
      == if url in PrecacheUrls(loc) then Some(net(url).resp) else Entry(s, CurrentCacheName, url)
  {
    var r := Install(s, loc, net);
    assert r.succeeded;
    MatchAfterDeleteAllExcept(r.storage, CurrentCacheName, url);
  }

  lemma OfflinePagePrecached(loc: Location)
    ensures Resolve(loc, OfflinePage) in PrecacheUrls(loc)
  {
    assert PrecacheUrls(loc)[1] == Resolve(loc, OfflinePage);
  }

  /** After a complete install and an activation, a GET that misses the cache
      while the network is down is answered with the precached
      `./index.html`. */
  lemma OfflinePageAfterLifecycle(s: Storage, loc: Location, net: Network, req: Request)
    requires Valid(s) && req.verb == "GET"
    requires forall u | u in PrecacheUrls(loc) :: Admissible(u, net(u))
    requires req.url !in PrecacheUrls(loc) && Entry(s, CurrentCacheName, req.url).None?
    ensures net(Resolve(loc, OfflinePage)).Ok?
    ensures HandleFetch(Activate(Install(s, loc, net).storage), loc, req, Fail).served.reply
      == Some(net(Resolve(loc, OfflinePage)).resp)
  {
    OfflinePagePrecached(loc);
    MatchAfterLifecycle(s, loc, net, Resolve(loc, OfflinePage));
    MatchAfterLifecycle(s, loc, net, req.url);
  }
}
