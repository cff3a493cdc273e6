/**
 The deployed worker (`sw.js`) against the worker embedded in `script.js`:
 where they agree and where they part.
 */
module WorkerComparison {
  import opened Fetch
  import opened CacheStorage
  import opened Worker
  import DeployedWorker
  import EmbeddedWorker

  /** Both workers use the same cache generation, so their activations
      delete and keep the same caches. */
  lemma ActivationsAgree(s: Storage)
    requires Valid(s)
    ensures DeployedWorker.CurrentCacheName == EmbeddedWorker.CurrentCacheName
    ensures DeployedWorker.Activate(s) == EmbeddedWorker.Activate(s)
  {
  }

  /** On a hit, both workers answer with the cached response, unless the
      deployed worker routes the request network-first; only the deployed
      worker then refreshes the entry, the embedded one writes nothing. */
  lemma HitsAgree(s: Storage, loc: Location, req: Request, net: Fetched)
    requires Valid(s) && DeployedWorker.Intercepts(req)
    requires Match(s, req.url).Some?
    requires DeployedWorker.Classify(req) != DeployedWorker.NetworkFirstStrategy
    ensures DeployedWorker.HandleFetch(s, loc, req, net).served.reply
      == EmbeddedWorker.HandleFetch(s, loc, req, net).served.reply
      == Match(s, req.url)
    ensures EmbeddedWorker.HandleFetch(s, loc, req, net).served.storage == s
    ensures net.Ok? && PutAllowed(req.url, net.resp) ==>
      Entry(DeployedWorker.HandleFetch(s, loc, req, net).served.storage, DeployedWorker.CurrentCacheName, req.url)
        == Some(net.resp)
  {
    var deployed := DeployedWorker.HandleFetch(s, loc, req, net);
    var embedded := EmbeddedWorker.HandleFetch(s, loc, req, net);
    assert deployed.served.reply == Match(s, req.url);
    assert embedded.served.reply == Match(s, req.url);
  }

  /** On a miss, both workers return what the network returned, but a
      response that is not a same-origin 200 (a 404, a cross-origin
      resource) is stored by the deployed worker and skipped by the
      embedded one. */
  lemma UncacheableMissDiverges(s: Storage, loc: Location, req: Request, resp: Response)
    requires Valid(s) && DeployedWorker.Intercepts(req) && IsHttp(req.url)
    requires Match(s, req.url).None?
    requires !EmbeddedWorker.Cacheable(resp) && resp.status != PartialContent
    ensures DeployedWorker.HandleFetch(s, loc, req, Ok(resp)).served.reply == Some(resp)
    ensures EmbeddedWorker.HandleFetch(s, loc, req, Ok(resp)).served.reply == Some(resp)
    ensures Entry(DeployedWorker.HandleFetch(s, loc, req, Ok(resp)).served.storage, DeployedWorker.CurrentCacheName, req.url)
      == Some(resp)
    ensures EmbeddedWorker.HandleFetch(s, loc, req, Ok(resp)).served.storage == s
  {
  }

  /** When the network is down on a miss, the deployed worker falls back to
      the app's root page and the embedded one to `./index.html`. */
  lemma OfflineFallbacksDiffer(s: Storage, loc: Location, req: Request)
    requires Valid(s) && DeployedWorker.Intercepts(req)
    requires Match(s, req.url).None?
    ensures DeployedWorker.HandleFetch(s, loc, req, Fail).served.reply
      == (if DeployedWorker.Classify(req) == DeployedWorker.NetworkFirstStrategy
          then Some(ErrorResponse())
          else Match(s, Resolve(loc, DeployedWorker.RootPage)))
    ensures EmbeddedWorker.HandleFetch(s, loc, req, Fail).served.reply
      == Match(s, Resolve(loc, EmbeddedWorker.OfflinePage))
  {
  }

  /** If the shared icon cannot be precached, the deployed worker still
      installs (without skipping the waiting phase), while the embedded
      worker's install fails. */
  lemma FailedPrecacheDiverges(s: Storage, loc: Location, net: Network)
    requires Valid(s)
    requires
      var icon := DeployedWorker.PrecacheAssets[5];
      !Admissible(icon, net(icon))
    ensures DeployedWorker.Install(s, loc, net).succeeded
    ensures !DeployedWorker.Install(s, loc, net).skippedWaiting
    ensures !EmbeddedWorker.Install(s, loc, net).succeeded
  {
    var icon := DeployedWorker.PrecacheAssets[5];
    assert EmbeddedWorker.CacheUrls[5] == icon;
    assert DeployedWorker.PrecacheUrls(loc)[5] == icon;
    assert EmbeddedWorker.PrecacheUrls(loc)[5] == icon;
  }
}
