/**
 The Cache and CacheStorage objects of the W3C Service Workers
 specification (sections 5.4 and 5.5), as an immutable value: an ordered
 map from cache name to a cache, and a cache is a map from request URL to
 the stored response. Only GET requests are ever stored, so the URL alone
 identifies an entry. The order of the names is the order in which the
 caches were created; `caches.keys()` reports it and `caches.match`
 searches in it.
 */
module CacheStorage {
  import opened Fetch

  type CacheName = string
  type Cache = map<Url, Response>

  /** `Cache.put` refuses a partial response (206 Partial Content). */
  const PartialContent: int := 206

  datatype Storage = Storage(order: seq<CacheName>, caches: map<CacheName, Cache>)

  ghost predicate Distinct(xs: seq<CacheName>)
  {
    forall i, j | 0 <= i < j < |xs| :: xs[i] != xs[j]
  }

  /** The names are listed once each, and they are exactly the caches present. */
  ghost predicate Valid(s: Storage)
  {
    && Distinct(s.order)
    && (forall n :: n in s.caches <==> n in s.order)
  }

  /** The response cache `name` holds for `url`, if the cache exists and has one. */
  function Entry(s: Storage, name: CacheName, url: Url): Option<Response>
  {
    if name in s.caches && url in s.caches[name] then Some(s.caches[name][url]) else None
  }

  /** `s'` differs from `s` at most in the entry `name`/`url`, and at most by
      the creation of cache `name` when it was missing. */
  ghost predicate ChangesAtMost(s: Storage, s': Storage, name: CacheName, url: Url)
  {
    && (s'.order == s.order || (name !in s.caches && s'.order == s.order + [name]))
    && (forall n, u | n != name || u != url :: Entry(s', n, u) == Entry(s, n, u))
  }

  /** `caches.keys()`: every cache name present, each once. */
  function Keys(s: Storage): (names: seq<CacheName>)
    requires Valid(s)
    ensures Distinct(names)
    ensures forall n :: n in names <==> n in s.caches
  {
    s.order
  }

  /** `caches.open(name)`: the existing cache, or a new empty one created last. */
  function Open(s: Storage, name: CacheName): (s': Storage)
    requires Valid(s)
    ensures Valid(s')
    ensures name in s'.caches
    ensures name in s.caches ==> s' == s
    ensures name !in s.caches ==> s'.order == s.order + [name]
    ensures forall n, u :: Entry(s', n, u) == Entry(s, n, u)
  {
    if name in s.caches then s
    else Storage(s.order + [name], s.caches[name := map[]])
  }

  /** `xs` without `name`, in the same relative order. */
  function Remove(xs: seq<CacheName>, name: CacheName): (ys: seq<CacheName>)
    ensures forall n :: n in ys <==> n in xs && n != name
    ensures Distinct(xs) ==> Distinct(ys)
    ensures name !in xs ==> ys == xs
  {
    if xs == [] then []
    else if xs[0] == name then Remove(xs[1..], name)
    else
      var rest := Remove(xs[1..], name);
      assert Distinct(xs) ==> xs[0] !in xs[1..] by {
        assert forall k | 0 <= k < |xs[1..]| :: xs[1..][k] == xs[k + 1];
      }
      [xs[0]] + rest
  }

  /** Removing a name that sits at position `k` of a list without
      repetitions cuts exactly that position out: the others keep their order. */
  lemma {:induction false} RemoveAt(xs: seq<CacheName>, name: CacheName, k: nat)
    requires Distinct(xs) && k < |xs| && xs[k] == name
    ensures Remove(xs, name) == xs[..k] + xs[k + 1..]
  {
    var tail := xs[1..];
    if k == 0 {
      assert name !in tail by {
        forall j | 0 <= j < |tail| ensures tail[j] != name {
          assert tail[j] == xs[j + 1];
        }
      }
      assert Remove(xs, name) == Remove(tail, name);
    } else {
      assert Distinct(tail) by {
        forall i, j | 0 <= i < j < |tail| ensures tail[i] != tail[j] {
          assert tail[i] == xs[i + 1] && tail[j] == xs[j + 1];
        }
      }
      assert tail[k - 1] == name;
      RemoveAt(tail, name, k - 1);
      assert Remove(xs, name) == [xs[0]] + Remove(tail, name);
      assert xs[..k] + xs[k + 1..] == [xs[0]] + (tail[..k - 1] + tail[k..]);
    }
  }

  /** `caches.delete(name)`: the cache and its entries are gone, and the
      caches that remain keep their creation order. */
  function Delete(s: Storage, name: CacheName): (s': Storage)
    requires Valid(s)
    ensures Valid(s')
    ensures s'.caches == s.caches - {name}
    ensures name !in s.caches ==> s' == s
    ensures forall k | 0 <= k < |s.order| && s.order[k] == name :: s'.order == s.order[..k] + s.order[k + 1..]
  {
    assert forall k | 0 <= k < |s.order| && s.order[k] == name :: Remove(s.order, name) == s.order[..k] + s.order[k + 1..] by {
      forall k | 0 <= k < |s.order| && s.order[k] == name
        ensures Remove(s.order, name) == s.order[..k] + s.order[k + 1..]
      {
        RemoveAt(s.order, name, k);
      }
    }
    Storage(Remove(s.order, name), s.caches - {name})
  }

  /** Deleting a cache that does not hold `url` leaves the match of `url`
      as it was: the remaining caches keep their order. */
  lemma MatchAfterDelete(s: Storage, name: CacheName, url: Url)
    requires Valid(s) && Entry(s, name, url).None?
    ensures Match(Delete(s, name), url) == Match(s, url)
  {
    var s' := Delete(s, name);
    if name in s.caches {
      if Match(s, url).None? {
        forall n | n in s'.order ensures Entry(s', n, url).None? {
          assert n in s.order;
        }
      } else {
        var k :| 0 <= k < |s.order| && s.order[k] == name;
        var i :| FirstHolder(s, url, i) && Entry(s, s.order[i], url) == Match(s, url);
        FirstHolderAfterDelete(s, name, url, k, i);
      }
    }
  }

  /** The first holder of `url` moves down one place when a cache created
      before it is cut out of the order, and stays put otherwise. */
  lemma FirstHolderAfterCut(s: Storage, s': Storage, url: Url, k: nat, i: int)
    requires k < |s.order| && s'.order == s.order[..k] + s.order[k + 1..]
    requires forall n :: Entry(s', n, url) == Entry(s, n, url)
    requires FirstHolder(s, url, i) && i != k
    ensures FirstHolder(s', url, if i < k then i else i - 1)
  {
    assert forall j | 0 <= j < |s'.order| :: s'.order[j] == s.order[if j < k then j else j + 1];
  }

  lemma FirstHolderAfterDelete(s: Storage, name: CacheName, url: Url, k: nat, i: int)
    requires Valid(s) && Entry(s, name, url).None?
    requires k < |s.order| && s.order[k] == name && FirstHolder(s, url, i)
    ensures Match(Delete(s, name), url) == Match(s, url)
  {
    var s' := Delete(s, name);
    assert forall n :: Entry(s', n, url) == Entry(s, n, url);
    FirstHolderAfterCut(s, s', url, k, i);
    MatchFirstHolder(s', url, if i < k then i else i - 1);
    MatchFirstHolder(s, url, i);
  }

  /** Whether `Cache.put` accepts the pair: the URL must be http(s) and the
      response must not be partial. */
  predicate PutAllowed(url: Url, resp: Response)
  {
    IsHttp(url) && resp.status != PartialContent
  }

  /** `cache.put(url, resp)` on the cache named `name`. A refused put, or a
      put on a cache that has been deleted, leaves the storage as it was. */
  function Put(s: Storage, name: CacheName, url: Url, resp: Response): (s': Storage)
    requires Valid(s)
    ensures Valid(s')
    ensures s'.order == s.order
    ensures Entry(s', name, url) == if name in s.caches && PutAllowed(url, resp) then Some(resp) else Entry(s, name, url)
    ensures ChangesAtMost(s, s', name, url)
  {
    if name in s.caches && PutAllowed(url, resp) then
      Storage(s.order, s.caches[name := s.caches[name][url := resp]])
    else s
  }

  /** `caches.open(name).then(cache => cache.put(url, resp))`, the write every
      fetch handler performs: the entry is stored unless `Cache.put` refuses
      it, and nothing else changes. */
  function OpenAndPut(s: Storage, name: CacheName, url: Url, resp: Response): (s': Storage)
    requires Valid(s)
    ensures Valid(s') && name in s'.caches
    ensures Entry(s', name, url) == if PutAllowed(url, resp) then Some(resp) else Entry(s, name, url)
    ensures ChangesAtMost(s, s', name, url)
  {
    Put(Open(s, name), name, url, resp)
  }

  /** Cache `name` is the first cache in creation order holding `url`. */
  ghost predicate FirstHolder(s: Storage, url: Url, i: int)
  {
    && 0 <= i < |s.order|
    && Entry(s, s.order[i], url).Some?
    && forall j | 0 <= j < i :: Entry(s, s.order[j], url).None?
  }

  function MatchFrom(s: Storage, url: Url, k: nat): (r: Option<Response>)
    requires k <= |s.order|
    ensures r.None? <==> forall i | k <= i < |s.order| :: Entry(s, s.order[i], url).None?
    decreases |s.order| - k
  {
    if k == |s.order| then None
    else if Entry(s, s.order[k], url).Some? then Entry(s, s.order[k], url)
    else MatchFrom(s, url, k + 1)
  }

  /** What matching from position `k` finds is the entry of the first cache
      at or after `k` that holds the URL. */
  lemma {:induction false} MatchFromFirst(s: Storage, url: Url, k: nat)
    requires k <= |s.order| && MatchFrom(s, url, k).Some?
    ensures exists i | k <= i < |s.order| ::
      && Entry(s, s.order[i], url) == MatchFrom(s, url, k)
      && forall j | k <= j < i :: Entry(s, s.order[j], url).None?
    decreases |s.order| - k
  {
    if Entry(s, s.order[k], url).Some? {
      assert Entry(s, s.order[k], url) == MatchFrom(s, url, k);
    } else {
      MatchFromFirst(s, url, k + 1);
      var i :| k + 1 <= i < |s.order|
        && Entry(s, s.order[i], url) == MatchFrom(s, url, k + 1)
        && forall j | k + 1 <= j < i :: Entry(s, s.order[j], url).None?;
      assert forall j | k <= j < i :: Entry(s, s.order[j], url).None?;
    }
  }

  /** `caches.match(url)`: the entry of the first cache, in creation order,
      that holds `url`; none when no cache holds it. */
  function Match(s: Storage, url: Url): (r: Option<Response>)
    ensures r.None? <==> forall n | n in s.order :: Entry(s, n, url).None?
    ensures r.Some? ==> exists i :: FirstHolder(s, url, i) && Entry(s, s.order[i], url) == r
  {
    var r := MatchFrom(s, url, 0);
    assert r.None? ==> forall n | n in s.order :: Entry(s, n, url).None? by {
      if r.None? {
        forall n | n in s.order ensures Entry(s, n, url).None? {
          var i :| 0 <= i < |s.order| && s.order[i] == n;
        }
      }
    }
    assert r.Some? ==> exists i :: FirstHolder(s, url, i) && Entry(s, s.order[i], url) == r by {
      if r.Some? {
        MatchFromFirst(s, url, 0);
        var i :| 0 <= i < |s.order|
          && Entry(s, s.order[i], url) == r
          && forall j | 0 <= j < i :: Entry(s, s.order[j], url).None?;
        assert FirstHolder(s, url, i);
      }
    }
    r
  }

  /** When only cache `name` can hold `url`, matching finds exactly its entry. */
  lemma MatchSoleHolder(s: Storage, name: CacheName, url: Url)
    requires Valid(s)
    requires forall n | n != name :: Entry(s, n, url).None?
    ensures Match(s, url) == Entry(s, name, url)
  {
    if Entry(s, name, url).Some? {
      assert name in s.order;
      var r := Match(s, url);
      assert r.Some?;
      var i :| FirstHolder(s, url, i) && Entry(s, s.order[i], url) == r;
      assert 0 <= i < |s.order|;
      assert s.order[i] == name;
    }
  }

  /** Matching finds the entry of the first cache holding the URL. */
  lemma MatchFirstHolder(s: Storage, url: Url, i: int)
    requires FirstHolder(s, url, i)
    ensures Match(s, url) == Entry(s, s.order[i], url)
  {
    var r := Match(s, url);
    assert s.order[i] in s.order;
    assert r.Some?;
    var k :| FirstHolder(s, url, k) && Entry(s, s.order[k], url) == r;
    assert k == i;
  }

  /** A write to cache `name` cannot change what matching finds when a cache
      created before `name` already holds the URL. */
  lemma MatchKeepsEarlierHolder(s: Storage, s': Storage, name: CacheName, url: Url, i: int)
    requires Valid(s) && ChangesAtMost(s, s', name, url)
    requires FirstHolder(s, url, i)
    requires forall j | 0 <= j <= i :: s.order[j] != name
    ensures Match(s', url) == Match(s, url)
  {
    assert forall j | 0 <= j <= i :: s'.order[j] == s.order[j];
    assert forall j | 0 <= j <= i :: Entry(s', s'.order[j], url) == Entry(s, s.order[j], url);
    assert FirstHolder(s', url, i);
    MatchFirstHolder(s, url, i);
    MatchFirstHolder(s', url, i);
  }

  /** A change confined to the entry `name`/`url` leaves matching any other URL as it was. */
  lemma {:induction false} MatchFromUnaffected(s: Storage, s': Storage, name: CacheName, url: Url, other: Url, k: nat)
    requires Valid(s) && ChangesAtMost(s, s', name, url) && other != url
    requires k <= |s.order|
    ensures MatchFrom(s', other, k) == MatchFrom(s, other, k)
    decreases |s.order| - k
  {
    if k == |s.order| {
      if s'.order != s.order {
        assert s'.order[k] == name;
        assert Entry(s', name, other) == Entry(s, name, other) == None;
        assert MatchFrom(s', other, k) == MatchFrom(s', other, k + 1);
      }
    } else {
      var n := s.order[k];
      assert s'.order[k] == n;
      assert Entry(s', n, other) == Entry(s, n, other);
      if Entry(s, n, other).None? {
        MatchFromUnaffected(s, s', name, url, other, k + 1);
      }
    }
  }

  lemma MatchUnaffected(s: Storage, s': Storage, name: CacheName, url: Url, other: Url)
    requires Valid(s) && ChangesAtMost(s, s', name, url) && other != url
    ensures Match(s', other) == Match(s, other)
  {
    MatchFromUnaffected(s, s', name, url, other, 0);
  }

  /** Each URL passes the checks of `addAll`: http(s), fetched, not a network
      error, an ok status, and not partial. */
  predicate Admissible(url: Url, f: Fetched)
  {
    && IsHttp(url)
    && f.Ok?
    && f.resp.kind != Error
    && OkStatus(f.resp.status)
    && f.resp.status != PartialContent
  }

  predicate AllAdmissible(urls: seq<Url>, net: Network)
  {
    forall i | 0 <= i < |urls| :: Admissible(urls[i], net(urls[i]))
  }

  /** The batch of puts `addAll` commits once every fetch has succeeded. */
  function PutAll(s: Storage, name: CacheName, urls: seq<Url>, net: Network): (s': Storage)
    requires Valid(s) && name in s.caches
    requires AllAdmissible(urls, net)
    ensures Valid(s') && s'.order == s.order && name in s'.caches
    ensures forall u | u in urls :: Entry(s', name, u) == Some(net(u).resp)
    ensures forall n, u | n != name || u !in urls :: Entry(s', n, u) == Entry(s, n, u)
    decreases |urls|
  {
    if urls == [] then s
    else
      var s1 := Put(s, name, urls[0], net(urls[0]).resp);
      PutAll(s1, name, urls[1..], net)
  }

  /** `cache.addAll(urls)` on cache `name`: all or nothing. It rejects (None)
      as soon as one URL is not admissible, leaving the storage untouched;
      otherwise every URL is stored with its fetched response. */
  function AddAll(s: Storage, name: CacheName, urls: seq<Url>, net: Network): (r: Option<Storage>)
    requires Valid(s) && name in s.caches
    ensures r.Some? <==> forall u | u in urls :: Admissible(u, net(u))
    ensures r.Some? ==> Valid(r.value) && r.value.order == s.order
    ensures r.Some? ==> forall u | u in urls :: Entry(r.value, name, u) == Some(net(u).resp)
    ensures r.Some? ==> forall n, u | n != name || u !in urls :: Entry(r.value, n, u) == Entry(s, n, u)
  {
    if AllAdmissible(urls, net) then Some(PutAll(s, name, urls, net)) else None
  }

  function Members(xs: seq<CacheName>): set<CacheName>
  {
    set n | n in xs
  }

  /** A list without repetitions has as many names as its set of members. */
  lemma {:induction false} DistinctSize(xs: seq<CacheName>)
    requires Distinct(xs)
    ensures |Members(xs)| == |xs|
  {
    if xs != [] {
      var tail := xs[1..];
      assert Distinct(tail);
      DistinctSize(tail);
      assert forall k | 0 <= k < |tail| :: tail[k] == xs[k + 1];
      assert xs[0] !in Members(tail);
      assert Members(xs) == {xs[0]} + Members(tail);
    }
  }

  lemma SingletonOrder(xs: seq<CacheName>, keep: CacheName)
    requires Distinct(xs)
    requires forall n :: n in xs <==> n == keep
    ensures xs == [keep]
  {
    assert Members(xs) == {keep};
    DistinctSize(xs);
    assert keep in xs;
  }

  lemma EmptyOrder(xs: seq<CacheName>)
    requires Distinct(xs)
    requires forall n :: n !in xs
    ensures xs == []
  {
    assert Members(xs) == {};
    DistinctSize(xs);
  }

  /** Deletes, one after the other, every cache in `names` other than `keep`. */
  function DeleteEach(s: Storage, names: seq<CacheName>, keep: CacheName): (s': Storage)
    requires Valid(s)
    ensures Valid(s')
    ensures forall n :: n in s'.caches <==> n in s.caches && (n == keep || n !in names)
    ensures forall n | n in s'.caches :: s'.caches[n] == s.caches[n]
    decreases |names|
  {
    if names == [] then s
    else
      var s1 := if names[0] != keep then Delete(s, names[0]) else s;
      DeleteEach(s1, names[1..], keep)
  }

  /** Deletes every cache whose name differs from `keep`: afterwards `keep`
      is the only name left (if it was present) and its entries are intact. */
  function DeleteAllExcept(s: Storage, keep: CacheName): (s': Storage)
    requires Valid(s)
    ensures Valid(s')
    ensures s'.order == if keep in s.caches then [keep] else []
    ensures keep in s.caches ==> s'.caches[keep] == s.caches[keep]
    ensures forall u :: Entry(s', keep, u) == Entry(s, keep, u)
  {
    var s' := DeleteEach(s, Keys(s), keep);
    assert s'.order == if keep in s.caches then [keep] else [] by {
      if keep in s.caches {
        SingletonOrder(s'.order, keep);
      } else {
        EmptyOrder(s'.order);
      }
    }
    s'
  }

  /** Once every cache but `keep` is gone, matching reads `keep` alone. */
  lemma MatchAfterDeleteAllExcept(s: Storage, keep: CacheName, url: Url)
    requires Valid(s)
    ensures Match(DeleteAllExcept(s, keep), url) == Entry(s, keep, url)
  {
    var s1 := DeleteAllExcept(s, keep);
    forall n | n != keep ensures Entry(s1, n, url).None? {
      assert n !in s1.order;
    }
    MatchSoleHolder(s1, keep, url);
  }
}
