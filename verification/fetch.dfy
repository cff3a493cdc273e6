/**
 The slice of the Fetch standard that the two service workers rely on:
 requests, responses, the outcome of a network fetch, relative URL
 resolution against the worker's location, and the two string tests the
 workers use (`startsWith` and `includes`).
 */
module Fetch {

  datatype Option<+T> = None | Some(value: T)

  type Url = string

  /** The `type` of a response, as the Fetch standard defines it. */
  datatype ResponseType = Basic | Cors | Default | Error | Opaque | OpaqueRedirect

  /** A response, reduced to what the workers inspect; the body stands for
      everything else (headers, stream) and is only ever copied. */
  datatype Response = Response(status: int, kind: ResponseType, body: string)

  /** A request: its method (`verb`, since `method` is a keyword), the
      absolute URL and its pathname. */
  datatype Request = Request(verb: string, url: Url, pathname: string)

  /** What `fetch(request)` settles to: a response (of any status), or a
      rejection because the network could not be reached. */
  datatype Fetched = Ok(resp: Response) | Fail

  /** The network as seen by one event: the outcome of fetching each URL. */
  type Network = Url -> Fetched

  /** Where the worker script lives: `https://host` and a directory such as
      `/tombolkd/`, against which relative URLs are resolved. The directory
      starts and ends with `/`; resolution relies on it and does not check it. */
  datatype Location = Location(origin: string, dir: string)

  /** `Response.error()`: a network error, of type error and status 0. */
  function ErrorResponse(): (r: Response)
    ensures r.kind == Error && r.status == 0
  {
    Response(0, Error, "")
  }

  /** An ok status is one in the range 200 to 299 inclusive. */
  predicate OkStatus(status: int)
  {
    200 <= status <= 299
  }

  /** `s.startsWith(p)`. */
  predicate StartsWith(s: string, p: string)
  {
    p <= s
  }

  /** `s.includes(sub)`: `sub` occurs somewhere in `s`. */
  predicate Includes(s: string, sub: string)
  {
    exists i | 0 <= i <= |s| :: sub <= s[i..]
  }

  predicate IsHttp(url: Url)
  {
    StartsWith(url, "http://") || StartsWith(url, "https://")
  }

  /** Resolution of the URL strings the workers pass to `addAll` and
      `caches.match`: absolute http(s) URLs stand as they are, `/path` is
      relative to the origin and `./path` (or a bare `path`) to the
      worker's directory. */
  function Resolve(loc: Location, ref: string): (u: Url)
    ensures IsHttp(ref) ==> u == ref
    ensures !IsHttp(ref) ==> loc.origin <= u
    ensures IsHttp(loc.origin) ==> IsHttp(u)
  {
    if IsHttp(ref) then ref
    else if StartsWith(ref, "/") then loc.origin + ref
    else if StartsWith(ref, "./") then loc.origin + loc.dir + ref[2..]
    else loc.origin + loc.dir + ref
  }

  /** Every string of `refs` resolved against `loc`, in order. */
  function ResolveAll(loc: Location, refs: seq<string>): (urls: seq<Url>)
    ensures |urls| == |refs|
    ensures forall i | 0 <= i < |refs| :: urls[i] == Resolve(loc, refs[i])
  {
    seq(|refs|, i requires 0 <= i < |refs| => Resolve(loc, refs[i]))
  }

  /** `sub` occurs in `s` at position `i`. */
  lemma IncludesAt(s: string, sub: string, i: nat)
    requires i <= |s| && sub <= s[i..]
    ensures Includes(s, sub)
  {
  }

  /** A string resolved against the origin contains the string itself. */
  lemma ResolvedIncludesReference(loc: Location, ref: string)
    requires IsHttp(ref) || StartsWith(ref, "/")
    ensures Includes(Resolve(loc, ref), ref)
  {
    var u := Resolve(loc, ref);
    if IsHttp(ref) {
      assert u[0..] == u;
      IncludesAt(u, ref, 0);
    } else {
      assert u[|loc.origin|..] == ref;
      IncludesAt(u, ref, |loc.origin|);
    }
  }

  /** An http(s) URL never starts with a browser-extension scheme. */
  lemma HttpIsNotExtension(url: Url)
    requires IsHttp(url)
    ensures !StartsWith(url, "chrome-extension://")
  {
    assert url[0] == 'h';
  }
}
