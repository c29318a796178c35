/** The service worker (sw.js): it pre-populates a cache generation on install,
    deletes every other generation on activate, and answers intercepted GET
    requests from the caches, writing successful network responses back.
    The browser's CacheStorage is modelled as an ordered list of cache names
    and a map from each name to its cache, a map from request URL to response. */
module ServiceWorker {
  import opened Wrappers
  import opened Strings

  /** The current cache generation. */
  const CACHE_NAME: string := "legalease-v1"

  /** The application shell stored on install. */
  const URLS_TO_CACHE: seq<string> := ["./", "./index.html", "./manifest.json", "https://cdn.tailwindcss.com"]

  /** Requests whose URL contains this host go to the text-simplification service. */
  const API_HOST: string := "generativelanguage.googleapis.com"

  /** The `type` of a Fetch response. */
  datatype ResponseType = Basic | Cors | Default | Error | Opaque | OpaqueRedirect

  datatype Response = Response(url: string, status: int, kind: ResponseType, body: string)

  datatype Request = Request(verb: string, url: string)

  /** What `fetch(request)` gave: a resolved value, absent or not, or a rejection
      (the network is unreachable). */
  datatype FetchOutcome = Resolved(response: Option<Response>) | Rejected

  /** What the fetch handler did: left the request to the browser, or answered it
      (with `null` when neither the caches nor the network had a response). */
  datatype FetchReply = PassThrough | RespondWith(response: Option<Response>)

  type Cache = map<string, Response>

  /** The cache at position `i` of `names` holds `url`. */
  predicate HoldsAt(names: seq<string>, caches: map<string, Cache>, url: string, i: int) {
    0 <= i < |names| && names[i] in caches && url in caches[names[i]]
  }

  /** `caches.match(request)` (section 5.5.1 of the W3C Service Workers
      specification): the response stored under `url` in the first cache, in
      name order, that holds one. */
  function Match(names: seq<string>, caches: map<string, Cache>, url: string): (r: Option<Response>)
    ensures r.None? <==> forall i | 0 <= i < |names| :: !HoldsAt(names, caches, url, i)
    ensures r.Some? ==> exists i | 0 <= i < |names| ::
      && HoldsAt(names, caches, url, i)
      && r.value == caches[names[i]][url]
      && forall j | 0 <= j < i :: !HoldsAt(names, caches, url, j)
    decreases |names|
  {
    if names == [] then None
    else if HoldsAt(names, caches, url, 0) then Some(caches[names[0]][url])
    else
      var r := Match(names[1..], caches, url);
      assert forall i | 1 <= i < |names| :: HoldsAt(names, caches, url, i) == HoldsAt(names[1..], caches, url, i - 1);
      assert forall j | 0 <= j < |names| - 1 :: HoldsAt(names[1..], caches, url, j) == HoldsAt(names, caches, url, j + 1);
      r
  }

  /** `cache.addAll` accepts a fetched response (section 5.4.4 of the W3C Service
      Workers specification): it is present, not a network error, and has an ok
      status other than 206. */
  predicate Storable(outcome: FetchOutcome) {
    && outcome.Resolved?
    && outcome.response.Some?
    && outcome.response.value.kind != Error
    && 200 <= outcome.response.value.status <= 299
    && outcome.response.value.status != 206
  }

  /** No string is listed twice. */
  predicate Distinct(s: seq<string>) {
    forall i, j | 0 <= i < j < |s| :: s[i] != s[j]
  }

  /** `cache.addAll(urls)`: all or nothing. The batch is rejected when it lists a
      request twice (Batch Cache Operations, section 5.4.4 of the W3C Service
      Workers specification, throws `InvalidStateError`) or when some URL does
      not fetch a storable response; the cache is then left as it was.
      Otherwise the cache gains all of them. */
  function AddAll(cache: Cache, urls: seq<string>, net: string -> FetchOutcome): (r: Option<Cache>)
    ensures r.Some? <==> Distinct(urls) && forall k | 0 <= k < |urls| :: Storable(net(urls[k]))
    ensures r.Some? ==> r.value.Keys == cache.Keys + (set k | 0 <= k < |urls| :: urls[k])
    ensures r.Some? ==> forall k | 0 <= k < |urls| :: r.value[urls[k]] == net(urls[k]).response.value
    ensures r.Some? ==> forall u | u in cache && u !in urls :: r.value[u] == cache[u]
  {
    if Distinct(urls) then PutEach(cache, urls, net) else None
  }

  /** The fetched responses of `urls` written one after the other, or `None` as
      soon as one is not storable. */
  function PutEach(cache: Cache, urls: seq<string>, net: string -> FetchOutcome): (r: Option<Cache>)
    ensures r.Some? <==> forall k | 0 <= k < |urls| :: Storable(net(urls[k]))
    ensures r.Some? ==> r.value.Keys == cache.Keys + (set k | 0 <= k < |urls| :: urls[k])
    ensures r.Some? ==> forall k | 0 <= k < |urls| :: r.value[urls[k]] == net(urls[k]).response.value
    ensures r.Some? ==> forall u | u in cache && u !in urls :: r.value[u] == cache[u]
    decreases |urls|
  {
    if urls == [] then Some(cache)
    else if !Storable(net(urls[0])) then None
    else
      var r := PutEach(cache[urls[0] := net(urls[0]).response.value], urls[1..], net);
      assert forall k | 1 <= k < |urls| :: urls[k] == urls[1..][k - 1];
      assert r.Some? ==> forall k | 0 <= k < |urls[1..]| :: urls[1..][k] == urls[k + 1];
      r
  }

  /** The shell lists each URL once, so its batch is rejected only for a
      response that cannot be stored. */
  lemma ShellIsDistinct()
    ensures Distinct(URLS_TO_CACHE)
  {
  }

  /** Every URL of the shell is shorter than the service host, so none of them
      addresses the service. */
  lemma ShellIsNotApi()
    ensures forall k | 0 <= k < |URLS_TO_CACHE| :: !Contains(URLS_TO_CACHE[k], API_HOST)
  {
    forall k | 0 <= k < |URLS_TO_CACHE| ensures !Contains(URLS_TO_CACHE[k], API_HOST) {
      assert |URLS_TO_CACHE[k]| < |API_HOST|;
    }
  }

  /** The requests the fetch handler answers: GET requests not addressed to the
      text-simplification service. */
  predicate Intercepts(request: Request) {
    request.verb == "GET" && !Contains(request.url, API_HOST)
  }

  /** The network responses the fetch handler writes back: present, status 200,
      and not a network error. */
  predicate Cacheable(response: Option<Response>) {
    response.Some? && response.value.status == 200 && response.value.kind != Error
  }

  /** The storage after `caches.open(CACHE_NAME)` and `cache.put(url, response)`:
      the current generation is created at the end of the order if absent, and
      maps `url` to `response`. */
  function Stored(names: seq<string>, caches: map<string, Cache>, url: string, response: Response): (seq<string>, map<string, Cache>) {
    var current := if CACHE_NAME in caches then caches[CACHE_NAME] else map[];
    (if CACHE_NAME in caches then names else names + [CACHE_NAME], caches[CACHE_NAME := current[url := response]])
  }

  /** Storage whose names are listed once each, in the order of `names`. */
  ghost predicate Consistent(names: seq<string>, caches: map<string, Cache>) {
    && (forall n :: n in caches <==> n in names)
    && Distinct(names)
  }

  /** After a write-on-miss, the stored response is what a later request for the
      same URL is served, without the network. */
  lemma StoredIsServed(names: seq<string>, caches: map<string, Cache>, url: string, response: Response)
    requires Consistent(names, caches)
    requires Match(names, caches, url).None?
    ensures Match(Stored(names, caches, url, response).0, Stored(names, caches, url, response).1, url) == Some(response)
  {
    var (names', caches') := Stored(names, caches, url, response);
    var i :| 0 <= i < |names'| && names'[i] == CACHE_NAME;
    forall j | 0 <= j < |names'| && j != i ensures !HoldsAt(names', caches', url, j) {
      if j < |names| {
        assert !HoldsAt(names, caches, url, j);
        if CACHE_NAME in caches {
          assert names[j] != names[i];
        }
        assert names'[j] == names[j];
      }
    }
    assert HoldsAt(names', caches', url, i);
  }

  /** `names` without any occurrence of `name`, in order (`caches.delete`). */
  function Without(names: seq<string>, name: string): (r: seq<string>)
    ensures forall n :: n in r <==> n in names && n != name
    ensures Distinct(names) ==> Distinct(r)
    decreases |names|
  {
    if names == [] then []
    else
      var rest := Without(names[1..], name);
      assert names[0] !in names[1..] ==> names[0] !in rest;
      assert forall n :: n in names <==> n == names[0] || n in names[1..];
      if names[0] == name then rest else [names[0]] + rest
  }

  /** Removing a name keeps the relative order of the names that remain: any two
      of them appear in `names` in the same order. */
  lemma {:induction false} WithoutKeepsOrder(names: seq<string>, name: string, i: int, j: int)
    requires 0 <= i < j < |Without(names, name)|
    ensures exists a, b | 0 <= a < b < |names| ::
              names[a] == Without(names, name)[i] && names[b] == Without(names, name)[j]
    decreases |names|
  {
    var r, rest := Without(names, name), Without(names[1..], name);
    if names[0] == name {
      assert r == rest;
      WithoutKeepsOrder(names[1..], name, i, j);
      var a, b :| 0 <= a < b < |names[1..]| && names[1..][a] == rest[i] && names[1..][b] == rest[j];
      assert names[a + 1] == r[i] && names[b + 1] == r[j];
    } else {
      assert r == [names[0]] + rest;
      if i == 0 {
        assert rest[j - 1] in rest;
        var b :| 0 <= b < |names[1..]| && names[1..][b] == rest[j - 1];
        assert names[0] == r[i] && names[b + 1] == r[j];
      } else {
        WithoutKeepsOrder(names[1..], name, i - 1, j - 1);
        var a, b :| 0 <= a < b < |names[1..]| && names[1..][a] == rest[i - 1] && names[1..][b] == rest[j - 1];
        assert names[a + 1] == r[i] && names[b + 1] == r[j];
      }
    }
  }

  /** The worker's view of CacheStorage. */
  class Worker {
    var names: seq<string>
    var caches: map<string, Cache>
    /** The application shell this worker pre-caches, `URLS_TO_CACHE`. */
    const shell: seq<string>

    ghost predicate Valid()
      reads this
    {
      && Consistent(names, caches)
      && Distinct(shell)
      && forall k | 0 <= k < |shell| :: !Contains(shell[k], API_HOST)
    }

    /** No cache holds a response for the text-simplification service. */
    ghost predicate ApiFree()
      reads this
    {
      forall n, u | n in caches && u in caches[n] :: !Contains(u, API_HOST)
    }

    constructor ()
      ensures Valid() && ApiFree()
      ensures names == [] && caches == map[]
      ensures shell == URLS_TO_CACHE
    {
      names := [];
      caches := map[];
      shell := URLS_TO_CACHE;
      ShellIsNotApi();
      ShellIsDistinct();
    }

    /** `caches.open(name)`: the cache, created empty at the end of the order if
        absent. */
    method Open(name: string)
      requires Valid()
      modifies this
      ensures Valid()
      ensures name in caches
      ensures old(name in caches) ==> names == old(names) && caches == old(caches)
      ensures old(name !in caches) ==> names == old(names) + [name] && caches == old(caches)[name := map[]]
    {
      if name !in caches {
        names := names + [name];
        caches := caches[name := map[]];
      }
    }

    /** `caches.delete(name)`. */
    method Delete(name: string)
      requires Valid()
      modifies this
      ensures Valid()
      ensures names == Without(old(names), name)
      ensures caches == old(caches) - {name}
    {
      names := Without(names, name);
      caches := caches - {name};
    }

    /** The install handler: open the current generation and `addAll` the shell;
        a rejected batch is swallowed and install completes all the same. */
    method Install(net: string -> FetchOutcome)
      requires Valid()
      modifies this
      ensures Valid()
      ensures names == if CACHE_NAME in old(caches) then old(names) else old(names) + [CACHE_NAME]
      ensures var before := if CACHE_NAME in old(caches) then old(caches)[CACHE_NAME] else map[];
              caches == old(caches)[CACHE_NAME := AddAll(before, shell, net).GetOr(before)]
      // the shell lists no URL twice, so a batch of storable responses is stored whole
      ensures (forall k | 0 <= k < |shell| :: Storable(net(shell[k]))) ==>
                forall k | 0 <= k < |shell| :: caches[CACHE_NAME][shell[k]] == net(shell[k]).response.value
      ensures old(ApiFree()) ==> ApiFree()
    {
      Open(CACHE_NAME);
      StoreBatch(CACHE_NAME, shell, net);
    }

    /** `cache.addAll(urls)` on the cache `name`, with a rejected batch leaving
        the cache as it was. */
    method StoreBatch(name: string, urls: seq<string>, net: string -> FetchOutcome)
      requires Valid() && name in caches
      modifies this
      ensures Valid()
      ensures names == old(names)
      ensures caches == old(caches)[name := AddAll(old(caches)[name], urls, net).GetOr(old(caches)[name])]
      ensures old(ApiFree()) && (forall k | 0 <= k < |urls| :: !Contains(urls[k], API_HOST)) ==> ApiFree()
    {
      var added := AddAll(caches[name], urls, net);
      if added.Some? {
        forall u | u in added.value && u !in caches[name] ensures exists k | 0 <= k < |urls| :: urls[k] == u {
          assert u in (set k | 0 <= k < |urls| :: urls[k]);
        }
        caches := caches[name := added.value];
      }
    }

    /** The activate handler: delete every cache whose name is not the current
        generation; the current generation is kept as it is. */
    method Activate()
      requires Valid()
      modifies this
      ensures Valid()
      ensures caches.Keys == old(caches).Keys * {CACHE_NAME}
      ensures CACHE_NAME in old(caches) ==> caches[CACHE_NAME] == old(caches)[CACHE_NAME]
      ensures forall n :: n in names <==> n == CACHE_NAME && n in old(caches)
      ensures old(ApiFree()) ==> ApiFree()
    {
      var cacheNames := names;
      var i := 0;
      while i < |cacheNames|
        invariant 0 <= i <= |cacheNames|
        invariant Valid()
        invariant forall n :: n in caches <==> n in old(caches) && (n == CACHE_NAME || n !in cacheNames[..i])
        invariant forall n | n in caches :: caches[n] == old(caches)[n]
      {
        if cacheNames[i] != CACHE_NAME {
          Delete(cacheNames[i]);
        }
        i := i + 1;
      }
      assert cacheNames[..i] == cacheNames;
    }

    /** `caches.open(CACHE_NAME)` followed by `cache.put(url, response)`. */
    method Put(url: string, response: Response)
      requires Valid()
      modifies this
      ensures Valid()
      ensures (names, caches) == Stored(old(names), old(caches), url, response)
      ensures old(ApiFree()) && !Contains(url, API_HOST) ==> ApiFree()
    {
      ghost var after := Stored(names, caches, url, response);
      Open(CACHE_NAME);
      caches := caches[CACHE_NAME := caches[CACHE_NAME][url := response]];
      assert names == after.0;
      assert caches == after.1;
    }

    /** The fetch handler with `network` the outcome `fetch(request)` would have.
        `usedNetwork` says whether the handler asked the network at all. */
    method HandleFetch(request: Request, network: FetchOutcome) returns (reply: FetchReply, usedNetwork: bool)
      requires Valid()
      modifies this
      ensures Valid()
      ensures old(ApiFree()) ==> ApiFree()
      // requests left to the browser: the caches are neither read nor written
      ensures !Intercepts(request) ==>
                reply == PassThrough && !usedNetwork && names == old(names) && caches == old(caches)
      // a cache hit is answered from the caches alone
      ensures Intercepts(request) && Match(old(names), old(caches), request.url).Some? ==>
                && reply == RespondWith(Match(old(names), old(caches), request.url))
                && !usedNetwork && names == old(names) && caches == old(caches)
      // a miss goes to the network; only a cacheable response is written back
      ensures Intercepts(request) && Match(old(names), old(caches), request.url).None? ==>
                && usedNetwork
                && reply == RespondWith(if network.Resolved? then network.response else None)
                && (names, caches) == if network.Resolved? && Cacheable(network.response)
                                      then Stored(old(names), old(caches), request.url, network.response.value)
                                      else (old(names), old(caches))
    {
      if !Intercepts(request) {
        return PassThrough, false;
      }
      var hit := Match(names, caches, request.url);
      if hit.Some? {
        return RespondWith(hit), false;
      }
      match network
      case Rejected =>
        return RespondWith(None), true;
      case Resolved(response) =>
        if response.None? || response.value.status != 200 || response.value.kind == Error {
          return RespondWith(response), true;
        }
        Put(request.url, response.value);
        return RespondWith(response), true;
    }
  }
}
