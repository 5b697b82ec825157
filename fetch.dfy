/**
 * `httpGet`: builds the request URL from a base URL and query parameters,
 * answers from the cache when the headers allow it, applies the host's rate
 * limit, then tries the request up to `retries + 1` times with exponential
 * backoff, caching a successful response that is not too large.
 *
 * The network is an input: `outcome(k)` is what attempt `k` observes.
 */
module Fetch {
  import opened Wrappers
  import opened Strings
  import ResponseCache
  import RateLimiting

  // ---------------------------------------------------------------------
  // Options
  // ---------------------------------------------------------------------

  /** A numeric option: not present, present with the value `undefined`, or a number. */
  datatype Setting = Absent | Undefined | Given(n: int)

  /** A query value as the caller may pass it. */
  datatype QueryValue = QUndefined | QNull | QText(text: string) | QNumber(n: int) | QBool(b: bool)

  datatype HttpOptions = HttpOptions(
    headers: Option<map<string, string>>,
    timeoutMs: Setting,
    query: Option<seq<(string, QueryValue)>>,
    retries: Setting,
    retryDelayMs: Setting)

  /** A destructuring default: it applies when the option is missing or `undefined`. */
  function Resolve(s: Setting, default: int): (v: int)
    ensures s.Given? ==> v == s.n
    ensures !s.Given? ==> v == default
  {
    if s.Given? then s.n else default
  }

  function EffectiveRetries(opts: HttpOptions): int { Resolve(opts.retries, 2) }
  function EffectiveDelay(opts: HttpOptions): int { Resolve(opts.retryDelayMs, 1000) }

  /** `{ retries: 3, ...opts }`: a `retries` key in `opts`, even one holding `undefined`, overrides the 3. */
  function WithRetryDefaults(opts: HttpOptions): (r: HttpOptions)
    ensures r.headers == opts.headers && r.query == opts.query
    ensures r.timeoutMs == opts.timeoutMs && r.retryDelayMs == opts.retryDelayMs
  {
    if opts.retries.Absent? then opts.(retries := Given(3)) else opts
  }

  /** `httpGetWithRetry` tries four times by default, but an explicit `retries: undefined` falls back to `httpGet`'s default. */
  lemma WithRetryRetries(opts: HttpOptions)
    ensures opts.retries.Absent? ==> EffectiveRetries(WithRetryDefaults(opts)) == 3
    ensures opts.retries.Undefined? ==> EffectiveRetries(WithRetryDefaults(opts)) == 2
    ensures opts.retries.Given? ==> EffectiveRetries(WithRetryDefaults(opts)) == opts.retries.n
  {
  }

  // ---------------------------------------------------------------------
  // URL
  // ---------------------------------------------------------------------

  /** A parsed URL: what precedes the path, the host name, the path and the search parameters in order. */
  datatype Url = Url(origin: string, hostname: string, pathname: string, params: seq<(string, string)>)

  /** `String(v)` for the values that are set; `undefined`, `null` and `''` are skipped, `0` and `false` are not. */
  function QueryText(v: QueryValue): (t: Option<string>)
    ensures t.Some? <==> !(v.QUndefined? || v.QNull? || v == QText(""))
  {
    match v
    case QUndefined => None
    case QNull => None
    case QText(s) => if s == "" then None else Some(s)
    case QNumber(n) => Some(IntToString(n))
    case QBool(b) => Some(if b then "true" else "false")
  }

  /** The pairs of `ps` named `name`, in order. */
  function Named(ps: seq<(string, string)>, name: string): (r: seq<(string, string)>)
    ensures forall p :: p in r <==> p in ps && p.0 == name
  {
    if ps == [] then []
    else (if ps[0].0 == name then [ps[0]] else []) + Named(ps[1..], name)
  }

  /** The pairs of `ps` not named `name`, in order. */
  function Without(ps: seq<(string, string)>, name: string): (r: seq<(string, string)>)
    ensures forall p :: p in r <==> p in ps && p.0 != name
    ensures forall other :: other != name ==> Named(r, other) == Named(ps, other)
    ensures Named(r, name) == []
  {
    if ps == [] then []
    else
      var tail := Without(ps[1..], name);
      assert forall p :: p in ps <==> p == ps[0] || p in ps[1..];
      if ps[0].0 == name then tail
      else
        var r := [ps[0]] + tail;
        assert r[0] == ps[0] && r[1..] == tail;
        r
  }

  /**
   * `searchParams.set(name, value)`: the first pair named `name` takes the new
   * value and the others are removed; with no such pair, one is appended.
   */
  function SetParam(ps: seq<(string, string)>, name: string, value: string): (r: seq<(string, string)>)
    ensures Named(r, name) == [(name, value)]
    ensures forall other :: other != name ==> Named(r, other) == Named(ps, other)
  {
    if ps == [] then [(name, value)]
    else if ps[0].0 == name then [(name, value)] + Without(ps[1..], name)
    else [ps[0]] + SetParam(ps[1..], name, value)
  }

  /**
   * The parameters after the query loop over `query` (in `Object.entries`
   * order). Every resulting parameter is one of the base URL's or one the
   * query sets.
   */
  function ApplyQuery(ps: seq<(string, string)>, query: seq<(string, QueryValue)>): (r: seq<(string, string)>)
    ensures forall p :: p in r ==> p in ps || exists i :: 0 <= i < |query| && query[i].0 == p.0 && QueryText(query[i].1) == Some(p.1)
  {
    if query == [] then ps
    else
      var n := |query| - 1;
      var prev := ApplyQuery(ps, query[..n]);
      assert forall i :: 0 <= i < n ==> query[..n][i] == query[i];
      match QueryText(query[n].1)
      case Some(t) =>
        var r := SetParam(prev, query[n].0, t);
        assert forall p :: p in r ==> p in Named(r, p.0);
        r
      case None => prev
  }

  /** The names of a query, which `Object.entries` lists once each. */
  predicate DistinctNames(query: seq<(string, QueryValue)>) {
    forall i, j :: 0 <= i < j < |query| ==> query[i].0 != query[j].0
  }

  /** After the query loop a name whose value is set occurs exactly once, with its value. */
  lemma {:induction false} ApplyQuerySet(ps: seq<(string, string)>, query: seq<(string, QueryValue)>, i: nat)
    requires DistinctNames(query) && i < |query| && QueryText(query[i].1).Some?
    ensures Named(ApplyQuery(ps, query), query[i].0) == [(query[i].0, QueryText(query[i].1).value)]
  {
    var n := |query| - 1;
    var prefix := query[..n];
    var name := query[i].0;
    if i < n {
      assert prefix[i] == query[i];
      assert DistinctNames(prefix);
      ApplyQuerySet(ps, prefix, i);
      assert query[n].0 != name;
      assert Named(ApplyQuery(ps, query), name) == Named(ApplyQuery(ps, prefix), name);
    }
  }

  /** A name the query does not set keeps the pairs the base URL gave it. */
  lemma {:induction false} ApplyQueryUnset(ps: seq<(string, string)>, query: seq<(string, QueryValue)>, name: string)
    requires forall i :: 0 <= i < |query| && query[i].0 == name ==> QueryText(query[i].1).None?
    ensures Named(ApplyQuery(ps, query), name) == Named(ps, name)
  {
    if query != [] {
      var n := |query| - 1;
      var prefix := query[..n];
      assert forall i :: 0 <= i < n ==> prefix[i] == query[i];
      ApplyQueryUnset(ps, prefix, name);
    }
  }

  /** `url.toString()` without percent-encoding. */
  function UrlString(u: Url): string {
    var pairs := seq(|u.params|, i requires 0 <= i < |u.params| => u.params[i].0 + "=" + u.params[i].1);
    u.origin + u.pathname + (if pairs == [] then "" else "?" + Join(pairs, "&"))
  }

  /** The query loop of `httpGet`. */
  method BuildUrl(base: Url, query: seq<(string, QueryValue)>) returns (url: Url)
    ensures url == base.(params := ApplyQuery(base.params, query))
  {
    url := base;
    for i := 0 to |query|
      invariant url == base.(params := ApplyQuery(base.params, query[..i]))
    {
      assert query[..i + 1][..i] == query[..i];
      var (k, v) := query[i];
      if v != QUndefined && v != QNull && v != QText("") {
        url := url.(params := SetParam(url.params, k, QueryText(v).value));
      }
    }
    assert query[..|query|] == query;
  }

  /** Whether the cache is consulted: no headers at all, or a non-empty `User-Agent` and nothing else. */
  function MayReadCache(headers: map<string, string>): (b: bool)
    ensures b <==> headers.Keys == {} || (headers.Keys == {"User-Agent"} && headers["User-Agent"] != "")
  {
    if |headers| == 1 && "User-Agent" in headers then
      assert |headers.Keys - {"User-Agent"}| == 0;
      headers["User-Agent"] != ""
    else
      assert headers.Keys == {} ==> |headers| == 0;
      |headers| == 0
  }

  // ---------------------------------------------------------------------
  // Attempts
  // ---------------------------------------------------------------------

  /** A thrown value: a `TypeError`, another `Error` with its `name`, or something that is not an `Error`. */
  datatype Thrown = TypeError(message: string) | NamedError(name: string, message: string) | NonError

  /** A response body as parsed: JSON `null`, or any other value (its text). */
  datatype Body = Null | Value(text: string)

  /** What one attempt observes: a 2xx response with its body and its serialised size, another status, or a thrown value. */
  datatype Outcome = Success(body: Body, size: nat) | HttpStatus(code: int, statusText: string, errorBody: string) | Failure(error: Thrown)

  const RetryableStatuses: set<int> := {408, 429, 500, 502, 503, 504}

  /** `isRetryableError(error, status)`. */
  predicate IsRetryableError(error: Thrown, status: Option<int>) {
    (error.TypeError? && Includes(error.message, "fetch"))
    || (error.NamedError? && error.name == "AbortError")
    || (status.Some? && status.value != 0 && status.value in RetryableStatuses)
  }

  /**
   * The three reasons to retry: a `TypeError` whose message mentions `fetch`
   * (such as the `Failed to fetch` of a network failure), an `AbortError`
   * from the timeout, or one of the listed statuses. An error with none of
   * them is not retried, and a plain `Error` is judged by its status alone.
   */
  lemma RetryableErrorCases(message: string, name: string, status: Option<int>)
    ensures Includes(message, "fetch") ==> IsRetryableError(TypeError(message), status)
    ensures IsRetryableError(TypeError("Failed to fetch"), status)
    ensures IsRetryableError(NamedError("AbortError", message), status)
    ensures IsRetryableError(NonError, status) <==> status.Some? && status.value in RetryableStatuses
    ensures name != "AbortError" ==>
      (IsRetryableError(NamedError(name, message), status) <==> status.Some? && status.value in RetryableStatuses)
    ensures !Includes(message, "fetch") ==>
      (IsRetryableError(TypeError(message), status) <==> status.Some? && status.value in RetryableStatuses)
  {
    assert StartsWith("Failed to fetch"[10..], "fetch");
  }

  /** The error thrown for a non-2xx response; the body is cut to its first 400 characters. */
  function HttpError(code: int, statusText: string, url: string, body: string): (e: Thrown)
    ensures e.NamedError? && e.name == "Error"
    ensures StartsWith(e.message, "HTTP ")
    ensures var tail := Prefix(body, 400);
      |tail| <= 400 && |tail| <= |e.message| && e.message[|e.message| - |tail|..] == tail
  {
    var head := "HTTP " + IntToString(code) + " " + statusText + " \U{2014} " + url + " \U{2014} ";
    var tail := Prefix(body, 400);
    assert (head + tail)[|head|..] == tail;
    assert (head + tail)[..5] == "HTTP ";
    NamedError("Error", head + tail)
  }

  const UnknownError: Thrown := NamedError("Error", "Unknown error occurred during HTTP request")

  /** An HTTP error is judged by its status only: rethrown inside the loop it is never retryable. */
  lemma HttpErrorRetry(code: int, statusText: string, url: string, body: string)
    ensures !IsRetryableError(HttpError(code, statusText, url, body), None)
    ensures IsRetryableError(HttpError(code, statusText, url, body), Some(code)) <==> code in RetryableStatuses
  {
  }

  /** The error an unsuccessful attempt ends with. */
  function ErrorOf(o: Outcome, url: string): Thrown
    requires !o.Success?
  {
    match o
    case HttpStatus(code, text, body) => HttpError(code, text, url, body)
    case Failure(e) => e
  }

  /** An unsuccessful attempt may be retried: by its status, or (once rethrown) by the error itself. */
  predicate Retryable(o: Outcome, url: string) {
    match o
    case Success(_, _) => false
    case HttpStatus(code, _, _) =>
      IsRetryableError(ErrorOf(o, url), Some(code)) || IsRetryableError(ErrorOf(o, url), None)
    case Failure(e) => IsRetryableError(e, None)
  }

  /** How the attempt loop ends: returning at some attempt, throwing at some attempt, or running out of attempts. */
  datatype LoopEnd = Returned(attempt: nat, body: Body, size: nat) | Threw(attempt: nat, error: Thrown) | FellThrough

  /** The attempt loop from attempt `attempt` on. */
  function RunAttempts(outcome: nat -> Outcome, url: string, retries: int, attempt: nat): (e: LoopEnd)
    ensures e.Returned? ==> attempt <= e.attempt <= retries && outcome(e.attempt).Success?
    ensures e.Threw? ==> attempt <= e.attempt <= retries
    ensures e.FellThrough? <==> attempt > retries
    decreases if attempt <= retries then retries - attempt + 1 else 0
  {
    if attempt > retries then FellThrough
    else
      var o := outcome(attempt);
      if o.Success? then Returned(attempt, o.body, o.size)
      else if attempt < retries && Retryable(o, url) then RunAttempts(outcome, url, retries, attempt + 1)
      else Threw(attempt, ErrorOf(o, url))
  }

  function Pow2(k: nat): (p: nat)
    ensures p >= 1
  {
    if k == 0 then 1 else 2 * Pow2(k - 1)
  }

  /** The backoff waits before attempts 1 .. n: `retryDelayMs * 2^k` after attempt `k`. */
  function Backoff(retryDelayMs: int, n: nat): (w: seq<int>)
    ensures |w| == n
    ensures forall k :: 0 <= k < n ==> w[k] == retryDelayMs * Pow2(k)
  {
    if n == 0 then [] else Backoff(retryDelayMs, n - 1) + [retryDelayMs * Pow2(n - 1)]
  }

  /** The number of retries a loop that ended with `e` performed. */
  function RetriesTaken(e: LoopEnd): nat {
    match e
    case Returned(a, _, _) => a
    case Threw(a, _) => a
    case FellThrough => 0
  }

  /** The attempt loop of `httpGet`: the way it ends and the backoff waits it performed. */
  method AttemptLoop(outcome: nat -> Outcome, url: string, retries: int, retryDelayMs: int)
    returns (end: LoopEnd, waits: seq<int>)
    ensures end == RunAttempts(outcome, url, retries, 0)
    ensures waits == Backoff(retryDelayMs, RetriesTaken(end))
  {
    var attempt: nat := 0;
    waits := [];
    while attempt <= retries
      invariant RunAttempts(outcome, url, retries, 0) == RunAttempts(outcome, url, retries, attempt)
      invariant attempt > 0 ==> attempt <= retries
      invariant waits == Backoff(retryDelayMs, attempt)
      decreases retries - attempt
    {
      var o := outcome(attempt);
      var thrown: Thrown;
      if o.HttpStatus? {
        var error := HttpError(o.code, o.statusText, url, o.errorBody);
        if attempt < retries && IsRetryableError(error, Some(o.code)) {
          assert RunAttempts(outcome, url, retries, attempt) == RunAttempts(outcome, url, retries, attempt + 1);
          waits := waits + [retryDelayMs * Pow2(attempt)];
          attempt := attempt + 1;
          continue;
        }
        thrown := error;
      } else if o.Failure? {
        thrown := o.error;
      } else {
        return Returned(attempt, o.body, o.size), waits;
      }
      assert thrown == ErrorOf(o, url);
      // the catch block
      if attempt < retries && IsRetryableError(thrown, None) {
        assert RunAttempts(outcome, url, retries, attempt) == RunAttempts(outcome, url, retries, attempt + 1);
        waits := waits + [retryDelayMs * Pow2(attempt)];
        attempt := attempt + 1;
        continue;
      }
      assert RunAttempts(outcome, url, retries, attempt) == Threw(attempt, thrown);
      return Threw(attempt, thrown), waits;
    }
    end := FellThrough;
  }

  /** At most `retries + 1` attempts are made, and none at all when `retries` is negative. */
  lemma AttemptsBound(outcome: nat -> Outcome, url: string, retries: int)
    ensures var e := RunAttempts(outcome, url, retries, 0);
      (e.FellThrough? <==> retries < 0) && (!e.FellThrough? ==> RetriesTaken(e) <= retries)
  {
  }

  /** A failure that is not retryable ends the loop at once. */
  lemma NonRetryableStops(outcome: nat -> Outcome, url: string, retries: int)
    requires retries >= 0
    requires !outcome(0).Success? && !Retryable(outcome(0), url)
    ensures RunAttempts(outcome, url, retries, 0) == Threw(0, ErrorOf(outcome(0), url))
  {
  }

  /** A 404 response is thrown after a single attempt, whatever `retries` is. */
  lemma NotFoundFailsOnce(outcome: nat -> Outcome, url: string, retries: int)
    requires retries >= 0 && outcome(0).HttpStatus? && outcome(0).code == 404
    ensures RunAttempts(outcome, url, retries, 0).Threw?
    ensures RunAttempts(outcome, url, retries, 0).attempt == 0
  {
    HttpErrorRetry(404, outcome(0).statusText, url, outcome(0).errorBody);
  }

  /** Retryable failures on attempts `from .. n-1` and a success on attempt `n <= retries` return that success. */
  lemma {:induction false} TransientThenSuccess(outcome: nat -> Outcome, url: string, retries: int, from: nat, n: nat)
    requires from <= n <= retries
    requires forall k :: from <= k < n ==> !outcome(k).Success? && Retryable(outcome(k), url)
    requires outcome(n).Success?
    ensures RunAttempts(outcome, url, retries, from) == Returned(n, outcome(n).body, outcome(n).size)
    decreases n - from
  {
    if from < n {
      TransientThenSuccess(outcome, url, retries, from + 1, n);
    }
  }

  /** When every attempt fails retryably, the loop throws the last attempt's error after `retries` backoff waits. */
  lemma {:induction false} RetriesExhausted(outcome: nat -> Outcome, url: string, retries: int, from: nat)
    requires from <= retries
    requires forall k :: from <= k <= retries ==> !outcome(k).Success? && Retryable(outcome(k), url)
    ensures RunAttempts(outcome, url, retries, from) == Threw(retries, ErrorOf(outcome(retries), url))
    decreases retries - from
  {
    if from < retries {
      RetriesExhausted(outcome, url, retries, from + 1);
    }
  }

  // ---------------------------------------------------------------------
  // httpGet
  // ---------------------------------------------------------------------

  /** What `httpGet` resolves or rejects with. */
  datatype HttpResult = Resolved(body: Body) | Rejected(error: Thrown)

  /** Responses whose serialisation is at least this long are not cached. */
  const MaxCachedSize: nat := 100000

  /** The promise's settlement once the attempt loop has ended with `e`. */
  function Settle(e: LoopEnd): (r: HttpResult)
    ensures e.FellThrough? ==> r == Rejected(UnknownError)
  {
    match e
    case Returned(_, body, _) => Resolved(body)
    case Threw(_, error) => Rejected(error)
    case FellThrough => Rejected(UnknownError)
  }

  /** The response that is stored in the cache after the loop ended with `e`, if any. */
  function ToCache(e: LoopEnd): (c: Option<Body>)
    ensures c.Some? <==> e.Returned? && e.size < MaxCachedSize
    ensures c.Some? ==> c.value == e.body
  {
    if e.Returned? && e.size < MaxCachedSize then Some(e.body) else None
  }

  /**
   * `getRateLimiter(baseUrl)` and, for a limited host, `checkLimit()` at
   * `now`: the host's limiter records `now` after dropping the timestamps that
   * left its window, and every other host's limiter is left alone.
   */
  method WaitForLimit(limiters: RateLimiting.RateLimiters, host: string, now: int) returns (rateWait: int)
    requires limiters.Valid()
    modifies limiters, limiters.limiters.Values
    ensures limiters.Valid()
    ensures RateLimiting.LimitFor(host).None? ==> rateWait == 0 && limiters.limiters == old(limiters.limiters)
    ensures RateLimiting.LimitFor(host).Some? ==>
      var limit := RateLimiting.LimitFor(host).value;
      var before := if host in old(limiters.limiters) then old(limiters.limiters[host].requests) else [];
      var filtered := RateLimiting.InWindow(before, now, limit.1);
      && host in limiters.limiters
      && limiters.limiters == old(limiters.limiters)[host := limiters.limiters[host]]
      && limiters.limiters[host].requests == filtered + [now]
      && rateWait == RateLimiting.Delay(filtered, now, limit.0, limit.1)
    ensures forall h :: h in old(limiters.limiters) && h != host ==>
      h in limiters.limiters && limiters.limiters[h].requests == old(limiters.limiters[h].requests)
  {
    rateWait := 0;
    var limiter := limiters.Get(host);
    if limiter != null {
      rateWait := limiter.CheckLimit(now);
    }
  }

  /** The request URL `httpGet` builds from the base URL and the query. */
  function RequestUrl(base: Url, opts: HttpOptions): string {
    UrlString(base.(params := ApplyQuery(base.params, opts.query.GetOr([]))))
  }

  /** What the cache read yields: the lookup result when the headers allow a read, else nothing. */
  function CacheRead(entries: map<string, ResponseCache.Entry<Body>>, headers: map<string, string>, url: string, now: int, ttlMs: int): Option<Body> {
    if MayReadCache(headers) then ResponseCache.Lookup(entries, url, now, ttlMs) else None
  }

  /** The entries the cache read leaves: `get` may delete the key, and no read changes nothing. */
  function EntriesAfterRead(entries: map<string, ResponseCache.Entry<Body>>, headers: map<string, string>, url: string, now: int, ttlMs: int): map<string, ResponseCache.Entry<Body>> {
    if MayReadCache(headers) then ResponseCache.AfterGet(entries, url, now, ttlMs) else entries
  }

  /** `cached !== null`: a cached JSON `null` does not count as a hit. */
  predicate IsHit(cached: Option<Body>) {
    cached.Some? && cached.value != Null
  }

  /** The entries after the loop ended with `e`: a small enough success is stored at `storedAt`. */
  function EntriesAfterLoop(entries: map<string, ResponseCache.Entry<Body>>, url: string, e: LoopEnd, storedAt: int, ttlMs: int): map<string, ResponseCache.Entry<Body>> {
    match ToCache(e)
    case Some(body) => ResponseCache.Store(entries, url, body, storedAt, ttlMs)
    case None => entries
  }

  /** The cache check of `httpGet`: a `get` only when the headers allow it. */
  method ReadCache(cache: ResponseCache.Cache<Body>, headers: map<string, string>, url: string, now: int) returns (cached: Option<Body>)
    modifies cache
    ensures cached == CacheRead(old(cache.entries), headers, url, now, cache.ttlMs)
    ensures cache.entries == EntriesAfterRead(old(cache.entries), headers, url, now, cache.ttlMs)
  {
    cached := None;
    if MayReadCache(headers) {
      cached := cache.Get(url, now);
    }
  }

  /**
   * The part of `httpGet` after a cache miss: the rate limit for `host`, the
   * attempt loop on `url`, and the cache write of a small enough success at
   * `storedAt`.
   */
  method FetchUncached(cache: ResponseCache.Cache<Body>, limiters: RateLimiting.RateLimiters, host: string, url: string,
                       opts: HttpOptions, now: int, storedAt: int, outcome: nat -> Outcome)
    returns (result: HttpResult, rateWait: int, waits: seq<int>, end: LoopEnd)
    requires limiters.Valid()
    modifies cache, limiters, limiters.limiters.Values
    ensures limiters.Valid()
    ensures end == RunAttempts(outcome, url, EffectiveRetries(opts), 0)
    ensures result == Settle(end)
    ensures waits == Backoff(EffectiveDelay(opts), RetriesTaken(end))
    ensures cache.entries == EntriesAfterLoop(old(cache.entries), url, end, storedAt, cache.ttlMs)
    ensures RateLimiting.LimitFor(host).None? ==> rateWait == 0 && limiters.limiters == old(limiters.limiters)
    ensures RateLimiting.LimitFor(host).Some? ==>
      var limit := RateLimiting.LimitFor(host).value;
      var before := if host in old(limiters.limiters) then old(limiters.limiters[host].requests) else [];
      var filtered := RateLimiting.InWindow(before, now, limit.1);
      && host in limiters.limiters
      && limiters.limiters == old(limiters.limiters)[host := limiters.limiters[host]]
      && limiters.limiters[host].requests == filtered + [now]
      && rateWait == RateLimiting.Delay(filtered, now, limit.0, limit.1)
    ensures forall h :: h in old(limiters.limiters) && h != host ==>
      h in limiters.limiters && limiters.limiters[h].requests == old(limiters.limiters[h].requests)
  {
    rateWait := WaitForLimit(limiters, host, now);
    end, waits := AttemptLoop(outcome, url, EffectiveRetries(opts), EffectiveDelay(opts));
    var stored := ToCache(end);
    if stored.Some? {
      cache.Set(url, stored.value, storedAt);
    }
    result := Settle(end);
  }

  /**
   * `httpGet(baseUrl, opts)` with the process-wide `cache` and `limiters`.
   * `now` is the time of the cache lookup and of the rate-limit check;
   * `storedAt` is the time at which a response is written to the cache.
   * Besides the settlement it returns the rate-limit wait, the backoff waits
   * and the way the attempt loop ended (`None` on a cache hit).
   */
  method HttpGet(cache: ResponseCache.Cache<Body>, limiters: RateLimiting.RateLimiters, base: Url, opts: HttpOptions,
                 now: int, storedAt: int, outcome: nat -> Outcome)
    returns (result: HttpResult, rateWait: int, waits: seq<int>, loop: Option<LoopEnd>)
    requires limiters.Valid()
    modifies cache, limiters, limiters.limiters.Values
    ensures limiters.Valid()
    ensures var cached := CacheRead(old(cache.entries), opts.headers.GetOr(map[]), RequestUrl(base, opts), now, cache.ttlMs);
      loop.None? <==> IsHit(cached)
    ensures loop.None? ==>
      var cached := CacheRead(old(cache.entries), opts.headers.GetOr(map[]), RequestUrl(base, opts), now, cache.ttlMs);
      && result == Resolved(cached.value) && rateWait == 0 && waits == []
      && cache.entries == old(cache.entries)
      && limiters.limiters == old(limiters.limiters)
      && (forall h :: h in old(limiters.limiters) ==> limiters.limiters[h].requests == old(limiters.limiters[h].requests))
    ensures loop.Some? ==>
      && loop.value == RunAttempts(outcome, RequestUrl(base, opts), EffectiveRetries(opts), 0)
      && result == Settle(loop.value)
      && waits == Backoff(EffectiveDelay(opts), RetriesTaken(loop.value))
    ensures loop.Some? ==>
      var afterRead := EntriesAfterRead(old(cache.entries), opts.headers.GetOr(map[]), RequestUrl(base, opts), now, cache.ttlMs);
      cache.entries == EntriesAfterLoop(afterRead, RequestUrl(base, opts), loop.value, storedAt, cache.ttlMs)
    ensures loop.Some? && RateLimiting.LimitFor(base.hostname).None? ==>
      rateWait == 0 && limiters.limiters == old(limiters.limiters)
    ensures loop.Some? && RateLimiting.LimitFor(base.hostname).Some? ==>
      var host := base.hostname;
      var limit := RateLimiting.LimitFor(host).value;
      var before := if host in old(limiters.limiters) then old(limiters.limiters[host].requests) else [];
      var filtered := RateLimiting.InWindow(before, now, limit.1);
      && host in limiters.limiters
      && limiters.limiters == old(limiters.limiters)[host := limiters.limiters[host]]
      && limiters.limiters[host].requests == filtered + [now]
      && rateWait == RateLimiting.Delay(filtered, now, limit.0, limit.1)
    ensures forall h :: h in old(limiters.limiters) && h != base.hostname ==>
      h in limiters.limiters && limiters.limiters[h].requests == old(limiters.limiters[h].requests)
  {
    var url := BuildUrl(base, opts.query.GetOr([]));
    var fullUrl := UrlString(url);
    var cached := ReadCache(cache, opts.headers.GetOr(map[]), fullUrl, now);
    if cached.Some? && cached.value != Null {
      return Resolved(cached.value), 0, [], None;
    }
    var end;
    result, rateWait, waits, end := FetchUncached(cache, limiters, base.hostname, fullUrl, opts, now, storedAt, outcome);
    loop := Some(end);
  }
}
