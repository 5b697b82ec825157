/**
 * The sliding-window rate limiter of the HTTP layer and the per-host registry
 * of limiters. Time is an input: `now` is the value `Date.now()` would give.
 */
module RateLimiting {
  import opened Wrappers

  /** The timestamps of `requests` still inside the window at `now`, in their original order. */
  function InWindow(requests: seq<int>, now: int, windowMs: int): (r: seq<int>)
    ensures |r| <= |requests|
    ensures forall t :: t in r <==> t in requests && now - t < windowMs
    ensures |requests| == 1 ==> r == (if now - requests[0] < windowMs then requests else [])
  {
    if requests == [] then []
    else
      var n := |requests| - 1;
      InWindow(requests[..n], now, windowMs) + (if now - requests[n] < windowMs then [requests[n]] else [])
  }

  /**
   * Filtering works piece by piece. With the single-timestamp case above, the
   * kept timestamps are exactly the recent ones, in their order and with
   * their repetitions.
   */
  lemma {:induction false} InWindowAppend(a: seq<int>, b: seq<int>, now: int, windowMs: int)
    ensures InWindow(a + b, now, windowMs) == InWindow(a, now, windowMs) + InWindow(b, now, windowMs)
    decreases |b|
  {
    if b == [] {
      assert a + b == a;
    } else {
      var n := |b| - 1;
      assert (a + b)[..|a + b| - 1] == a + b[..n];
      assert (a + b)[|a + b| - 1] == b[n];
      InWindowAppend(a, b[..n], now, windowMs);
    }
  }

  /** The smallest timestamp of a non-empty list (`Math.min(...requests)`). */
  function SeqMin(s: seq<int>): (m: int)
    requires s != []
    ensures m in s && forall t :: t in s ==> m <= t
  {
    if |s| == 1 then s[0]
    else
      var rest := SeqMin(s[1..]);
      assert forall t :: t in s ==> t == s[0] || t in s[1..] by {
        assert s == [s[0]] + s[1..];
      }
      if s[0] <= rest then s[0] else rest
  }

  /**
   * How long `checkLimit` waits when the window at `now` already holds
   * `filtered`: when the limit is reached, until the oldest entry leaves the
   * window; otherwise not at all. An empty list (possible only with a limit of
   * zero) has no oldest entry (`Math.min()` is `Infinity`) and never waits.
   */
  function Delay(filtered: seq<int>, now: int, maxRequests: int, windowMs: int): (w: int)
    ensures w >= 0
    ensures w > 0 ==> |filtered| >= maxRequests && filtered != []
    ensures w > 0 ==> now + w - SeqMin(filtered) == windowMs
  {
    if |filtered| >= maxRequests && filtered != [] then
      var waitTime := windowMs - (now - SeqMin(filtered));
      if waitTime > 0 then waitTime else 0
    else 0
  }

  /** A limiter for one host: at most `maxRequests` requests per `windowMs` milliseconds. */
  class RateLimit {
    const maxRequests: int
    const windowMs: int
    var requests: seq<int>

    constructor (maxRequests: int, windowMs: int)
      ensures this.maxRequests == maxRequests && this.windowMs == windowMs
      ensures requests == []
    {
      this.maxRequests := maxRequests;
      this.windowMs := windowMs;
      requests := [];
    }

    /**
     * `checkLimit()` at time `now`: drops the timestamps that left the window,
     * returns how long the caller is held back, and records `now` (the time
     * the call started, not the time the wait ends).
     */
    method CheckLimit(now: int) returns (waitMs: int)
      modifies this
      ensures waitMs == Delay(InWindow(old(requests), now, windowMs), now, maxRequests, windowMs)
      ensures requests == InWindow(old(requests), now, windowMs) + [now]
    {
      requests := InWindow(requests, now, windowMs);
      waitMs := 0;
      if |requests| >= maxRequests && requests != [] {
        var oldestRequest := SeqMin(requests);
        var waitTime := windowMs - (now - oldestRequest);
        if waitTime > 0 {
          waitMs := waitTime;
        }
      }
      requests := requests + [now];
    }
  }

  /** Filtering a list of which some member falls outside the window drops at least one entry. */
  lemma {:induction false} InWindowDrops(s: seq<int>, now: int, windowMs: int, x: int)
    requires x in s && now - x >= windowMs
    ensures |InWindow(s, now, windowMs)| < |s|
  {
    var n := |s| - 1;
    if s[n] != x {
      assert x in s[..n] by {
        var k :| 0 <= k < |s| && s[k] == x;
        assert s[..n][k] == x;
      }
      InWindowDrops(s[..n], now, windowMs, x);
    }
  }

  /** Once the limit is reached, the caller is always held back (the oldest entry is still inside the window). */
  lemma FullWindowWaits(filtered: seq<int>, now: int, maxRequests: int, windowMs: int)
    requires maxRequests > 0 && |filtered| >= maxRequests
    requires forall t :: t in filtered ==> now - t < windowMs
    ensures Delay(filtered, now, maxRequests, windowMs) > 0
  {
  }

  /**
   * The window bound `checkLimit` maintains for callers that wait as told: if
   * at most `maxRequests` timestamps were inside the window when a call
   * started, then after it records its own timestamp and the caller waits,
   * at most `maxRequests` timestamps are inside the window at the next call.
   * So the recorded list never holds more than `maxRequests + 1` entries
   * right after a call.
   */
  lemma WindowBound(requests: seq<int>, now: int, next: int, maxRequests: int, windowMs: int)
    requires maxRequests > 0
    requires |InWindow(requests, now, windowMs)| <= maxRequests
    requires next >= now + Delay(InWindow(requests, now, windowMs), now, maxRequests, windowMs)
    ensures |InWindow(InWindow(requests, now, windowMs) + [now], next, windowMs)| <= maxRequests
    ensures |InWindow(requests, now, windowMs) + [now]| <= maxRequests + 1
  {
    var filtered := InWindow(requests, now, windowMs);
    var recorded := filtered + [now];
    if |filtered| == maxRequests {
      FullWindowWaits(filtered, now, maxRequests, windowMs);
      var oldest := SeqMin(filtered);
      assert oldest in recorded;
      InWindowDrops(recorded, next, windowMs, oldest);
    }
  }

  /** The API hosts that have a rate limit. */
  const LimitedHosts: set<string> :=
    {"api.crossref.org", "www.googleapis.com", "api.openalex.org", "www.omdbapi.com", "api.themoviedb.org", "libris.kb.se"}

  /** The limit applied to each known API host; other hosts are not limited. */
  function LimitFor(host: string): (limit: Option<(int, int)>)
    ensures limit.Some? <==> host in LimitedHosts
    ensures limit.Some? ==> 40 <= limit.value.0 <= 1000 && limit.value.1 == 60000
  {
    if host == "api.crossref.org" then Some((50, 60000))
    else if host == "www.googleapis.com" then Some((100, 60000))
    else if host == "api.openalex.org" then Some((1000, 60000))
    else if host == "www.omdbapi.com" then Some((100, 60000))
    else if host == "api.themoviedb.org" then Some((40, 60000))
    else if host == "libris.kb.se" then Some((60, 60000))
    else None
  }

  /** The process-wide map from host name to its limiter, created on first use. */
  class RateLimiters {
    var limiters: map<string, RateLimit>

    constructor ()
      ensures limiters == map[]
    {
      limiters := map[];
    }

    /**
     * Every registered limiter belongs to a known host and has that host's
     * limit, and no two hosts share a limiter.
     */
    ghost predicate Valid()
      reads this, limiters.Values
    {
      && (forall host :: host in limiters ==>
            LimitFor(host).Some?
            && limiters[host].maxRequests == LimitFor(host).value.0
            && limiters[host].windowMs == LimitFor(host).value.1)
      && (forall h1, h2 :: h1 in limiters && h2 in limiters && h1 != h2 ==> limiters[h1] != limiters[h2])
    }

    /**
     * `getRateLimiter` for a URL whose host name is `host`: no limiter for an
     * unknown host; otherwise the host's limiter, created with the host's
     * limit and an empty history the first time.
     */
    method Get(host: string) returns (limiter: RateLimit?)
      requires Valid()
      modifies this
      ensures Valid()
      ensures LimitFor(host).None? ==> limiter == null && limiters == old(limiters)
      ensures LimitFor(host).Some? ==>
        && limiter != null
        && limiters == old(limiters)[host := limiter]
        && limiter.maxRequests == LimitFor(host).value.0
        && limiter.windowMs == LimitFor(host).value.1
      ensures LimitFor(host).Some? && host in old(limiters) ==> limiter == old(limiters)[host]
      ensures LimitFor(host).Some? && host !in old(limiters) ==> fresh(limiter) && limiter.requests == []
    {
      var limit := LimitFor(host);
      if limit.None? {
        return null;
      }
      if host !in limiters {
        var created := new RateLimit(limit.value.0, limit.value.1);
        limiters := limiters[host := created];
      }
      limiter := limiters[host];
    }
  }
}
