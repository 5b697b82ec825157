/**
 * The in-memory response cache of the HTTP layer: entries keyed by URL, each
 * stamped with the time it was stored and valid for `ttlMs` milliseconds.
 * Time is an input: `now` is the value `Date.now()` would give.
 */
module ResponseCache {
  import opened Wrappers

  /** Default time to live: one hour. */
  const DefaultTtlMs: int := 60 * 60 * 1000
  /** `set` sweeps expired entries once the cache holds more than this many. */
  const SweepThreshold: int := 1000

  datatype Entry<T> = Entry(data: T, timestamp: int)

  /** An entry is expired once more than `ttlMs` milliseconds have passed since it was stored. */
  predicate Expired<T>(e: Entry<T>, now: int, ttlMs: int) {
    now - e.timestamp > ttlMs
  }

  /** What `get(key)` returns: the stored data of a present, unexpired entry. */
  function Lookup<T>(entries: map<string, Entry<T>>, key: string, now: int, ttlMs: int): (r: Option<T>)
    ensures r.Some? <==> key in entries && !Expired(entries[key], now, ttlMs)
    ensures r.Some? ==> r.value == entries[key].data
  {
    if key in entries && !Expired(entries[key], now, ttlMs) then Some(entries[key].data) else None
  }

  /** The entries `get(key)` leaves: the key is deleted when it is missing or expired. */
  function AfterGet<T>(entries: map<string, Entry<T>>, key: string, now: int, ttlMs: int): (m: map<string, Entry<T>>)
    ensures Lookup(entries, key, now, ttlMs).Some? ==> m == entries
    ensures Lookup(entries, key, now, ttlMs).None? ==> m == entries - {key}
  {
    if Lookup(entries, key, now, ttlMs).None? then entries - {key} else entries
  }

  /** The entries `cleanup()` leaves: exactly the unexpired ones. */
  function Sweep<T>(entries: map<string, Entry<T>>, now: int, ttlMs: int): (m: map<string, Entry<T>>)
    ensures forall k :: k in m <==> k in entries && !Expired(entries[k], now, ttlMs)
    ensures forall k :: k in m ==> m[k] == entries[k]
  {
    map k | k in entries && !Expired(entries[k], now, ttlMs) :: entries[k]
  }

  /** The entries `set(key, data)` leaves: the new entry, then a sweep when there are too many. */
  function Store<T>(entries: map<string, Entry<T>>, key: string, data: T, now: int, ttlMs: int): (m: map<string, Entry<T>>)
    ensures key in m <==> |entries[key := Entry(data, now)]| <= SweepThreshold || ttlMs >= 0
    ensures key in m ==> m[key] == Entry(data, now)
    ensures forall k :: k in m && k != key ==> k in entries && m[k] == entries[k]
    ensures forall k :: k in entries && k != key ==>
      (k in m <==> |entries[key := Entry(data, now)]| <= SweepThreshold || !Expired(entries[k], now, ttlMs))
  {
    var added := entries[key := Entry(data, now)];
    if |added| > SweepThreshold then Sweep(added, now, ttlMs) else added
  }

  class Cache<T> {
    const ttlMs: int
    var entries: map<string, Entry<T>>

    constructor (ttlMs: int)
      ensures this.ttlMs == ttlMs && entries == map[]
    {
      this.ttlMs := ttlMs;
      entries := map[];
    }

    /** `get(key)` at time `now`. */
    method Get(key: string, now: int) returns (r: Option<T>)
      modifies this
      ensures r == Lookup(old(entries), key, now, ttlMs)
      ensures entries == AfterGet(old(entries), key, now, ttlMs)
    {
      if key !in entries || now - entries[key].timestamp > ttlMs {
        entries := entries - {key};
        return None;
      }
      r := Some(entries[key].data);
    }

    /** `set(key, data)` at time `now`. */
    method Set(key: string, data: T, now: int)
      modifies this
      ensures entries == Store(old(entries), key, data, now, ttlMs)
    {
      entries := entries[key := Entry(data, now)];
      if |entries| > SweepThreshold {
        Cleanup(now);
      }
    }

    /** `cleanup()` at time `now`: deletes the expired entries one key at a time. */
    method Cleanup(now: int)
      modifies this
      ensures entries == Sweep(old(entries), now, ttlMs)
    {
      var pending := entries.Keys;
      ghost var visited: set<string> := {};
      while pending != {}
        invariant pending + visited == old(entries).Keys && pending !! visited
        invariant forall k :: k in entries <==> k in pending || (k in visited && !Expired(old(entries)[k], now, ttlMs))
        invariant forall k :: k in entries ==> entries[k] == old(entries)[k]
        decreases pending
      {
        var key :| key in pending;
        if now - entries[key].timestamp > ttlMs {
          entries := entries - {key};
        }
        pending := pending - {key};
        visited := visited + {key};
      }
    }
  }

  /** A value just stored is what `get` returns at the same instant (for a non-negative time to live). */
  lemma StoreThenLookup<T>(entries: map<string, Entry<T>>, key: string, data: T, now: int, ttlMs: int)
    requires ttlMs >= 0
    ensures Lookup(Store(entries, key, data, now, ttlMs), key, now, ttlMs) == Some(data)
  {
  }

  /** Storing one key leaves every other key's lookup as it was at the time of storing. */
  lemma StoreKeepsOthers<T>(entries: map<string, Entry<T>>, key: string, other: string, data: T, now: int, ttlMs: int)
    requires other != key
    ensures Lookup(Store(entries, key, data, now, ttlMs), other, now, ttlMs) == Lookup(entries, other, now, ttlMs)
  {
  }

  /** Expired entries stay expired: an entry dropped at `now` would not be returned at any later time. */
  lemma SweepInvisible<T>(entries: map<string, Entry<T>>, key: string, now: int, later: int, ttlMs: int)
    requires later >= now
    ensures Lookup(Sweep(entries, now, ttlMs), key, later, ttlMs) == Lookup(entries, key, later, ttlMs)
  {
  }

  /** The deletion `get` performs on a miss never changes what a later `get` returns. */
  lemma AfterGetInvisible<T>(entries: map<string, Entry<T>>, key: string, other: string, now: int, later: int, ttlMs: int)
    requires later >= now
    ensures Lookup(AfterGet(entries, key, now, ttlMs), other, later, ttlMs) == Lookup(entries, other, later, ttlMs)
  {
  }
}
