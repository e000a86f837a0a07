/** The discovery caches of discovery_cache.go: discovered provider
    information keyed by an identifier, kept forever (`SimpleDiscoveryCache`)
    or for a time-to-live (`TimedDiscoveryCache`). The clock becomes a `now`
    parameter in nanoseconds. */
module DiscoveryCache {
  import opened Wrappers

  /** `SimpleDiscoveredInfo`: the provider endpoint, the OP-local identifier
      and the claimed identifier found by discovery. */
  datatype DiscoveredInfo = DiscoveredInfo(opEndpoint: string, opLocalID: string, claimedID: string)

  /** `compareDiscoveredInfo`: `a` is present and carries exactly these three values. */
  function CompareDiscoveredInfo(a: Option<DiscoveredInfo>, opEndpoint: string, opLocalID: string, claimedID: string): (r: bool)
    ensures r <==> a == Some(DiscoveredInfo(opEndpoint, opLocalID, claimedID))
  {
    a.Some? && a.value.opEndpoint == opEndpoint && a.value.opLocalID == opLocalID && a.value.claimedID == claimedID
  }

  /** A cache that keeps every entry until it is overwritten. */
  class SimpleDiscoveryCache {
    var cache: map<string, DiscoveredInfo>

    constructor ()
      ensures cache == map[]
    {
      cache := map[];
    }

    method Put(id: string, info: DiscoveredInfo)
      modifies this
      ensures cache == old(cache)[id := info]
    {
      cache := cache[id := info];
    }

    /** The entry for `id`, or `None` (Go's `nil`); the cache is left alone. */
    method Get(id: string) returns (r: Option<DiscoveredInfo>)
      ensures r.Some? <==> id in cache
      ensures r.Some? ==> r.value == cache[id]
    {
      if id in cache {
        return Some(cache[id]);
      }
      return None;
    }
  }

  /** What a client of `SimpleDiscoveryCache` can rely on: a value put is
      read back, a later put overwrites it, other keys stay unset. */
  method SimpleCacheRoundTrip(id: string, info: DiscoveredInfo, newer: DiscoveredInfo, other: string)
    returns (got: Option<DiscoveredInfo>, overwritten: Option<DiscoveredInfo>, missing: Option<DiscoveredInfo>)
    requires other != id
    ensures got == Some(info)
    ensures overwritten == Some(newer)
    ensures missing == None
  {
    var c := new SimpleDiscoveryCache();
    c.Put(id, info);
    got := c.Get(id);
    c.Put(id, newer);
    overwritten := c.Get(id);
    missing := c.Get(other);
  }

  /** `timedDiscoveredInfo`: an entry with the time it was put. */
  datatype TimedEntry = TimedEntry(info: DiscoveredInfo, time: int)

  /** The entries of `m` at most `ttl` old at `now`. */
  function Purge(m: map<string, TimedEntry>, now: int, ttl: int): (r: map<string, TimedEntry>)
    ensures forall k :: k in r <==> k in m && now - m[k].time <= ttl
    ensures forall k :: k in r ==> r[k] == m[k]
  {
    map k | k in m && now - m[k].time <= ttl :: m[k]
  }

  /** A cache whose entries expire `ttl` nanoseconds after they were put;
      expired entries are dropped on the next read. */
  class TimedDiscoveryCache {
    var cache: map<string, TimedEntry>
    const ttl: int

    constructor (ttl: int)
      ensures cache == map[] && this.ttl == ttl
    {
      cache := map[];
      this.ttl := ttl;
    }

    method Put(id: string, info: DiscoveredInfo, now: int)
      modifies this
      ensures cache == old(cache)[id := TimedEntry(info, now)]
    {
      cache := cache[id := TimedEntry(info, now)];
    }

    /** Drop every expired entry, whatever `id` is, then look `id` up. */
    method Get(id: string, now: int) returns (r: Option<DiscoveredInfo>)
      modifies this
      ensures cache == Purge(old(cache), now, ttl)
      ensures r.Some? <==> id in cache
      ensures r.Some? ==> r.value == cache[id].info
    {
      var newCache := map[];
      var remaining := cache.Keys;
      while remaining != {}
        invariant remaining <= cache.Keys
        invariant newCache == Purge(map k | k in cache && k !in remaining :: cache[k], now, ttl)
        decreases remaining
      {
        var k :| k in remaining;
        var e := cache[k];
        if now - e.time <= ttl {
          newCache := newCache[k := e];
        }
        remaining := remaining - {k};
      }
      assert (map k | k in cache && k !in remaining :: cache[k]) == cache;
      cache := newCache;
      if id in cache {
        return Some(cache[id].info);
      }
      return None;
    }
  }

  /** What a client of `TimedDiscoveryCache` can rely on: an entry put at
      `putAt` is read back at `readAt` exactly when it is at most `ttl` old,
      and a read of another key in between does not change that (the clock
      does not run backwards). */
  method TimedCacheExpiry(id: string, info: DiscoveredInfo, other: string, ttl: int, putAt: int, readAt: int)
    returns (got: Option<DiscoveredInfo>)
    requires other != id && putAt <= readAt
    ensures got.Some? <==> readAt - putAt <= ttl
    ensures got.Some? ==> got.value == info
  {
    var c := new TimedDiscoveryCache(ttl);
    c.Put(id, info, putAt);
    var _ := c.Get(other, putAt);
    got := c.Get(id, readAt);
  }

  /** Putting a key again stamps it with the new time, so its age restarts. */
  method TimedCacheRePut(id: string, info: DiscoveredInfo, newer: DiscoveredInfo, ttl: int, firstAt: int, againAt: int, readAt: int)
    returns (got: Option<DiscoveredInfo>)
    ensures got.Some? <==> readAt - againAt <= ttl
    ensures got.Some? ==> got.value == newer
  {
    var c := new TimedDiscoveryCache(ttl);
    c.Put(id, info, firstAt);
    c.Put(id, newer, againAt);
    got := c.Get(id, readAt);
  }
}
