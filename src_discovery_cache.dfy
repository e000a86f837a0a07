/** The discovery cache of the older `src/openid` package
    (src/openid/discovery_cache.go): `SimpleDiscoveryCache` is itself a Go
    map, shared by reference, so `Put` writes into it in place while `Get`
    is a plain lookup. The discovered-information record is the same triple
    as in the newer package. */
module SrcDiscoveryCache {
  import opened Wrappers
  import DiscoveryCache

  type DiscoveredInfo = DiscoveryCache.DiscoveredInfo

  /** The map-typed cache. */
  class SimpleDiscoveryCache {
    var entries: map<string, DiscoveredInfo>

    constructor ()
      ensures entries == map[]
    {
      entries := map[];
    }

    method Put(id: string, info: DiscoveredInfo)
      modifies this
      ensures entries == old(entries)[id := info]
    {
      entries := entries[id := info];
    }

    /** The entry for `id`, or `None` (Go's `nil`). */
    function Get(id: string): (r: Option<DiscoveredInfo>)
      reads this
      ensures r.Some? <==> id in entries
      ensures r.Some? ==> r.value == entries[id]
    {
      if id in entries then Some(entries[id]) else None
    }
  }

  /** `compareDiscoveredInfo`: `a` is present and its endpoint, local id and
      claimed id are exactly these. */
  function CompareDiscoveredInfo(a: Option<DiscoveredInfo>, opEndpoint: string, opLocalId: string, claimedId: string): (r: bool)
    ensures r <==> a.Some? && a.value == DiscoveryCache.DiscoveredInfo(opEndpoint, opLocalId, claimedId)
  {
    a.Some? && a.value.opEndpoint == opEndpoint && a.value.opLocalID == opLocalId && a.value.claimedID == claimedId
  }

  /** What sharing the map by reference means to a client: a put through
      one handle is read back through another, and a put under a second
      key leaves the first entry as it was. */
  method MapCacheShared(id: string, info: DiscoveredInfo, other: string, otherInfo: DiscoveredInfo)
    returns (viaAlias: Option<DiscoveredInfo>, first: Option<DiscoveredInfo>, second: Option<DiscoveredInfo>)
    requires other != id
    ensures viaAlias == Some(info)
    ensures first == Some(info)
    ensures second == Some(otherInfo)
  {
    var c := new SimpleDiscoveryCache();
    var alias := c;
    c.Put(id, info);
    viaAlias := alias.Get(id);
    alias.Put(other, otherInfo);
    first := c.Get(id);
    second := c.Get(other);
  }
}
