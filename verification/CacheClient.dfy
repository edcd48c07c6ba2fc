/** The Redis wrapper and the per-resource invalidator: in-place deletion of the entries a glob matches. */
module CacheClient {
  import opened CacheKeys

  /** The entries left once everything a pattern matches is deleted. */
  function WithoutAll<V>(entries: map<string, V>, patterns: seq<string>): map<string, V> {
    map k | k in entries && !Reached(patterns, k) :: entries[k]
  }

  class Cache<V> {
    var entries: map<string, V>

    constructor ()
      ensures entries == map[]
    {
      entries := map[];
    }

    /** KEYS pattern, then DEL of what it found; the number deleted is returned. */
    method DeletePattern(pattern: string) returns (deleted: nat)
      modifies this
      ensures entries == WithoutAll(old(entries), [pattern])
      ensures deleted == |old(entries)| - |entries|
    {
      var doomed := set k | k in entries && Glob(pattern, k);
      ghost var before := entries;
      entries := entries - doomed;
      deleted := |doomed|;
      assert entries == WithoutAll(before, [pattern]);
      assert before.Keys == entries.Keys + doomed && entries.Keys !! doomed;
      assert |before.Keys| == |before| && |entries.Keys| == |entries|;
    }

    /** Deletes exactly the entries some user pattern reaches and returns exactly how many there were: an entry that
        two patterns reach is counted once, because the first deletion removes it. */
    method ClearCacheForUser(user: string) returns (total: nat)
      modifies this
      ensures entries == WithoutAll(old(entries), UserPatterns(user))
      ensures total == |old(entries)| - |entries|
    {
      var patterns := UserPatterns(user);
      total := 0;
      for i := 0 to |patterns|
        invariant entries == WithoutAll(old(entries), patterns[..i])
        invariant total == |old(entries)| - |entries|
      {
        WithoutOneMore(old(entries), patterns, i);
        var deleted := DeletePattern(patterns[i]);
        total := total + deleted;
      }
      assert patterns[..|patterns|] == patterns;
    }
  }

  lemma WithoutOneMore<V>(entries: map<string, V>, patterns: seq<string>, i: nat)
    requires i < |patterns|
    ensures WithoutAll(WithoutAll(entries, patterns[..i]), [patterns[i]]) == WithoutAll(entries, patterns[..i + 1])
  {
    assert patterns[..i + 1] == patterns[..i] + [patterns[i]];
  }

  /** Invalidates the list, detail and permission entries of one resource type. */
  class ResourceCacheInvalidator<V> {
    const cache: Cache<V>
    const prefix: string
    const resourceKey: string

    constructor (cache: Cache<V>, prefix: string, resourceKey: string)
      ensures this.cache == cache && this.prefix == prefix && this.resourceKey == resourceKey
    {
      this.cache, this.prefix, this.resourceKey := cache, prefix, resourceKey;
    }

    method InvalidateList(tenant: string)
      modifies cache
      ensures cache.entries == WithoutAll(old(cache.entries), [ListPattern(prefix, tenant)])
    {
      var _ := cache.DeletePattern(ListPattern(prefix, tenant));
    }

    method InvalidateDetail(tenant: string, resource: string)
      modifies cache
      ensures cache.entries == old(cache.entries) - {Key(DetailSegments(prefix, tenant, resourceKey, resource))}
    {
      cache.entries := cache.entries - {Key(DetailSegments(prefix, tenant, resourceKey, resource))};
    }

    method InvalidatePermissions(tenant: string, resource: string)
      modifies cache
      ensures cache.entries == WithoutAll(old(cache.entries), [PermissionsPattern(prefix, tenant, resourceKey, resource)])
    {
      var _ := cache.DeletePattern(PermissionsPattern(prefix, tenant, resourceKey, resource));
    }
  }

  /** Dropping one resource's detail drops no other resource's, no other tenant's, and no list page. */
  lemma DetailInvalidationIsLocal<V>(entries: map<string, V>, prefix: string, resourceKey: string, tenant: string, resource: string,
                                     tenant': string, resource': string, user: string, q: ListQuery)
    requires Plain(prefix) && Plain(resourceKey) && Plain(tenant) && Plain(resource) && Plain(tenant') && Plain(resource')
    requires Plain(user) && PlainQuery(q)
    ensures var left := entries - {Key(DetailSegments(prefix, tenant, resourceKey, resource))};
      var other, page := Key(DetailSegments(prefix, tenant', resourceKey, resource')), Key(ListSegments(prefix, tenant', user, q));
      && (other in left <==> other in entries && (tenant', resource') != (tenant, resource))
      && (page in left <==> page in entries)
      && forall k :: k in left ==> left[k] == entries[k]
  {
    var dropped, other := DetailSegments(prefix, tenant, resourceKey, resource), DetailSegments(prefix, tenant', resourceKey, resource');
    SameKey(dropped, other);
    assert dropped[3] == tenant && other[3] == tenant' && dropped[5] == resource && other[5] == resource';
    ListSegmentsPlain(prefix, tenant', user, q);
    SameKey(dropped, ListSegments(prefix, tenant', user, q));
    assert dropped[1] == "detail" && ListSegments(prefix, tenant', user, q)[1] == "list";
  }

  /** After clearing a user none of the user's role, group or list entries is left, and nothing else changed value. */
  lemma ClearedUserHasNoEntries<V>(entries: map<string, V>, user: string, prefix: string, tenant: string, q: ListQuery)
    requires Plain(user) && Plain(prefix) && Plain(tenant) && PlainQuery(q)
    ensures var left := WithoutAll(entries, UserPatterns(user));
      && Key(TenantsSegments(user)) !in left
      && Key(GroupsSegments(user)) !in left
      && Key(ListSegments(prefix, tenant, user, q)) !in left
      && forall k :: k in left ==> k in entries && left[k] == entries[k]
  {
    ClearingReachesUser(user, prefix, tenant, q);
  }
}
