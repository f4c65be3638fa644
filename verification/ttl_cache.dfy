/** The per-domain result caches of the verifier (`_get_cached` /
    `_set_cache`): a map from key to a stored value and the instant it
    expires. The lock around them only makes each call atomic, so each call
    is one functional update here; the clock is a parameter. */
module TtlCache {
  import opened Wrappers

  /** Seconds a cached result stays valid (`self.cache_ttl`). */
  const CacheTtl: real := 3600.0

  datatype Entry<V> = Entry(value: V, expiresAt: real)

  type Cache<V> = map<string, Entry<V>>

  /** A lookup at time `now`: the value while `now` is strictly before its
      expiry; otherwise nothing, and an expired entry is dropped. The
      returned cache is the state after the call. */
  function Get<V>(cache: Cache<V>, key: string, now: real): (r: (Option<V>, Cache<V>))
    ensures r.0.Some? <==> key in cache && now < cache[key].expiresAt
    ensures r.0.Some? ==> r.0.value == cache[key].value
    ensures r.1.Keys == if r.0.None? then cache.Keys - {key} else cache.Keys
    ensures forall k :: k in r.1 ==> r.1[k] == cache[k]
  {
    if key !in cache then (None, cache)
    else if cache[key].expiresAt > now then (Some(cache[key].value), cache)
    else (None, cache - {key})
  }

  /** A store at time `now`: the key now holds `value` until `now + CacheTtl`,
      whatever it held before; no other key changes. */
  function Set<V>(cache: Cache<V>, key: string, value: V, now: real): (r: Cache<V>)
    ensures r.Keys == cache.Keys + {key}
    ensures r[key].value == value && r[key].expiresAt - now == CacheTtl
    ensures forall k :: k in cache && k != key ==> r[k] == cache[k]
  {
    cache[key := Entry(value, now + CacheTtl)]
  }

  /** Reading back a stored value before it expires returns it and leaves
      the cache as it was. */
  lemma GetAfterSetHit<V>(cache: Cache<V>, key: string, value: V, now: real, later: real)
    requires later < now + CacheTtl
    ensures Get(Set(cache, key, value, now), key, later) == (Some(value), Set(cache, key, value, now))
  {
  }

  /** Reading it at or after its expiry returns nothing and removes exactly that key. */
  lemma GetAfterSetExpired<V>(cache: Cache<V>, key: string, value: V, now: real, later: real)
    requires later >= now + CacheTtl
    ensures Get(Set(cache, key, value, now), key, later) == (None, cache - {key})
  {
    var c := Set(cache, key, value, now);
    assert c - {key} == cache - {key};
  }

  /** A second store refreshes the expiry: the entry lives until the later
      store's time plus the TTL, even if the first one had not expired. */
  lemma SetRefreshes<V>(cache: Cache<V>, key: string, v1: V, v2: V, t1: real, t2: real, later: real)
    requires t1 <= t2 && t1 + CacheTtl <= later < t2 + CacheTtl
    ensures Get(Set(Set(cache, key, v1, t1), key, v2, t2), key, later).0 == Some(v2)
    ensures Get(Set(cache, key, v1, t1), key, later).0 == None
  {
  }

  /** Lookups of other keys neither see nor disturb a store. */
  lemma SetIsolated<V>(cache: Cache<V>, key: string, other: string, value: V, now: real, later: real)
    requires key != other
    ensures Get(Set(cache, key, value, now), other, later).0 == Get(cache, other, later).0
  {
  }
}
