/**
  The generic loading cache: an entry map from keys to values, a registry of
  per-key loaders, and an eviction policy fixed at construction.

  A loader is modelled by the value it produces when invoked. The field `loads`
  counts loader invocations; it is the instrumentation the tests of
  `loading_cache_test.cpp` keep in a captured counter, made part of the state
  so that hits and misses can be told apart.
 */
module LoadingCache {
  import opened Eviction

  datatype Cache<K, V> = Cache(
    data: map<K, V>,
    loaders: map<K, V>,
    policy: Policy,
    loads: nat)

  /**
    The result of a load. On success the new cache and the loaded value; when
    the value was not cached and no loader is registered for the key, the
    cache as the eviction left it (the eviction has already happened when the
    missing loader is discovered).
   */
  datatype LoadResult<K, V> =
    | Loaded(cache: Cache<K, V>, value: V)
    | NoLoader(cache: Cache<K, V>)

  /** Every cached key has a loader, so an evicted entry can always be reloaded. */
  predicate Valid<K, V>(c: Cache<K, V>) {
    c.data.Keys <= c.loaders.Keys
  }

  /** A cache built around `policy`: nothing cached, no loader registered. */
  function Create<K, V>(policy: Policy): (c: Cache<K, V>)
    ensures c.policy == policy
    ensures c.data.Keys == {} && c.loaders.Keys == {}
    ensures c.loads == 0
    ensures Valid(c)
  {
    Cache(map[], map[], policy, 0)
  }

  /** A fresh cache that never evicts. */
  function CreateKeepForever<K, V>(): (c: Cache<K, V>)
    ensures c.policy == KeepForever
    ensures c.data.Keys == {} && c.loaders.Keys == {} && c.loads == 0
  {
    Create(KeepForever)
  }

  /** A fresh cache that evicts everything before every load. */
  function CreateKeepNever<K, V>(): (c: Cache<K, V>)
    ensures c.policy == KeepNever
    ensures c.data.Keys == {} && c.loaders.Keys == {} && c.loads == 0
  {
    Create(KeepNever)
  }

  /**
    Registers `loader` for `key`, replacing any earlier one. Nothing is loaded
    and the cached entries are left alone, even the one for `key`.
   */
  function Set<K, V>(c: Cache<K, V>, key: K, loader: V): (r: Cache<K, V>)
    ensures key in r.loaders && r.loaders[key] == loader
    ensures r.loaders.Keys == c.loaders.Keys + {key}
    ensures forall k :: k in c.loaders && k != key ==> r.loaders[k] == c.loaders[k]
    ensures r.data == c.data && r.policy == c.policy && r.loads == c.loads
    ensures Valid(c) ==> Valid(r)
  {
    c.(loaders := c.loaders[key := loader])
  }

  /**
    Loads `key`: the policy evicts first; a key still cached is returned as
    is (a hit), otherwise its loader is invoked once and the value stored
    (a miss). A miss on a key without a loader fails.
   */
  function Load<K, V>(c: Cache<K, V>, key: K): (r: LoadResult<K, V>)
    ensures r.cache.policy == c.policy && r.cache.loaders == c.loaders
    ensures r.Loaded? <==> key in Evict(c.policy, key, c.data) || key in c.loaders
    ensures r.Loaded? ==> key in r.cache.data && r.cache.data[key] == r.value
    // hit: no loader invoked, the map is what the eviction left
    ensures key in Evict(c.policy, key, c.data) ==>
              && r.value == Evict(c.policy, key, c.data)[key]
              && r.cache.data == Evict(c.policy, key, c.data)
              && r.cache.loads == c.loads
    // miss: the loader is invoked once, its value is added, nothing else changes
    ensures key !in Evict(c.policy, key, c.data) && key in c.loaders ==>
              && r.value == c.loaders[key]
              && r.cache.loads == c.loads + 1
              && r.cache.data.Keys == Evict(c.policy, key, c.data).Keys + {key}
              && Submap(Evict(c.policy, key, c.data), r.cache.data)
    // failure: no loader invoked, the eviction still took place
    ensures r.NoLoader? ==>
              r.cache.data == Evict(c.policy, key, c.data) && r.cache.loads == c.loads
    ensures Valid(c) ==> Valid(r.cache) && (r.Loaded? <==> key in c.loaders)
  {
    var data := Evict(c.policy, key, c.data);
    if key in data then
      Loaded(c.(data := data), data[key])
    else if key in c.loaders then
      var v := c.loaders[key];
      Loaded(c.(data := data[key := v], loads := c.loads + 1), v)
    else
      NoLoader(c.(data := data))
  }
}
