/**
  What the two policies promise about hits, misses and loader invocations,
  for single loads and for repeated loads of one key.
 */
module CacheProperties {
  import opened Eviction
  import opened LoadingCache

  /** Loading `key` `n` times in a row, carrying on after a failed load. */
  function LoadTimes<K, V>(c: Cache<K, V>, key: K, n: nat): (r: Cache<K, V>)
    decreases n
  {
    if n == 0 then c else LoadTimes(Load(c, key).cache, key, n - 1)
  }

  // ---------------------------------------------------------------------------
  // KeepForever

  /** Under KeepForever a load only adds: every cached entry survives unchanged. */
  lemma KeepForeverLoadGrows<K, V>(c: Cache<K, V>, key: K)
    requires c.policy == KeepForever
    ensures Submap(c.data, Load(c, key).cache.data)
    ensures Load(c, key).cache.data.Keys
              == c.data.Keys + (if key in c.loaders then {key} else {})
  {
  }

  /**
    Under KeepForever a second load of the same key is a hit returning the same
    value, so two loads invoke the loader at most once, and exactly once when
    the key was not cached before.
   */
  lemma KeepForeverSecondLoadHits<K, V>(c: Cache<K, V>, key: K)
    requires c.policy == KeepForever
    requires key in c.data || key in c.loaders
    ensures Load(c, key).Loaded?
    ensures Load(Load(c, key).cache, key).Loaded?
    ensures Load(Load(c, key).cache, key).value == Load(c, key).value
    ensures Load(Load(c, key).cache, key).cache == Load(c, key).cache
    ensures Load(Load(c, key).cache, key).cache.loads
              == c.loads + (if key in c.data then 0 else 1)
  {
  }

  /** Under KeepForever any number of loads of a key invoke its loader at most once. */
  lemma {:induction false} KeepForeverLoadsOnce<K, V>(c: Cache<K, V>, key: K, n: nat)
    requires c.policy == KeepForever
    requires key in c.data || key in c.loaders
    ensures LoadTimes(c, key, n).loads
              == c.loads + (if n == 0 || key in c.data then 0 else 1)
    ensures n > 0 ==> key in LoadTimes(c, key, n).data
    decreases n
  {
    if n > 0 {
      var c1 := Load(c, key).cache;
      KeepForeverLoadsOnce(c1, key, n - 1);
    }
  }

  /**
    Replacing the loader of a cached key does not touch the cached value:
    under KeepForever the old value keeps being returned.
   */
  lemma KeepForeverSetKeepsCachedValue<K, V>(c: Cache<K, V>, key: K, loader: V)
    requires c.policy == KeepForever
    requires key in c.data
    ensures Load(Set(c, key, loader), key).Loaded?
    ensures Load(Set(c, key, loader), key).value == c.data[key]
  {
  }

  // ---------------------------------------------------------------------------
  // KeepNever

  /**
    Under KeepNever a load leaves exactly the loaded key cached, always
    recomputed by its loader, even when the key was cached before.
   */
  lemma KeepNeverLoadLeavesOnlyKey<K, V>(c: Cache<K, V>, key: K)
    requires c.policy == KeepNever
    ensures Load(c, key).cache.data.Keys == (if key in c.loaders then {key} else {})
    ensures key in c.loaders ==>
              && Load(c, key).Loaded?
              && Load(c, key).value == c.loaders[key]
              && Load(c, key).cache.loads == c.loads + 1
  {
  }

  /** Under KeepNever `n` loads of a registered key invoke its loader `n` times. */
  lemma {:induction false} KeepNeverLoadsEveryTime<K, V>(c: Cache<K, V>, key: K, n: nat)
    requires c.policy == KeepNever
    requires key in c.loaders
    ensures LoadTimes(c, key, n).loads == c.loads + n
    decreases n
  {
    if n > 0 {
      var c1 := Load(c, key).cache;
      KeepNeverLoadsEveryTime(c1, key, n - 1);
    }
  }

  /** Under KeepNever a new loader takes effect at the very next load. */
  lemma KeepNeverSetTakesEffect<K, V>(c: Cache<K, V>, key: K, loader: V)
    requires c.policy == KeepNever
    ensures Load(Set(c, key, loader), key).Loaded?
    ensures Load(Set(c, key, loader), key).value == loader
  {
  }

  // ---------------------------------------------------------------------------
  // The scenarios of `loading_cache_test.cpp`

  /**
    A KeepForever cache with one loader: nothing is loaded by `Set`, the first
    load invokes the loader, the second is a hit. `V` is arbitrary, so this
    covers both the copyable and the move-only value of the tests.
   */
  lemma KeepForeverScenario<V>(v: V)
    ensures var c0 := Set(CreateKeepForever<int, V>(), 1, v);
            && c0.loads == 0
            && var r1 := Load(c0, 1);
            && r1.Loaded? && r1.value == v && r1.cache.loads == 1
            && var r2 := Load(r1.cache, 1);
            && r2.Loaded? && r2.value == v && r2.cache.loads == 1
  {
  }

  /** A KeepNever cache with one loader: each of two loads invokes the loader. */
  lemma KeepNeverScenario<V>(v: V)
    ensures var c0 := Set(CreateKeepNever<int, V>(), 1, v);
            && c0.loads == 0
            && var r1 := Load(c0, 1);
            && r1.Loaded? && r1.value == v && r1.cache.loads == 1
            && var r2 := Load(r1.cache, 1);
            && r2.Loaded? && r2.value == v && r2.cache.loads == 2
  {
  }
}
