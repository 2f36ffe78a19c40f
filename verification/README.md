# Loading cache, modelled in Dafny

This project models the generic loading cache of `loading_cache/loading_cache.h`.
The cache is a `LoadingCache<K, V>` holding three things:

- an entry map `data_` from keys to cached values;
- a registry `loading_closures_` from keys to loader closures;
- an eviction policy chosen at construction.

`Set(key, loader)` registers or replaces the loader of a key. `Load(key)` first
lets the policy evict from the entry map. It then returns the cached value if the
key is still present (a hit). Otherwise it invokes the key's loader once, stores
the result and returns it (a miss). `loading_cache.h` defines only two policies:

- `KeepForeverEvictionPolicy` never evicts.
- `KeepNeverEvictionPolicy` clears the whole entry map before every load.

The model is functional. Each call takes a cache value and returns the next one.

- `eviction.dfy`, module `Eviction`: the closed `Policy` datatype and `Evict`.
- `loading_cache.dfy`, module `LoadingCache`: the `Cache` record with the
  factories, `Set` and `Load`. A loader is modelled by the value it produces.
  The field `loads` counts loader invocations, like the `loaded` counter the
  tests of `loading_cache_test.cpp` capture in their closures. `Load` returns a `LoadResult`.
  That is either `Loaded(cache, value)` or `NoLoader(cache)`, the second for a
  miss on a key without a loader.
- `cache_properties.dfy`, module `CacheProperties`: hit, miss and
  invocation-count properties of each policy, for one load and for `n` loads
  of a key, plus the scenarios of `loading_cache/loading_cache_test.cpp`.
- `cache_trace.dfy`, module `CacheTrace`: arbitrary sequences of `Set` and
  `Load` calls (`Run`) and what holds over a whole sequence.

The invariant `LoadingCache.Valid` says every cached key has a loader. The
factories establish it and every call preserves it. Under it, a load fails
exactly when the key has no loader.

In the code, `Load` of a key without a loader calls an empty `std::function`
through `operator[]` (`loading_cache.h`, line 116). That call throws after the
eviction has run. The model reports `NoLoader` carrying the evicted cache.

## Model

| member | source | states |
|---|---|---|
| Eviction.Evict | loading_cache/loading_cache.h:63-100 | eviction only removes entries; KeepForever leaves the map exactly as it was; KeepNever leaves it empty |
| Eviction.EvictIgnoresKey | loading_cache/loading_cache.h:81-100 | neither policy depends on the key being loaded |
| Eviction.EvictIdempotent | loading_cache/loading_cache.h:81-100 | evicting a second time removes nothing more |
| LoadingCache.Create | loading_cache/loading_cache.h:33 | a new cache has the given policy, no entries, no loaders, no loader invocations, and satisfies the invariant |
| LoadingCache.CreateKeepForever | loading_cache/loading_cache.h:121-124 | an empty KeepForever cache |
| LoadingCache.CreateKeepNever | loading_cache/loading_cache.h:126-129 | an empty KeepNever cache |
| LoadingCache.Set | loading_cache/loading_cache.h:107-110 | the key's loader becomes the new one, replacing any earlier one; other loaders, the entries, the policy and the invocation count are unchanged; the invariant is kept |
| LoadingCache.Load | loading_cache/loading_cache.h:112-119 | succeeds iff the key survives eviction or has a loader; on success the key is cached with the returned value; a hit returns the surviving value and invokes no loader; a miss invokes the loader once, adds its value and keeps every other surviving entry; a failure leaves the evicted map; policy and loaders never change; the invariant is kept |
| CacheProperties.KeepForeverLoadGrows | loading_cache/loading_cache.h:81-118 | under KeepForever a load keeps every entry with its value and adds at most the loaded key |
| CacheProperties.KeepForeverSecondLoadHits | loading_cache/loading_cache_test.cpp:21-33 | under KeepForever a second load of a key is a hit with the same value and the same state; two loads invoke the loader once if the key was not cached, else never |
| CacheProperties.KeepForeverLoadsOnce | loading_cache/loading_cache_test.cpp:29-32 | under KeepForever any number of loads of a key invoke its loader at most once, and the key ends cached |
| CacheProperties.KeepForeverSetKeepsCachedValue | loading_cache/loading_cache.h:107-118 | under KeepForever, replacing the loader of a cached key does not change the value a load returns |
| CacheProperties.KeepNeverLoadLeavesOnlyKey | loading_cache/loading_cache.h:97-118 | under KeepNever a load leaves exactly the loaded key cached; the value is recomputed by the loader and the count rises by one, even if the key was cached |
| CacheProperties.KeepNeverLoadsEveryTime | loading_cache/loading_cache_test.cpp:49-61 | under KeepNever n loads of a registered key invoke its loader exactly n times |
| CacheProperties.KeepNeverSetTakesEffect | loading_cache/loading_cache.h:97-118 | under KeepNever a newly set loader supplies the value of the very next load |
| CacheProperties.KeepForeverScenario | loading_cache/loading_cache_test.cpp:21-47 | the KeepForever tests: Set loads nothing, the first load returns the value and counts 1, the second returns it and still counts 1 |
| CacheProperties.KeepNeverScenario | loading_cache/loading_cache_test.cpp:49-61 | the KeepNever test: two loads both return the value and count 1 then 2 |
| CacheTrace.RunPreservesValid | loading_cache/loading_cache.h:107-118 | no sequence of Set and Load calls leaves a cached key without a loader |
| CacheTrace.RegisteredLoadSucceeds | loading_cache/loading_cache.h:107-118 | in any call sequence, a load never fails when its key has a loader at the moment of the call, whether registered before the sequence or by an earlier Set in it, whatever other keys are set or loaded |
| CacheTrace.RegisteredBeforeRunSucceeds | loading_cache/loading_cache.h:113-118 | in any call sequence, a load of a key whose loader was registered before the sequence never fails |
| CacheTrace.KeepNeverEveryLoadMisses | loading_cache/loading_cache.h:97-118 | under KeepNever, over any call sequence, the loader count rises by exactly the number of loads that returned a value |
| CacheTrace.KeepForeverLoadsOncePerKey | loading_cache/loading_cache.h:81-118 | under KeepForever, over any call sequence, entries are only added, and the loader count rises by exactly the number of newly cached keys |

## Left out

- Loaders with side effects or changing results: a loader is the one value it produces. Counting invocations is done by the `loads` field instead of a captured counter.
- Loaders that throw: a loader always produces its value. In `loading_cache.h`, a throwing loader would propagate after the eviction and store nothing.
- Registering an empty `std::function` with `Set`: a loader is always a value here.
- LoadingCache.Create: policies other than the two in the header are not modelled; the constructor accepts any `EvictionPolicy` subclass, or a null pointer that `Load` then dereferences, and the only-removes guarantee of Eviction.Evict holds for KeepForever and KeepNever only.
- LoadingCache.Load: the entry that `operator[]` inserts for a key without a loader is not modelled. That entry is an empty closure, and every later `Load` of the key fails as it would with no entry. A later `Set` replaces it.
- Ownership and lifetime: `shared_ptr`/`unique_ptr` factories, deleted copy operations, move-only values, and the `const V&` that `Load` returns and a later `Load` can invalidate. The model returns the value itself.
- Key comparison: keys are compared by equality; `std::map`'s equivalence under `<` is assumed to coincide with it, and no operation depends on iteration order.
