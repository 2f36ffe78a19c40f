/**
  Sequences of calls on one cache, as a client such as `loading_cache_test.cpp`
  makes them: each `Set` or `Load` runs to completion before the next starts.
 */
module CacheTrace {
  import opened Eviction
  import opened LoadingCache

  /** One call on the cache. */
  datatype Call<K, V> = SetLoader(key: K, loader: V) | LoadKey(key: K)

  /** What a call gives back: nothing for `Set`, a value or a failure for `Load`. */
  datatype Reply<V> = Done | Value(value: V) | NoLoaderError

  /** The cache after a run of calls, and the reply to each call in order. */
  datatype Outcome<K, V> = Outcome(cache: Cache<K, V>, replies: seq<Reply<V>>)

  /** Performs one call. */
  function Apply<K, V>(c: Cache<K, V>, call: Call<K, V>): (r: (Cache<K, V>, Reply<V>))
    ensures r.0.policy == c.policy
    ensures r.1.Done? <==> call.SetLoader?
    ensures c.loaders.Keys <= r.0.loaders.Keys
  {
    match call
    case SetLoader(key, loader) => (Set(c, key, loader), Done)
    case LoadKey(key) =>
      match Load(c, key)
      case Loaded(c1, v) => (c1, Value(v))
      case NoLoader(c1) => (c1, NoLoaderError)
  }

  /** Performs `calls` in order, starting from `c`. */
  function Run<K, V>(c: Cache<K, V>, calls: seq<Call<K, V>>): (o: Outcome<K, V>)
    ensures |o.replies| == |calls|
    ensures o.cache.policy == c.policy
    ensures c.loaders.Keys <= o.cache.loaders.Keys
    ensures forall i :: 0 <= i < |calls| ==> (o.replies[i].Done? <==> calls[i].SetLoader?)
    decreases |calls|
  {
    if calls == [] then
      Outcome(c, [])
    else
      var (c1, reply) := Apply(c, calls[0]);
      var rest := Run(c1, calls[1..]);
      Outcome(rest.cache, [reply] + rest.replies)
  }

  /** The number of loads in `replies` that produced a value. */
  function CountValues<V>(replies: seq<Reply<V>>): (n: nat)
    ensures n <= |replies|
  {
    if replies == [] then 0
    else (if replies[0].Value? then 1 else 0) + CountValues(replies[1..])
  }

  /** No call sequence can leave a cached key without a loader. */
  lemma {:induction false} RunPreservesValid<K, V>(c: Cache<K, V>, calls: seq<Call<K, V>>)
    requires Valid(c)
    ensures Valid(Run(c, calls).cache)
    decreases |calls|
  {
    if calls != [] {
      RunPreservesValid(Apply(c, calls[0]).0, calls[1..]);
    }
  }

  /**
    A load never fails when its key has a loader at the moment of the call,
    whether registered before the run or by an earlier call of it, and
    whatever else is set or loaded before it.
   */
  lemma {:induction false} RegisteredLoadSucceeds<K, V>(c: Cache<K, V>, calls: seq<Call<K, V>>, i: nat)
    requires i < |calls| && calls[i].LoadKey?
    requires calls[i].key in Run(c, calls[..i]).cache.loaders
    ensures !Run(c, calls).replies[i].NoLoaderError?
    decreases i
  {
    var c1 := Apply(c, calls[0]).0;
    if i > 0 {
      assert calls[..i] == [calls[0]] + calls[1..][..i - 1];
      assert Run(c, calls[..i]).cache == Run(c1, calls[1..][..i - 1]).cache;
      RegisteredLoadSucceeds(c1, calls[1..], i - 1);
      assert Run(c, calls).replies[i] == Run(c1, calls[1..]).replies[i - 1];
    }
  }

  /** In particular, loads of keys registered before the run never fail. */
  lemma RegisteredBeforeRunSucceeds<K, V>(c: Cache<K, V>, calls: seq<Call<K, V>>, i: nat)
    requires i < |calls| && calls[i].LoadKey? && calls[i].key in c.loaders
    ensures !Run(c, calls).replies[i].NoLoaderError?
  {
    RegisteredLoadSucceeds(c, calls, i);
  }

  /** Under KeepNever every successful load is a miss: one loader call per value returned. */
  lemma {:induction false} KeepNeverEveryLoadMisses<K, V>(c: Cache<K, V>, calls: seq<Call<K, V>>)
    requires c.policy == KeepNever
    ensures Run(c, calls).cache.loads == c.loads + CountValues(Run(c, calls).replies)
    decreases |calls|
  {
    if calls != [] {
      var (c1, reply) := Apply(c, calls[0]);
      KeepNeverEveryLoadMisses(c1, calls[1..]);
      var o := Run(c, calls);
      assert o.replies[1..] == Run(c1, calls[1..]).replies;
    }
  }

  /** For finite sets `a <= b`, `b - a` has `|b| - |a|` elements. */
  lemma SubsetDifferenceSize<T>(a: set<T>, b: set<T>)
    requires a <= b
    ensures |b - a| == |b| - |a|
  {
    assert b == (b - a) + a;
  }

  /**
    Under KeepForever one call changes the loader count and the number of
    cached keys by the same amount, and keeps every cached entry.
   */
  lemma KeepForeverApplyBalance<K, V>(c: Cache<K, V>, call: Call<K, V>)
    requires c.policy == KeepForever
    ensures Submap(c.data, Apply(c, call).0.data)
    ensures Apply(c, call).0.loads - |Apply(c, call).0.data.Keys| == c.loads - |c.data.Keys|
  {
    if call.LoadKey? && call.key !in c.data && call.key in c.loaders {
      var d := Apply(c, call).0.data;
      assert d.Keys == c.data.Keys + {call.key};
    }
  }

  /**
    Under KeepForever the loader is invoked once per key that was not cached
    when the run began and is cached at its end, and never otherwise: entries
    are only ever added.
   */
  lemma {:induction false} KeepForeverLoadsOncePerKey<K, V>(c: Cache<K, V>, calls: seq<Call<K, V>>)
    requires c.policy == KeepForever
    ensures Submap(c.data, Run(c, calls).cache.data)
    ensures Run(c, calls).cache.loads
              == c.loads + |Run(c, calls).cache.data.Keys - c.data.Keys|
    decreases |calls|
  {
    if calls != [] {
      var c1 := Apply(c, calls[0]).0;
      KeepForeverApplyBalance(c, calls[0]);
      KeepForeverLoadsOncePerKey(c1, calls[1..]);
      var d := Run(c, calls).cache.data;
      SubsetDifferenceSize(c1.data.Keys, d.Keys);
      SubsetDifferenceSize(c.data.Keys, d.Keys);
    }
  }
}
