/**
  The eviction policies of the loading cache.

  A policy is consulted before every load, with the key about to be loaded and
  the cache's entry map; it may remove entries from that map and nothing else.
  `loading_cache.h` defines exactly two policies, so the virtual class hierarchy becomes
  a closed datatype dispatched by `match`.
 */
module Eviction {

  /** The two eviction policies a cache can be built with. */
  datatype Policy = KeepForever | KeepNever

  /** Every entry of `small` is an entry of `big`, with the same value. */
  ghost predicate Submap<K, V>(small: map<K, V>, big: map<K, V>) {
    forall k :: k in small ==> k in big && small[k] == big[k]
  }

  /**
    The entry map left after `policy` has made room for loading `key`.
    For both policies, eviction only removes entries: it never adds a key
    and never changes a value.
   */
  function Evict<K, V>(policy: Policy, key: K, data: map<K, V>): (d: map<K, V>)
    ensures Submap(d, data)
    ensures policy == KeepForever ==> d == data
    ensures policy == KeepNever ==> d.Keys == {}
  {
    match policy
    case KeepForever => data
    case KeepNever => map[]
  }

  /** Neither policy looks at the key it is given. */
  lemma EvictIgnoresKey<K, V>(policy: Policy, k1: K, k2: K, data: map<K, V>)
    ensures Evict(policy, k1, data) == Evict(policy, k2, data)
  {
  }

  /** Evicting twice in a row removes nothing more than evicting once. */
  lemma EvictIdempotent<K, V>(policy: Policy, k1: K, k2: K, data: map<K, V>)
    ensures Evict(policy, k2, Evict(policy, k1, data)) == Evict(policy, k1, data)
  {
  }
}
