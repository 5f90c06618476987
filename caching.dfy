/** The process-local cache behind `django.core.cache.cache`, as the view uses it:
    a map from key to a stored value with its expiry time. The clock is abstract:
    every operation is given the current time `now`. */
module Caching {
  import opened Wrappers

  datatype Item<V> = Item(value: V, expiry: int)

  /** An entry is served while the clock is strictly before its expiry. */
  predicate Live<V>(entries: map<string, Item<V>>, key: string, now: int)
  {
    key in entries && now < entries[key].expiry
  }

  /** `cache.get(key)`: the stored value of a live entry, None otherwise. */
  function Lookup<V>(entries: map<string, Item<V>>, key: string, now: int): (r: Option<V>)
    ensures r.Some? <==> Live(entries, key, now)
  {
    if Live(entries, key, now) then Some(entries[key].value) else None
  }

  /** `cache.set(key, value, timeout)`: the entry for `key` is replaced. */
  function Put<V>(entries: map<string, Item<V>>, key: string, value: V, timeout: nat, now: int)
    : (r: map<string, Item<V>>)
    ensures r.Keys == entries.Keys + {key}
    ensures r[key] == Item(value, now + timeout)
    ensures forall k | k in entries && k != key :: r[k] == entries[k]
  {
    entries[key := Item(value, now + timeout)]
  }

  /** A value just stored is read back exactly while its timeout has not run out,
      and storing under one key changes no reading of any other key. */
  lemma PutThenLookup<V>(entries: map<string, Item<V>>, key: string, value: V,
                         timeout: nat, now: int, later: int, other: string)
    ensures Lookup(Put(entries, key, value, timeout, now), key, later) ==
            if later < now + timeout then Some(value) else None
    ensures other != key ==>
            Lookup(Put(entries, key, value, timeout, now), other, later) == Lookup(entries, other, later)
  {
  }

  class Cache<V> {
    var entries: map<string, Item<V>>

    constructor ()
      ensures entries == map[]
    {
      entries := map[];
    }

    method Get(key: string, now: int) returns (r: Option<V>)
      ensures r == Lookup(entries, key, now)
    {
      if key in entries && now < entries[key].expiry {
        r := Some(entries[key].value);
      } else {
        r := None;
      }
    }

    method Set(key: string, value: V, timeout: nat, now: int)
      modifies this
      ensures entries == Put(old(entries), key, value, timeout, now)
    {
      entries := entries[key := Item(value, now + timeout)];
    }

    /** `cache.clear()`: the only way an entry goes before its expiry. */
    method Clear()
      modifies this
      ensures entries == map[]
    {
      entries := map[];
    }
  }
}
