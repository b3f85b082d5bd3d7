/** The TTL cache under the API client. */
module Caching {
  import opened Prelude

  datatype Entry<V> = Entry(value: V, expiresAt: int)

  // ---- What the operations mean, on plain maps ----

  function Hit<V>(entries: map<string, Entry<V>>, key: string, now: int): Option<V> {
    if key in entries && now <= entries[key].expiresAt then Some(entries[key].value) else None
  }

  /** An expired entry is dropped when it is looked up. */
  function Evicted<V>(entries: map<string, Entry<V>>, key: string, now: int): map<string, Entry<V>> {
    if key in entries && now > entries[key].expiresAt then entries - {key} else entries
  }

  function Stored<V>(entries: map<string, Entry<V>>, key: string, value: V, now: int, ttl: int): map<string, Entry<V>> {
    entries[key := Entry(value, now + ttl)]
  }

  /** An entry counts up to the instant at which it expires; looking a key up drops at most
      that key's entry, and only if it has expired. */
  lemma LookedUp<V>(entries: map<string, Entry<V>>, key: string, now: int, k: string)
    ensures Hit(entries, key, now).Some? <==> key in entries && entries[key].expiresAt >= now
    ensures Hit(entries, key, now).Some? ==> Hit(entries, key, now).value == entries[key].value
    ensures k in Evicted(entries, key, now) <==> k in entries && (k == key ==> entries[k].expiresAt >= now)
    ensures k in Evicted(entries, key, now) ==> Evicted(entries, key, now)[k] == entries[k]
  {
  }

  /** A TTL-based cache for arbitrary values. */
  class Cache<V> {
    const ttl: int
    var entries: map<string, Entry<V>>

    constructor (ttl: int)
      ensures this.ttl == ttl && entries == map[]
    {
      this.ttl := ttl;
      entries := map[];
    }

    /** The cached value, if there is one and it has not expired. */
    method Get(key: string, now: int) returns (r: Option<V>)
      modifies this
      ensures r == Hit(old(entries), key, now)
      ensures entries == Evicted(old(entries), key, now)
    {
      var ok := key in entries;
      if !ok || now > entries[key].expiresAt {
        if ok {
          entries := entries - {key};
        }
        return None;
      }
      return Some(entries[key].value);
    }

    method Set(key: string, value: V, now: int)
      modifies this
      ensures entries == Stored(old(entries), key, value, now, ttl)
    {
      entries := entries[key := Entry(value, now + ttl)];
    }

    method Delete(key: string)
      modifies this
      ensures entries == old(entries) - {key}
    {
      entries := entries - {key};
    }

    /** Removes every key that starts with prefix, and no other. */
    method DeletePrefix(prefix: string)
      modifies this
      ensures entries == map k | k in old(entries) && !(prefix <= k) :: old(entries)[k]
    {
      var rest := entries.Keys;
      while rest != {}
        invariant rest <= old(entries).Keys
        invariant entries == map k | k in old(entries) && (k in rest || !(prefix <= k)) :: old(entries)[k]
        decreases rest
      {
        var k :| k in rest;
        rest := rest - {k};
        if |k| >= |prefix| && k[..|prefix|] == prefix {
          entries := entries - {k};
        }
      }
    }
  }
}
