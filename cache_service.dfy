/** The in-memory cache: items keyed by string, each stamped by the caller, that
    expire five minutes after their stamp. `now` is the clock reading at the call,
    in milliseconds. */
module Cache {
  import opened Common

  /** Five minutes, in milliseconds. */
  const CacheTimeout: int := 1000 * 60 * 5

  datatype CacheItem<T> = CacheItem(data: T, timestamp: int)

  /** An item has expired once more than the timeout has passed since its stamp. */
  predicate Expired<T>(item: CacheItem<T>, now: int)
  {
    now - item.timestamp > CacheTimeout
  }

  /** What `get` returns: the stored item unless it is missing or expired. */
  function Lookup<T>(m: map<string, CacheItem<T>>, key: string, now: int): (r: Option<CacheItem<T>>)
    ensures r.Some? <==> key in m && now - m[key].timestamp <= 300000
    ensures r.Some? ==> r.value == m[key]
  {
    if key !in m || Expired(m[key], now) then None else Some(m[key])
  }

  /** What `get` leaves in the cache: an expired item under the key is evicted and
      nothing else changes. */
  function AfterGet<T>(m: map<string, CacheItem<T>>, key: string, now: int): (r: map<string, CacheItem<T>>)
    ensures forall k | k != key :: (k in r <==> k in m) && (k in r ==> r[k] == m[k])
    ensures key in r <==> key in m && !Expired(m[key], now)
  {
    if key in m && Expired(m[key], now) then m - {key} else m
  }

  /** An item that was just set is found until its timeout passes, and never after. */
  lemma SetThenGet<T>(m: map<string, CacheItem<T>>, key: string, item: CacheItem<T>, now: int)
    ensures Lookup(m[key := item], key, now) == if now <= item.timestamp + CacheTimeout then Some(item) else None
  {
  }

  /** Setting one key does not change what `get` finds under another. */
  lemma SetIsolated<T>(m: map<string, CacheItem<T>>, key: string, item: CacheItem<T>, other: string, now: int)
    requires other != key
    ensures Lookup(m[key := item], other, now) == Lookup(m, other, now)
  {
  }

  /** Expiry is final: an item not found at one time is not found later either, and
      after a `get` a second `get` at the same time finds the same thing. */
  lemma ExpiryIsFinal<T>(m: map<string, CacheItem<T>>, key: string, t1: int, t2: int)
    requires t1 <= t2
    ensures Lookup(m, key, t1).None? ==> Lookup(m, key, t2).None?
    ensures Lookup(AfterGet(m, key, t1), key, t1) == Lookup(m, key, t1)
    ensures Lookup(AfterGet(m, key, t1), key, t2) == Lookup(m, key, t2)
  {
  }

  class CacheService<T> {
    var cache: map<string, CacheItem<T>>

    constructor ()
      ensures cache == map[]
    {
      cache := map[];
    }

    /** `set`: stores the item under the key, replacing any earlier one. */
    method Set(key: string, value: CacheItem<T>)
      modifies this
      ensures cache == old(cache)[key := value]
    {
      cache := cache[key := value];
    }

    /** `get`: the item under the key if present and not expired; an expired item is
        evicted. */
    method Get(key: string, now: int) returns (r: Option<CacheItem<T>>)
      modifies this
      ensures r == Lookup(old(cache), key, now)
      ensures cache == AfterGet(old(cache), key, now)
    {
      if key !in cache {
        return None;
      }
      var cached := cache[key];
      if now - cached.timestamp > CacheTimeout {
        cache := cache - {key};
        return None;
      }
      r := Some(cached);
    }

    /** `clear`: removes the key only. */
    method Clear(key: string)
      modifies this
      ensures cache == old(cache) - {key}
    {
      cache := cache - {key};
    }

    /** `clearAll`. */
    method ClearAll()
      modifies this
      ensures cache == map[]
    {
      cache := map[];
    }
  }
}
