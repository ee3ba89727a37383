/**
 * The generic TTL cache (`CustomCacheManager<K, V>`): a map from keys to entries that
 * carry a value and an absolute expiry time in milliseconds.  The wall clock is an
 * explicit `now` argument; expiry is lazy (an expired entry is removed when read) and a
 * sweep removes every expired entry at once.
 */
module Cache {
  import opened Wrappers

  datatype Entry<V> = Entry(value: V, expiryTime: int)

  /** An entry is expired only when the clock has passed its expiry time (strictly). */
  predicate IsExpired<V>(e: Entry<V>, now: int)
  {
    now > e.expiryTime
  }

  /** The entry `put` builds: it expires `ttl` milliseconds after the moment it is stored. */
  function NewEntry<V>(value: V, now: int, ttl: int): (e: Entry<V>)
    ensures e.value == value
    ensures !IsExpired(e, now) <==> ttl >= 0
    ensures forall t :: IsExpired(e, t) <==> t - now > ttl
  {
    Entry(value, now + ttl)
  }

  /** The value `get` returns: present exactly when an entry exists and has not expired. */
  function Lookup<K, V>(m: map<K, Entry<V>>, key: K, now: int): (r: Option<V>)
    ensures r.Some? <==> key in m && !IsExpired(m[key], now)
    ensures r.Some? ==> r.value == m[key].value
  {
    if key in m && !IsExpired(m[key], now) then Some(m[key].value) else None
  }

  /** The map after `get`: an expired entry for `key` is dropped, nothing else changes. */
  function AfterGet<K, V>(m: map<K, Entry<V>>, key: K, now: int): (r: map<K, Entry<V>>)
    ensures r.Keys == if key in m && IsExpired(m[key], now) then m.Keys - {key} else m.Keys
    ensures forall k :: k in r ==> r[k] == m[k]
  {
    if key in m && IsExpired(m[key], now) then m - {key} else m
  }

  /** The keys whose entries have expired at `now`. */
  function ExpiredKeys<K, V>(m: map<K, Entry<V>>, now: int): (ks: set<K>)
    ensures ks <= m.Keys
    ensures forall k :: k in m ==> (k in ks <==> IsExpired(m[k], now))
  {
    set k | k in m && IsExpired(m[k], now)
  }

  /** The map after a sweep at `now`: exactly the unexpired entries, unchanged. */
  function Unexpired<K, V>(m: map<K, Entry<V>>, now: int): (r: map<K, Entry<V>>)
    ensures r.Keys <= m.Keys
    ensures forall k :: k in m ==> (k in r <==> !IsExpired(m[k], now))
    ensures forall k :: k in r ==> r[k] == m[k]
  {
    map k | k in m && !IsExpired(m[k], now) :: m[k]
  }

  // ---------------------------------------------------------------------------
  // Properties of the specification
  // ---------------------------------------------------------------------------

  /** A value stored at `t` with `ttl` is served at every `now <= t + ttl` and at no later time. */
  lemma PutThenGet<K, V>(m: map<K, Entry<V>>, key: K, value: V, t: int, ttl: int, now: int)
    ensures Lookup(m[key := NewEntry(value, t, ttl)], key, now)
            == if now <= t + ttl then Some(value) else None
  {
  }

  /** A TTL of 0 is served at the instant of the put and expired one millisecond later. */
  lemma ZeroTtl<K, V>(m: map<K, Entry<V>>, key: K, value: V, t: int)
    ensures Lookup(m[key := NewEntry(value, t, 0)], key, t) == Some(value)
    ensures Lookup(m[key := NewEntry(value, t, 0)], key, t + 1) == None
  {
  }

  /** `put` leaves every other key's entry as it was, and keeps one entry per key. */
  lemma PutOverwrites<K, V>(m: map<K, Entry<V>>, key: K, value: V, t: int, ttl: int)
    ensures var m' := m[key := NewEntry(value, t, ttl)];
      && m'.Keys == m.Keys + {key}
      && m'[key].value == value
      && (forall k :: k in m && k != key ==> m'[k] == m[k])
      && |m'| == if key in m then |m| else |m| + 1
  {
  }

  /** `get` on a missing key leaves the map as it was. */
  lemma GetMiss<K, V>(m: map<K, Entry<V>>, key: K, now: int)
    requires key !in m
    ensures Lookup(m, key, now) == None && AfterGet(m, key, now) == m
  {
  }

  /** `get` on an expired entry removes exactly that key and the size drops by one. */
  lemma GetExpired<K, V>(m: map<K, Entry<V>>, key: K, now: int)
    requires key in m && IsExpired(m[key], now)
    ensures Lookup(m, key, now) == None
    ensures AfterGet(m, key, now).Keys == m.Keys - {key}
    ensures forall k :: k in m && k != key ==> AfterGet(m, key, now)[k] == m[k]
    ensures |AfterGet(m, key, now)| == |m| - 1
  {
  }

  /** Lazy eviction never changes what any later `get` at the same or a later time returns. */
  lemma AfterGetInvisible<K, V>(m: map<K, Entry<V>>, key: K, now: int, k: K, later: int)
    requires now <= later
    ensures Lookup(AfterGet(m, key, now), k, later) == Lookup(m, k, later)
  {
  }

  /** A sweep never changes what `get` returns at the same or a later time. */
  lemma SweepInvisible<K, V>(m: map<K, Entry<V>>, now: int, k: K, later: int)
    requires now <= later
    ensures Lookup(Unexpired(m, now), k, later) == Lookup(m, k, later)
  {
  }

  /** Sweeping twice at the same time removes nothing more. */
  lemma SweepIdempotent<K, V>(m: map<K, Entry<V>>, now: int)
    ensures Unexpired(Unexpired(m, now), now) == Unexpired(m, now)
  {
  }

  /** The expired and unexpired entries split the map: the sweep's count is old size minus new size. */
  lemma SweepCount<K, V>(m: map<K, Entry<V>>, now: int)
    ensures |ExpiredKeys(m, now)| == |m| - |Unexpired(m, now)|
  {
    var ex := ExpiredKeys(m, now);
    var kept := Unexpired(m, now).Keys;
    assert m.Keys == ex + kept;
    assert ex !! kept;
    assert |m.Keys| == |ex| + |kept|;
  }

  /** After `clear`, every `get` misses. */
  lemma ClearedMisses<K, V>(key: K, now: int)
    ensures var cleared: map<K, Entry<V>> := map[]; Lookup(cleared, key, now) == None
  {
  }

  // ---------------------------------------------------------------------------
  // The cache object
  // ---------------------------------------------------------------------------

  class CacheManager<K(==), V>
  {
    /** The stored entries, expired ones included until a read or a sweep removes them. */
    var entries: map<K, Entry<V>>

    constructor ()
      ensures entries == map[]
    {
      entries := map[];
    }

    /** Stores `value` under `key`, replacing any entry, to expire `ttl` ms after `now`. */
    method Put(key: K, value: V, ttl: int, now: int)
      modifies this
      ensures entries == old(entries)[key := NewEntry(value, now, ttl)]
    {
      entries := entries[key := NewEntry(value, now, ttl)];
    }

    /** Returns the unexpired value under `key`; an expired entry is removed on the way. */
    method Get(key: K, now: int) returns (r: Option<V>)
      modifies this
      ensures r == Lookup(old(entries), key, now)
      ensures entries == AfterGet(old(entries), key, now)
    {
      if key !in entries {
        return None;
      }
      var entry := entries[key];
      if IsExpired(entry, now) {
        entries := entries - {key};
        return None;
      }
      return Some(entry.value);
    }

    /** Whether an unexpired entry exists; defined through `Get`, with its side effect. */
    method Contains(key: K, now: int) returns (b: bool)
      modifies this
      ensures b <==> Lookup(old(entries), key, now).Some?
      ensures entries == AfterGet(old(entries), key, now)
    {
      var r := Get(key, now);
      b := r.Some?;
    }

    /** Removes every entry. */
    method Clear()
      modifies this
      ensures entries == map[]
    {
      entries := map[];
    }

    /** Removes every entry expired at `now` and returns how many it removed. */
    method EvictExpired(now: int) returns (count: nat)
      modifies this
      ensures entries == Unexpired(old(entries), now)
      ensures count == |old(entries)| - |entries|
      ensures count == |ExpiredKeys(old(entries), now)|
    {
      count := 0;
      var pending := entries.Keys;
      while pending != {}
        invariant pending <= old(entries).Keys
        invariant forall k :: k in entries <==>
                    k in old(entries) && (k in pending || !IsExpired(old(entries)[k], now))
        invariant forall k :: k in entries ==> entries[k] == old(entries)[k]
        invariant count == |old(entries)| - |entries|
        decreases pending
      {
        var k :| k in pending;
        if IsExpired(entries[k], now) {
          assert (entries - {k}).Keys == entries.Keys - {k};
          entries := entries - {k};
          count := count + 1;
        }
        pending := pending - {k};
      }
      assert entries == Unexpired(old(entries), now);
      SweepCount(old(entries), now);
    }

    /** The number of stored entries, counting expired ones not yet removed. */
    method Size() returns (n: nat)
      ensures n == |entries|
    {
      n := |entries|;
    }
  }
}
