/**
  The key-value cache with lifetimes in whole seconds (src/infrastructure/cache/cache.service.ts).
  A command of an unreachable cache answers as the service's catch blocks do.
 */
module Cache {
  import opened Wrappers

  datatype Entry<V> = Entry(value: V, expiresAt: Option<Time>)

  type Store<V> = map<string, Entry<V>>

  /** The key has an entry that has not expired. */
  predicate Live<V>(store: Store<V>, key: string, now: Time) {
    key in store && (store[key].expiresAt.None? || now < store[key].expiresAt.value)
  }

  function Expiry(ttlSeconds: int, now: Time): Option<Time> {
    if ttlSeconds > 0 then Some(now + 1000 * ttlSeconds) else None
  }

  function GetAt<V>(store: Store<V>, key: string, up: bool, now: Time): Option<V> {
    if up && Live(store, key, now) then Some(store[key].value) else None
  }

  function SetAt<V>(store: Store<V>, key: string, value: V, ttlSeconds: int, up: bool, now: Time): Store<V> {
    if up then store[key := Entry(value, Expiry(ttlSeconds, now))] else store
  }

  function DeleteAt<V>(store: Store<V>, key: string, up: bool): Store<V> {
    if up then store - {key} else store
  }

  predicate ExistsAt<V>(store: Store<V>, key: string, up: bool, now: Time) {
    up && Live(store, key, now)
  }

  datatype Health = Health(getUp: bool, setUp: bool)

  /** getOrSet with what the loader would return. */
  function GetOrSetAt<V>(store: Store<V>, key: string, loaded: V, ttlSeconds: int, health: Health, now: Time): (Store<V>, V) {
    match GetAt(store, key, health.getUp, now)
    case Some(cached) => (store, cached)
    case None => (SetAt(store, key, loaded, ttlSeconds, health.setUp, now), loaded)
  }

  class CacheService<V> {
    var store: Store<V>

    constructor ()
      ensures store == map[]
    {
      store := map[];
    }

    method Get(key: string, up: bool, now: Time) returns (found: Option<V>)
      ensures found == GetAt(store, key, up, now)
    {
      if !up {
        return None;
      }
      if key !in store {
        return None;
      }
      var entry := store[key];
      if entry.expiresAt.Some? && entry.expiresAt.value <= now {
        return None;
      }
      return Some(entry.value);
    }

    method Set(key: string, value: V, ttlSeconds: int, up: bool, now: Time) returns (stored: bool)
      modifies this
      ensures stored == up && store == SetAt(old(store), key, value, ttlSeconds, up, now)
    {
      if !up {
        return false;
      }
      if ttlSeconds != 0 && ttlSeconds > 0 {
        store := store[key := Entry(value, Some(now + 1000 * ttlSeconds))];
      } else {
        store := store[key := Entry(value, None)];
      }
      return true;
    }

    method Delete(key: string, up: bool)
      modifies this
      ensures store == DeleteAt(old(store), key, up)
    {
      if up {
        store := store - {key};
      }
    }

    method Exists(key: string, up: bool, now: Time) returns (found: bool)
      ensures found == ExistsAt(store, key, up, now)
    {
      found := up && key in store && (store[key].expiresAt.None? || now < store[key].expiresAt.value);
    }

    method GetOrSet(key: string, loaded: V, ttlSeconds: int, health: Health, now: Time) returns (value: V)
      modifies this
      ensures (store, value) == GetOrSetAt(old(store), key, loaded, ttlSeconds, health, now)
    {
      var cached := Get(key, health.getUp, now);
      if cached.Some? {
        return cached.value;
      }
      var _ := Set(key, loaded, ttlSeconds, health.setUp, now);
      return loaded;
    }
  }

  /** Exactly until it expires, what the first getOrSet stored answers every later one, whatever their loaders return. */
  lemma GetOrSetAnswersAlike<V>(store: Store<V>, key: string, first: V, second: V, ttlSeconds: int, health: Health, now: Time, later: Time)
    requires health.setUp && !Live(store, key, now)
    ensures var (s1, v1) := GetOrSetAt(store, key, first, ttlSeconds, health, now);
            var (s2, v2) := GetOrSetAt(s1, key, second, ttlSeconds, Health(true, true), later);
            && v1 == first
            && (if ttlSeconds <= 0 || later < now + 1000 * ttlSeconds then s2 == s1 && v2 == first else v2 == second)
            && (forall k :: k != key ==> (k in s2 <==> k in store) && (k in store ==> s2[k] == store[k]))
  {
  }
}
