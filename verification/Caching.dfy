/** The Redis commands the application uses for caching, and the cache service on top of them. */
module Caching {
  import opened Rows
  import opened CacheKeys
  import opened Protocol
  import opened Requests

  /** A key past its expiry reads as absent; it may linger in `entries` until something overwrites it. */
  class Redis {
    var entries: map<string, Cached>
    var clock: nat

    constructor ()
      ensures entries == map[] && clock == 0
    {
      entries, clock := map[], 0;
    }

    method Get(key: string) returns (value: Option<CacheValue>)
      ensures value == if key in entries && clock <= entries[key].expires then Some(entries[key].value) else None
    {
      if key in entries && clock <= entries[key].expires { return Some(entries[key].value); }
      return None;
    }

    method SetEx(key: string, ttl: nat, value: CacheValue)
      modifies `entries
      ensures entries == old(entries)[key := Cached(value, clock + ttl)]
    {
      entries := entries[key := Cached(value, clock + ttl)];
    }

    method Keys(pattern: string) returns (keys: set<string>)
      ensures forall k :: k in keys <==> k in entries && Glob(pattern, k)
    {
      keys := set k | k in entries && Glob(pattern, k);
    }

    method Delete(keys: set<string>)
      modifies `entries
      ensures entries == old(entries) - keys
    {
      entries := entries - keys;
    }
  }

  /** Until `Connect` is called every operation is a no-op. */
  class CacheService {
    const server: Redis
    var client: Redis?

    ghost predicate Valid()
      reads this
    {
      client == null || client == server
    }

    /** The cache's part of the application state; the tables and messages are `core`. */
    ghost function State(core: Core): App
      reads this, server
    {
      App(core, server.entries, client != null, server.clock)
    }

    constructor (server: Redis)
      ensures this.server == server && client == null && Valid()
    {
      this.server := server;
      client := null;
    }

    method Connect()
      modifies `client
      ensures Valid() && client != null
    {
      client := server;
    }

    method Get(key: string) returns (value: Option<CacheValue>)
      requires Valid()
      ensures forall core :: value == Lookup(State(core), key)
    {
      if client == null { return None; }
      value := client.Get(key);
    }

    method Set(key: string, value: CacheValue, ttl: nat)
      requires Valid()
      modifies server`entries
      ensures forall core :: State(core) == Fill(old(State(core)), key, value, ttl)
    {
      if client == null { return; }
      client.SetEx(key, ttl, value);
    }

    method Delete(key: string)
      requires Valid()
      modifies server`entries
      ensures server.entries == if client == null then old(server.entries) else old(server.entries) - {key}
    {
      if client == null { return; }
      client.Delete({key});
    }

    /** KEYS, then DEL of what it found; a fault strikes at KEYS, or at a DEL that has run. */
    method DeletePattern(pattern: string, fault: Fault) returns (ok: bool)
      requires Valid() && (fault.AtCache? ==> client != null)
      modifies server`entries
      ensures ok == !fault.AtCache?
      ensures server.entries
           == if client != null && fault != AtCache(false) then Drop(old(server.entries), pattern)
              else old(server.entries)
    {
      if client == null { return true; }
      if fault == AtCache(false) { return false; }
      var keys := client.Keys(pattern);
      if keys != {} {
        client.Delete(keys);
      }
      assert server.entries == Drop(old(server.entries), pattern);
      return !fault.AtCache?;
    }
  }
}
