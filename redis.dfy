/** The best-effort cache-aside controller of `api/src/config/redis.js`.

    The Redis server is a map from keys to entries that remember their TTL;
    the module's mutable `client`, `isConnected` and `stats` are the fields
    of `Cache`. Whether a call to the client throws is an input `fails` of
    each operation. The pure functions `GetResult`, `AfterGet`, `AfterSet`
    and `AfterInvalidate` say what each operation returns and leaves behind;
    the methods of `Cache` are proved to follow them. */
module Redis {
  import opened Js

  /** A stored value together with the TTL (seconds) it was written with. */
  datatype Entry<V> = Entry(value: V, ttl: int)

  /** The `stats` accumulator. */
  datatype Stats = Stats(hits: nat, misses: nat, errors: nat)

  /** The `hitRate` getter: the rounded percentage of hits among lookups
      that reached a verdict, 0 before the first one. */
  function HitRate(s: Stats): (r: nat)
    ensures r <= 100
    ensures s.hits + s.misses == 0 ==> r == 0
    ensures s.hits + s.misses > 0 ==>
      2 * (s.hits + s.misses) * r <= 200 * s.hits + (s.hits + s.misses) < 2 * (s.hits + s.misses) * (r + 1)
  {
    var total := s.hits + s.misses;
    if total > 0 then RoundedPercent(s.hits, total) else 0
  }

  /** No counter went down. */
  predicate StatsGrew(before: Stats, after: Stats)
  {
    before.hits <= after.hits && before.misses <= after.misses && before.errors <= after.errors
  }

  /** A `KEYS` pattern of the form `<prefix>*`, the only form the task board uses. */
  datatype Pattern = PrefixWildcard(prefix: string)

  predicate Matches(p: Pattern, key: string)
  {
    p.prefix <= key
  }

  /** Everything the controller can observe: the server's keys, whether a
      client object exists, the connected flag and the counters. */
  datatype State<V> = State(
    store: map<string, Entry<V>>,
    hasClient: bool,
    isConnected: bool,
    stats: Stats)

  /** `isConnected && client`: the guard of every operation. */
  predicate Ready<V>(s: State<V>)
  {
    s.isConnected && s.hasClient
  }

  /** What `getCache(key)` returns (`None` is `null`). */
  function GetResult<V>(s: State<V>, key: string, fails: bool): Option<V>
  {
    if Ready(s) && !fails && key in s.store then Some(s.store[key].value) else None
  }

  /** The state `getCache(key)` leaves: one counter goes up, nothing else changes. */
  function AfterGet<V>(s: State<V>, key: string, fails: bool): State<V>
  {
    var st := s.stats;
    if !Ready(s) then s.(stats := st.(misses := st.misses + 1))
    else if fails then s.(stats := st.(errors := st.errors + 1))
    else if key in s.store then s.(stats := st.(hits := st.hits + 1))
    else s.(stats := st.(misses := st.misses + 1))
  }

  /** `ttlSeconds || parseInt(process.env.REDIS_TTL) || 60`, where an omitted
      `ttlSeconds` is 0 and an unparsable `REDIS_TTL` is `None`. */
  function EffectiveTtl(ttlSeconds: int, redisTtl: Option<int>): (ttl: int)
    ensures ttl != 0
    ensures ttlSeconds != 0 ==> ttl == ttlSeconds
  {
    if ttlSeconds != 0 then ttlSeconds
    else if redisTtl.Some? && redisTtl.value != 0 then redisTtl.value
    else 60
  }

  /** The state `setCache(key, data, ttlSeconds)` leaves. A client failure,
      and Redis refusing a non-positive expire time, count as an error. */
  function AfterSet<V>(s: State<V>, key: string, data: V, ttlSeconds: int, redisTtl: Option<int>, fails: bool): State<V>
  {
    var ttl := EffectiveTtl(ttlSeconds, redisTtl);
    if !Ready(s) then s
    else if fails || ttl <= 0 then s.(stats := s.stats.(errors := s.stats.errors + 1))
    else s.(store := s.store[key := Entry(data, ttl)])
  }

  /** The state `invalidateCache(pattern)` leaves: the matching keys are
      deleted when the client answers; a failure is swallowed uncounted. */
  function AfterInvalidate<V>(s: State<V>, p: Pattern, fails: bool): State<V>
  {
    if !Ready(s) || fails then s
    else s.(store := map k | k in s.store && !Matches(p, k) :: s.store[k])
  }

  /** Every operation the controller offers, and the events its client raises. */
  datatype Op<V> =
    | Get(key: string, fails: bool)
    | Set(key: string, data: V, ttlSeconds: int, fails: bool)
    | Invalidate(pattern: Pattern, fails: bool)
    | ClientCreated
    | ConnectEvent
    | ErrorEvent
    | Expired(key: string)

  function Apply<V>(s: State<V>, op: Op<V>, redisTtl: Option<int>): State<V>
  {
    match op
    case Get(k, f) => AfterGet(s, k, f)
    case Set(k, v, t, f) => AfterSet(s, k, v, t, redisTtl, f)
    case Invalidate(p, f) => AfterInvalidate(s, p, f)
    case ClientCreated => s.(hasClient := true)
    case ConnectEvent => s.(isConnected := true)
    case ErrorEvent => s.(isConnected := false)
    case Expired(k) => s.(store := s.store - {k})
  }

  function Run<V>(s: State<V>, ops: seq<Op<V>>, redisTtl: Option<int>): State<V>
    decreases |ops|
  {
    if ops == [] then s else Run(Apply(s, ops[0], redisTtl), ops[1..], redisTtl)
  }

  /** `hits`, `misses` and `errors` only ever increase: no sequence of
      operations and events resets or decrements them. */
  lemma {:induction false} CountersNeverDecrease<V>(s: State<V>, ops: seq<Op<V>>, redisTtl: Option<int>)
    ensures StatsGrew(s.stats, Run(s, ops, redisTtl).stats)
    decreases |ops|
  {
    if ops != [] {
      var s' := Apply(s, ops[0], redisTtl);
      assert StatsGrew(s.stats, s'.stats);
      CountersNeverDecrease(s', ops[1..], redisTtl);
    }
  }

  /** Each `getCache` call is counted exactly once, as a hit, a miss or an
      error, and changes nothing else. */
  lemma GetCountedOnce<V>(s: State<V>, key: string, fails: bool)
    ensures var t := AfterGet(s, key, fails);
      && t.store == s.store && Ready(t) == Ready(s)
      && t.stats.hits + t.stats.misses + t.stats.errors == s.stats.hits + s.stats.misses + s.stats.errors + 1
      && (GetResult(s, key, fails).Some? <==> t.stats.hits == s.stats.hits + 1)
  {
  }

  /** A connected, non-failing lookup of a stored key is a hit: `hits` goes
      up and the stored value is returned. */
  lemma PlainHit<V>(s: State<V>, key: string)
    requires Ready(s) && key in s.store
    ensures GetResult(s, key, false) == Some(s.store[key].value)
    ensures AfterGet(s, key, false) == s.(stats := s.stats.(hits := s.stats.hits + 1))
  {
  }

  /** A connected, non-failing lookup of an absent key is a miss: `misses`
      goes up and `null` is returned. */
  lemma PlainMiss<V>(s: State<V>, key: string)
    requires Ready(s) && key !in s.store
    ensures GetResult(s, key, false) == None
    ensures AfterGet(s, key, false) == s.(stats := s.stats.(misses := s.stats.misses + 1))
  {
  }

  /** Without a connected client a lookup is a plain miss: `misses` goes up,
      nothing else changes and `null` is returned. */
  lemma GetWhileDisconnected<V>(s: State<V>, key: string, fails: bool)
    requires !Ready(s)
    ensures GetResult(s, key, fails) == None
    ensures AfterGet(s, key, fails) == s.(stats := s.stats.(misses := s.stats.misses + 1))
  {
  }

  /** A client failure during a lookup is an error, not a miss, and the
      lookup still returns `null`. */
  lemma GetFailureIsError<V>(s: State<V>, key: string)
    requires Ready(s)
    ensures GetResult(s, key, true) == None
    ensures AfterGet(s, key, true).stats == s.stats.(errors := s.stats.errors + 1)
  {
  }

  /** A value stored by a successful `setCache` is what the next successful
      `getCache` of that key returns, and that lookup is a hit. */
  lemma SetThenGet<V>(s: State<V>, key: string, data: V, ttlSeconds: int, redisTtl: Option<int>, fails: bool)
    requires Ready(s) && EffectiveTtl(ttlSeconds, redisTtl) > 0
    ensures var t := AfterSet(s, key, data, ttlSeconds, redisTtl, false);
      && GetResult(t, key, fails) == (if fails then None else Some(data))
      && (!fails ==> AfterGet(t, key, fails).stats == s.stats.(hits := s.stats.hits + 1))
  {
  }

  /** `setCache` without a connected client changes nothing, counters included. */
  lemma SetWhileDisconnected<V>(s: State<V>, key: string, data: V, ttlSeconds: int, redisTtl: Option<int>, fails: bool)
    requires !Ready(s)
    ensures AfterSet(s, key, data, ttlSeconds, redisTtl, fails) == s
  {
  }

  /** The TTL written is `ttlSeconds` when that is non-zero, else a non-zero
      `REDIS_TTL`, else 60; a failed write only counts an error. */
  lemma SetTtlChoice<V>(s: State<V>, key: string, data: V, ttlSeconds: int, redisTtl: Option<int>, fails: bool)
    requires Ready(s)
    ensures var t := AfterSet(s, key, data, ttlSeconds, redisTtl, fails);
      var ttl := EffectiveTtl(ttlSeconds, redisTtl);
      && (ttlSeconds != 0 ==> ttl == ttlSeconds)
      && (ttlSeconds == 0 && redisTtl.Some? && redisTtl.value != 0 ==> ttl == redisTtl.value)
      && (ttlSeconds == 0 && (redisTtl.None? || redisTtl.value == 0) ==> ttl == 60)
      && (!fails && ttl > 0 ==> t.store == s.store[key := Entry(data, ttl)] && t.stats == s.stats)
      && (fails ==> t.store == s.store && t.stats == s.stats.(errors := s.stats.errors + 1))
  {
  }

  /** After a successful invalidation no key matching the pattern is left
      and every other key keeps its entry; without a connected client, or
      when the client fails, nothing changes and no error is counted. */
  lemma InvalidateRemovesMatches<V>(s: State<V>, p: Pattern, fails: bool)
    ensures var t := AfterInvalidate(s, p, fails);
      && t.stats == s.stats
      && (Ready(s) && !fails ==>
            (forall k :: k in t.store ==> !Matches(p, k))
            && (forall k :: k in s.store && !Matches(p, k) ==> k in t.store && t.store[k] == s.store[k]))
      && (!Ready(s) || fails ==> t == s)
  {
  }

  /** Once no key of a namespace is left, every lookup in it misses. */
  lemma NoMatchMeansMiss<V>(s: State<V>, p: Pattern, key: string, fails: bool)
    requires forall k :: k in s.store ==> !Matches(p, k)
    requires Matches(p, key)
    ensures GetResult(s, key, fails) == None
  {
  }

  /** The module-level state of `redis.js`: the client handle, the connected
      flag, the counters, and the Redis server the client talks to. */
  class Cache<V> {
    var store: map<string, Entry<V>>
    var hasClient: bool
    var isConnected: bool
    var stats: Stats
    /** `parseInt(process.env.REDIS_TTL)`, `None` when it is not a number. */
    const redisTtl: Option<int>

    function Snapshot(): State<V>
      reads this
    {
      State(store, hasClient, isConnected, stats)
    }

    /** Module load: no client, disconnected, all counters 0; the server
        may already hold entries. */
    constructor (server: map<string, Entry<V>>, redisTtl: Option<int>)
      ensures Snapshot() == State(server, false, false, Stats(0, 0, 0))
      ensures this.redisTtl == redisTtl
    {
      store := server;
      hasClient := false;
      isConnected := false;
      stats := Stats(0, 0, 0);
      this.redisTtl := redisTtl;
    }

    /** `client = createClient(...)` in `connectRedis`. */
    method CreateClient()
      modifies this
      ensures Snapshot() == Apply(old(Snapshot()), ClientCreated, redisTtl)
    {
      hasClient := true;
    }

    /** The client's `connect` event. */
    method OnConnect()
      modifies this
      ensures Snapshot() == Apply(old(Snapshot()), ConnectEvent, redisTtl)
    {
      isConnected := true;
    }

    /** The client's `error` event, and the failure branch of `connectRedis`. */
    method OnError()
      modifies this
      ensures Snapshot() == Apply(old(Snapshot()), ErrorEvent, redisTtl)
    {
      isConnected := false;
    }

    /** An entry's TTL running out, at a moment the model does not track. */
    method Expire(key: string)
      modifies this
      ensures Snapshot() == Apply(old(Snapshot()), Expired(key), redisTtl)
    {
      store := store - {key};
    }

    /** `getCache(key)`: never throws. */
    method GetCache(key: string, fails: bool) returns (r: Option<V>)
      modifies this
      ensures r == GetResult(old(Snapshot()), key, fails)
      ensures Snapshot() == AfterGet(old(Snapshot()), key, fails)
    {
      if !isConnected || !hasClient {
        stats := stats.(misses := stats.misses + 1);
        return None;
      }
      if fails {
        stats := stats.(errors := stats.errors + 1);
        return None;
      }
      if key in store {
        stats := stats.(hits := stats.hits + 1);
        return Some(store[key].value);
      }
      stats := stats.(misses := stats.misses + 1);
      return None;
    }

    /** `setCache(key, data, ttlSeconds)`: never throws. */
    method SetCache(key: string, data: V, ttlSeconds: int, fails: bool)
      modifies this
      ensures Snapshot() == AfterSet(old(Snapshot()), key, data, ttlSeconds, redisTtl, fails)
    {
      if !isConnected || !hasClient {
        return;
      }
      var ttl := EffectiveTtl(ttlSeconds, redisTtl);
      if fails || ttl <= 0 {
        stats := stats.(errors := stats.errors + 1);
        return;
      }
      store := store[key := Entry(data, ttl)];
    }

    /** `invalidateCache(pattern)`: never throws. */
    method InvalidateCache(p: Pattern, fails: bool)
      modifies this
      ensures Snapshot() == AfterInvalidate(old(Snapshot()), p, fails)
    {
      if !isConnected || !hasClient || fails {
        return;
      }
      ghost var before := store;
      var keys := set k | k in store && Matches(p, k);
      assert forall k :: k in store && Matches(p, k) ==> k in keys;
      if keys != {} {
        store := store - keys;
      }
      assert forall k :: k in store <==> k in before && !Matches(p, k);
      assert forall k :: k in store ==> store[k] == before[k];
    }
  }
}
