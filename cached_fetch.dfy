/**
 * The caching fetch hook: one cache shared by every use of the hook, keyed
 * by the fetch function's name and the hook's dependencies, whose entries
 * are served while younger than the cache duration.
 *
 * The fetch function's outcome and the clock are parameters: `outcome` is
 * what the call would return, `now` the time of the freshness check and
 * `storedAt` the time the response is stored.
 */
module CachedFetch {
  import opened Seqs
  import opened Strings

  /** Five minutes, in milliseconds. */
  const DefaultCacheDuration := 5 * 60 * 1000

  /** `generateCacheKey`: the function's name (or "anonymous"), a colon, the dependencies joined by "|". */
  function CacheKey(functionName: string, deps: seq<string>): string
  {
    FunctionName(functionName) + ":" + Join(deps, '|')
  }

  function FunctionName(name: string): string
  {
    if name == "" then "anonymous" else name
  }

  /** Splitting a join of separator-free parts gives the parts back. */
  lemma {:induction false} SplitJoin(parts: seq<string>, c: char)
    requires |parts| >= 1
    requires forall k :: 0 <= k < |parts| ==> c !in parts[k]
    ensures Split(Join(parts, c), c) == parts
    decreases |parts|
  {
    if |parts| == 1 {
      assert IndexOfChar(parts[0], c) < 0;
    } else {
      var rest := Join(parts[1..], c);
      FirstSeparator(parts[0], c, rest);
      SplitJoin(parts[1..], c);
      assert parts == [parts[0]] + parts[1..];
    }
  }

  /**
   * Different fetch functions or different dependencies get different keys,
   * provided names hold no ":", dependencies hold no "|" and there is at
   * least one dependency.
   */
  lemma CacheKeyInjective(name1: string, deps1: seq<string>, name2: string, deps2: seq<string>)
    requires ':' !in FunctionName(name1) && ':' !in FunctionName(name2)
    requires |deps1| >= 1 && |deps2| >= 1
    requires forall k :: 0 <= k < |deps1| ==> '|' !in deps1[k]
    requires forall k :: 0 <= k < |deps2| ==> '|' !in deps2[k]
    requires CacheKey(name1, deps1) == CacheKey(name2, deps2)
    ensures FunctionName(name1) == FunctionName(name2) && deps1 == deps2
  {
    var key := CacheKey(name1, deps1);
    FirstSeparator(FunctionName(name1), ':', Join(deps1, '|'));
    FirstSeparator(FunctionName(name2), ':', Join(deps2, '|'));
    SplitJoin(deps1, '|');
    SplitJoin(deps2, '|');
  }

  /** Without those provisos keys collide: a dependency holding "|" reads as two, and no dependency reads as one empty one. */
  lemma CacheKeyCollisions(name: string)
    ensures CacheKey(name, ["a|b"]) == CacheKey(name, ["a", "b"])
    ensures CacheKey(name, []) == CacheKey(name, [""])
    ensures CacheKey("", []) == CacheKey("anonymous", [])
  {
  }

  /** A cache entry: the response data and when it was stored. */
  datatype Entry<D> = Entry(data: D, timestamp: int)

  /** Whether the cache holds an entry for key younger than duration at time now. */
  predicate Fresh<D>(entries: map<string, Entry<D>>, key: string, now: int, duration: int)
  {
    key in entries && now - entries[key].timestamp < duration
  }

  /** The effect of one `fetchData` call: what it returns, the new cache, and whether the fetch function ran. */
  datatype FetchOutcome<D> = FetchOutcome(result: Option<D>, entries: map<string, Entry<D>>, fetched: bool)

  /** `fetchData({force})` as a function of the cache, the settings, the clock and the fetch outcome. */
  function Fetch<D>(entries: map<string, Entry<D>>, key: string, enableCache: bool, duration: int, force: bool,
                    now: int, outcome: Result<D>, storedAt: int): (o: FetchOutcome<D>)
    ensures !o.fetched <==> enableCache && !force && Fresh(entries, key, now, duration)
    ensures !o.fetched ==> o.result == Some(entries[key].data) && o.entries == entries
    ensures o.fetched && outcome.Failure? ==> o.result.None? && o.entries == entries
    ensures o.fetched && outcome.Success? ==> o.result == Some(outcome.value)
    ensures o.fetched && outcome.Success? && enableCache ==>
      o.entries == entries[key := Entry(outcome.value, storedAt)]
    ensures !enableCache ==> o.entries == entries
  {
    if enableCache && !force && Fresh(entries, key, now, duration) then
      FetchOutcome(Some(entries[key].data), entries, false)
    else
      match outcome
      case Failure(_) => FetchOutcome(None, entries, true)
      case Success(d) =>
        FetchOutcome(Some(d), if enableCache then entries[key := Entry(d, storedAt)] else entries, true)
  }

  /**
   * A response just stored is served from the cache, without another fetch,
   * by any call that is not forced and comes within the cache duration.
   */
  lemma StoredResponseIsServed<D>(entries: map<string, Entry<D>>, key: string, duration: int, d: D,
                                  storedAt: int, later: int, outcome: Result<D>, storedAgain: int)
    requires later - storedAt < duration
    ensures var first := Fetch(entries, key, true, duration, true, storedAt, Success(d), storedAt);
      var second := Fetch(first.entries, key, true, duration, false, later, outcome, storedAgain);
      !second.fetched && second.result == Some(d) && second.entries == first.entries
  {
  }

  /** Once the duration has passed, or with force, the fetch function runs again. */
  lemma StaleOrForcedRefetches<D>(entries: map<string, Entry<D>>, key: string, enableCache: bool, duration: int,
                                  force: bool, now: int, outcome: Result<D>, storedAt: int)
    requires force || !enableCache || key !in entries || now - entries[key].timestamp >= duration
    ensures Fetch(entries, key, enableCache, duration, force, now, outcome, storedAt).fetched
  {
  }

  /** Other keys are never touched by a fetch. */
  lemma FetchTouchesOnlyItsKey<D>(entries: map<string, Entry<D>>, key: string, other: string, enableCache: bool,
                                  duration: int, force: bool, now: int, outcome: Result<D>, storedAt: int)
    requires other != key
    ensures var o := Fetch(entries, key, enableCache, duration, force, now, outcome, storedAt);
      (other in o.entries <==> other in entries) && (other in entries ==> o.entries[other] == entries[other])
  {
  }

  /** The cache shared by every use of the hook (`globalCache`). */
  class ApiCache<D> {
    var entries: map<string, Entry<D>>

    constructor()
      ensures entries == map[]
    {
      entries := map[];
    }

    /** `invalidateCache`: forget the entry of one key. */
    method Invalidate(key: string)
      modifies this
      ensures entries == old(entries) - {key}
    {
      entries := entries - {key};
    }

    /** `clearAllCache`. */
    method ClearAll()
      modifies this
      ensures entries == map[]
    {
      entries := map[];
    }
  }

  /** After invalidating a key, the next fetch for it runs the fetch function; other keys keep their entries. */
  lemma InvalidateForcesFetch<D>(entries: map<string, Entry<D>>, key: string, other: string, enableCache: bool,
                                 duration: int, force: bool, now: int, outcome: Result<D>, storedAt: int)
    ensures Fetch(entries - {key}, key, enableCache, duration, force, now, outcome, storedAt).fetched
    ensures other != key && other in entries ==> other in entries - {key} && (entries - {key})[other] == entries[other]
  {
  }

  /** One use of the hook: its settings, its key and its state cells. */
  class CachedFetchHook<D> {
    const key: string
    const enableCache: bool
    const cacheDuration: int
    const cache: ApiCache<D>
    var data: Option<D>
    var loading: bool
    var error: Option<string>

    constructor(functionName: string, deps: seq<string>, enableCache: bool, cacheDuration: Option<int>,
                cache: ApiCache<D>)
      ensures key == CacheKey(functionName, deps) && this.enableCache == enableCache
      ensures this.cacheDuration == if cacheDuration.Some? then cacheDuration.value else DefaultCacheDuration
      ensures this.cache == cache
      ensures data.None? && !loading && error.None?
    {
      key := CacheKey(functionName, deps);
      this.enableCache := enableCache;
      this.cacheDuration := if cacheDuration.Some? then cacheDuration.value else DefaultCacheDuration;
      this.cache := cache;
      data := None;
      loading := false;
      error := None;
    }

    /**
     * `fetchData({force})`: serve a fresh entry, or call the fetch function
     * and store what it returns; the state cells end as the hook leaves them.
     */
    method FetchData(force: bool, now: int, outcome: Result<D>, storedAt: int) returns (r: Option<D>)
      modifies this, cache
      ensures var o := Fetch(old(cache.entries), key, enableCache, cacheDuration, force, now, outcome, storedAt);
        r == o.result && cache.entries == o.entries
      ensures r.Some? ==> data == r && error.None?
      ensures r.None? ==> data == old(data) && outcome.Failure? && error == Some(outcome.error)
      ensures !loading
    {
      if enableCache && !force {
        if key in cache.entries && now - cache.entries[key].timestamp < cacheDuration {
          var cached := cache.entries[key];
          data := Some(cached.data);
          loading := false;
          error := None;
          return Some(cached.data);
        }
      }
      loading := true;
      if outcome.Success? {
        if enableCache {
          cache.entries := cache.entries[key := Entry(outcome.value, storedAt)];
        }
        data := Some(outcome.value);
        error := None;
        r := Some(outcome.value);
      } else {
        error := Some(outcome.error);
        r := None;
      }
      loading := false;
    }

    /** `invalidateCache`: drop this hook's own entry. */
    method InvalidateCache()
      modifies cache
      ensures cache.entries == old(cache.entries) - {key}
    {
      cache.Invalidate(key);
    }
  }
}
