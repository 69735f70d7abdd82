/**
 * The web front end's response cache: the module-level `cache` dictionary,
 * the cached `search` route and one pass of the background cleanup loop.
 *
 * Time is an integer number of seconds read once per call and passed in as
 * `now`; the expiration is 60 minutes. An entry is a hit while its timestamp
 * is strictly newer than `now - CacheExpiration`, and the sweep deletes it
 * once its timestamp is strictly older than that; an entry exactly
 * `CacheExpiration` old is neither.
 */
module Api {
  import opened Wrappers
  import Zamunda

  const CacheExpiration: int := 3600

  datatype Entry = Entry(response: seq<Zamunda.Record>, timestamp: int)

  /** Python's `str(provide_magnet)`. */
  function BoolText(b: bool): string {
    if b then "True" else "False"
  }

  /** `f"{q}-{provide_magnet}"` */
  function CacheKey(q: string, provideMagnet: bool): string {
    q + "-" + BoolText(provideMagnet)
  }

  /** Distinct (query, provide_magnet) pairs never share a cache slot. */
  lemma CacheKeyInjective(q1: string, p1: bool, q2: string, p2: bool)
    ensures CacheKey(q1, p1) == CacheKey(q2, p2) <==> q1 == q2 && p1 == p2
  {
    var k1, k2 := CacheKey(q1, p1), CacheKey(q2, p2);
    if k1 == k2 {
      if p1 == p2 {
        var t := "-" + BoolText(p1);
        assert k1 == q1 + t && k2 == q2 + t;
        assert q1 == k1[..|q1|];
        assert q2 == k2[..|q2|];
      } else if p1 {
        TrueAndFalseKeysDiffer(q1, q2);
      } else {
        TrueAndFalseKeysDiffer(q2, q1);
      }
    }
  }

  lemma TrueAndFalseKeysDiffer(q1: string, q2: string)
    ensures CacheKey(q1, true) != CacheKey(q2, false)
  {
    var k1, k2 := CacheKey(q1, true), CacheKey(q2, false);
    assert k1 == q1 + "-True" && k1[|q1|] == '-';
    assert k2 == q2 + "-False" && k2[|q2| + 1] == 'F';
  }

  /** The timestamp test of the search route. */
  predicate IsFresh(e: Entry, now: int) {
    e.timestamp > now - CacheExpiration
  }

  /** The timestamp test of the cleanup loop. */
  predicate IsExpired(e: Entry, now: int) {
    e.timestamp < now - CacheExpiration
  }

  /** The cached response the route answers with, if the call is a hit. */
  function Lookup(cache: map<string, Entry>, key: string, now: int, forceSearch: bool): Option<seq<Zamunda.Record>>
  {
    if !forceSearch && key in cache && IsFresh(cache[key], now) then Some(cache[key].response) else None
  }

  /** The cache after one cleanup pass at time `now`: the reference definition `Cleanup` is proved against. */
  function Swept(cache: map<string, Entry>, now: int): map<string, Entry>
  {
    map k | k in cache && !IsExpired(cache[k], now) :: cache[k]
  }

  /** Sweeping twice at the same time is sweeping once. */
  lemma SweepIdempotent(cache: map<string, Entry>, now: int)
    ensures Swept(Swept(cache, now), now) == Swept(cache, now)
  {
  }

  /** A sweep never changes what a lookup at the same time answers. */
  lemma SweepPreservesLookup(cache: map<string, Entry>, key: string, now: int, forceSearch: bool)
    ensures Lookup(Swept(cache, now), key, now, forceSearch) == Lookup(cache, key, now, forceSearch)
  {
  }

  /** An entry exactly `CacheExpiration` old survives the sweep yet is not a hit. */
  lemma BoundaryEntry(cache: map<string, Entry>, key: string, now: int)
    requires key in cache && cache[key].timestamp == now - CacheExpiration
    ensures key in Swept(cache, now) && Swept(cache, now)[key] == cache[key]
    ensures Lookup(cache, key, now, false).None?
  {
  }

  /**
   * A response stored at time `t` answers every unforced lookup of its key
   * until `t + CacheExpiration`, and none from then on.
   */
  lemma StoredResponseLifetime(cache: map<string, Entry>, key: string, response: seq<Zamunda.Record>, t: int, now: int)
    ensures Lookup(cache[key := Entry(response, t)], key, now, false)
         == if now < t + CacheExpiration then Some(response) else None
  {
  }

  /**
   * The state of `main.py`: the `cache` dictionary, and which client
   * revision the module imports (`Root` for the top-level `main.py`,
   * `Package` for `zamunda_api/main.py`).
   */
  class Server {
    const revision: Zamunda.Revision
    var cache: map<string, Entry>

    constructor (revision: Zamunda.Revision)
      ensures this.revision == revision && cache == map[]
    {
      this.revision := revision;
      cache := map[];
    }

    /**
     * The `/search` route at time `now`. `searched` tells whether the client
     * was called; `during` is the cache as it stood while the client ran.
     * `user` and `password` only feed the client's login, which is not part
     * of this model.
     */
    method Search(q: string, user: string, password: string, forceSearch: bool, provideMagnet: bool, now: int,
                  web: string -> Zamunda.Response)
      returns (response: seq<Zamunda.Record>, searched: bool, ghost during: map<string, Entry>)
      requires Lookup(cache, CacheKey(q, provideMagnet), now, forceSearch).None?
               ==> Zamunda.WellFormedPage(revision, web(Zamunda.SearchUrl(q)))
      modifies this
      ensures var key := CacheKey(q, provideMagnet);
              searched <==> Lookup(old(cache), key, now, forceSearch).None?
      ensures var key := CacheKey(q, provideMagnet);
              !searched ==> response == old(cache)[key].response && cache == old(cache)
      ensures var key := CacheKey(q, provideMagnet);
              searched ==> && response == Zamunda.SearchResults(revision, q, provideMagnet, web)
                           && cache == old(cache)[key := Entry(response, now)]
                           && during == if !forceSearch && key in old(cache) then old(cache) - {key} else old(cache)
      ensures forall k :: k != CacheKey(q, provideMagnet) ==>
                (k in cache <==> k in old(cache)) && (k in cache ==> cache[k] == old(cache)[k])
    {
      var cacheKey := CacheKey(q, provideMagnet);
      var currentTime := now;
      if !forceSearch {
        if cacheKey in cache {
          var cachedEntry := cache[cacheKey];
          if cachedEntry.timestamp > currentTime - CacheExpiration {
            return cachedEntry.response, false, cache;
          } else {
            cache := cache - {cacheKey};
          }
        }
      }
      during := cache;
      response := Zamunda.Search(revision, q, provideMagnet, web);
      cache := cache[cacheKey := Entry(response, currentTime)];
      searched := true;
    }

    /** One pass of the cleanup loop at time `now`. */
    method Cleanup(now: int)
      modifies this
      ensures cache == Swept(old(cache), now)
      ensures forall k :: k in cache <==> k in old(cache) && !IsExpired(old(cache)[k], now)
      ensures forall k :: k in cache ==> cache[k] == old(cache)[k]
    {
      var currentTime := now;
      var keysToDelete := set k | k in cache && cache[k].timestamp < currentTime - CacheExpiration;
      ghost var expired := keysToDelete;
      while keysToDelete != {}
        invariant keysToDelete <= expired
        invariant cache == old(cache) - (expired - keysToDelete)
        decreases keysToDelete
      {
        var key :| key in keysToDelete;
        assert key in cache;
        cache := cache - {key};
        keysToDelete := keysToDelete - {key};
      }
      assert cache == Swept(old(cache), now);
    }
  }

  /**
   * Two unforced searches of the same query, against the site as it answers
   * at `t1` (`web1`) and at `t2` (`web2`): the second reaches the client
   * exactly when it comes `CacheExpiration` or more after the first; then it
   * answers with what the site gives at `t2`, and otherwise with the first
   * one's response.
   */
  method RepeatedSearch(revision: Zamunda.Revision, q: string, provideMagnet: bool, t1: int, t2: int,
                        web1: string -> Zamunda.Response, web2: string -> Zamunda.Response)
    returns (first: seq<Zamunda.Record>, second: seq<Zamunda.Record>, searchedAgain: bool)
    requires Zamunda.WellFormedPage(revision, web1(Zamunda.SearchUrl(q)))
    requires t2 >= t1 + CacheExpiration ==> Zamunda.WellFormedPage(revision, web2(Zamunda.SearchUrl(q)))
    ensures first == Zamunda.SearchResults(revision, q, provideMagnet, web1)
    ensures searchedAgain <==> t2 >= t1 + CacheExpiration
    ensures !searchedAgain ==> second == first
    ensures searchedAgain ==> second == Zamunda.SearchResults(revision, q, provideMagnet, web2)
  {
    var server := new Server(revision);
    var searched;
    ghost var during;
    first, searched, during := server.Search(q, "", "", false, provideMagnet, t1, web1);
    StoredResponseLifetime(map[], CacheKey(q, provideMagnet), first, t1, t2);
    second, searchedAgain, during := server.Search(q, "", "", false, provideMagnet, t2, web2);
  }
}
