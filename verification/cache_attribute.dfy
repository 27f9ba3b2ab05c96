/**
 * The response-caching action filter: a request whose key is cached is
 * answered from the cache without running the action; otherwise the action
 * runs and an object result is cached under the key.
 */
module CacheAttribute {
  import opened Wrappers
  import opened Ordering
  import opened StableSort
  import opened Domain
  import opened Redis
  import opened CacheRepository

  /** One query-string parameter; the value is the parameter's values as one text. */
  datatype QueryParam = QueryParam(key: string, value: string)

  function ParamKey(p: QueryParam): SortKey { Text(p.key) }

  /**
   * The query as a dictionary: no parameter twice and no two parameters
   * with the same name.
   */
  ghost predicate DistinctKeys(m: multiset<QueryParam>)
  {
    && (forall p :: m[p] <= 1)
    && (forall p, q :: p in m && q in m && p.key == q.key ==> p == q)
  }

  /** The parameters ordered by name. */
  function SortedQuery(query: seq<QueryParam>): (r: seq<QueryParam>)
    ensures SortedBy(r, ParamKey, false)
    ensures multiset(r) == multiset(query)
  {
    SortBySorted(query, ParamKey, false);
    SortBy(query, ParamKey, false)
  }

  /** What one parameter adds to the key. */
  function Segment(p: QueryParam): string
  {
    p.key + "=" + p.value + "&"
  }

  function Segments(params: seq<QueryParam>): string
  {
    if params == [] then [] else Segment(params[0]) + Segments(params[1..])
  }

  lemma {:induction false} SegmentsAppend(params: seq<QueryParam>, p: QueryParam)
    ensures Segments(params + [p]) == Segments(params) + Segment(p)
  {
    if params == [] {
      assert params + [p] == [p];
    } else {
      assert (params + [p])[1..] == params[1..] + [p];
      SegmentsAppend(params[1..], p);
    }
  }

  /** The cache key of a request: the path, "?", then `name=value&` per parameter by name. */
  function CacheKeyOf(path: string, query: seq<QueryParam>): (key: string)
    ensures |key| >= |path| + 1 && key[..|path| + 1] == path + "?"
    ensures query == [] ==> key == path + "?"
  {
    path + "?" + Segments(SortedQuery(query))
  }

  /** Appends one `name=value&` segment per parameter, in the given order. */
  method AppendSegments(prefix: string, params: seq<QueryParam>) returns (key: string)
    ensures key == prefix + Segments(params)
  {
    key := prefix;
    for i := 0 to |params|
      invariant key == prefix + Segments(params[..i])
    {
      SegmentsAppend(params[..i], params[i]);
      assert params[..i + 1] == params[..i] + [params[i]];
      assert key + Segment(params[i]) == prefix + (Segments(params[..i]) + Segment(params[i]));
      key := key + Segment(params[i]);
    }
    assert params[..|params|] == params;
  }

  /** Builds the key: the path and "?", then the parameters in name order. */
  method CreateCacheKey(path: string, query: seq<QueryParam>) returns (key: string)
    ensures key == CacheKeyOf(path, query)
  {
    var sorted := SortedQuery(query);
    key := AppendSegments(path + "?", sorted);
  }

  /** The first parameter of a name-sorted sequence has the least name. */
  lemma SortedHeadLeast(s: seq<QueryParam>, x: QueryParam)
    requires SortedBy(s, ParamKey, false) && x in s
    ensures StrLe(s[0].key, x.key)
  {
    var j :| 0 <= j < |s| && s[j] == x;
    if j > 0 {
      assert Before(ParamKey, false, s[0], s[j]);
    } else {
      StrLeReflexive(x.key);
    }
  }

  lemma SortedTail(s: seq<QueryParam>)
    requires s != [] && SortedBy(s, ParamKey, false)
    ensures SortedBy(s[1..], ParamKey, false)
  {
    var t := s[1..];
    forall i, j | 0 <= i < j < |t| ensures Before(ParamKey, false, t[i], t[j]) {
      assert t[i] == s[i + 1] && t[j] == s[j + 1];
    }
  }

  /** Sorted orderings of one dictionary start with the same parameter. */
  lemma SortedHeadsEqual(a: seq<QueryParam>, b: seq<QueryParam>)
    requires a != [] && b != []
    requires SortedBy(a, ParamKey, false) && SortedBy(b, ParamKey, false)
    requires multiset(a) == multiset(b)
    requires DistinctKeys(multiset(a))
    ensures a[0] == b[0]
  {
    assert a[0] in multiset(b) && b[0] in multiset(a);
    SortedHeadLeast(b, a[0]);
    SortedHeadLeast(a, b[0]);
    StrLeAntisymmetric(a[0].key, b[0].key);
  }

  lemma DistinctKeysTail(a: seq<QueryParam>)
    requires a != [] && DistinctKeys(multiset(a))
    ensures DistinctKeys(multiset(a[1..]))
  {
    assert a == [a[0]] + a[1..];
    assert multiset(a) == multiset{a[0]} + multiset(a[1..]);
    forall p ensures multiset(a[1..])[p] <= 1 {
      assert multiset(a[1..])[p] <= multiset(a)[p];
    }
  }

  /** Equal multisets that start with the same element have equal tails. */
  lemma TailsSameMultiset(a: seq<QueryParam>, b: seq<QueryParam>)
    requires a != [] && b != [] && a[0] == b[0]
    requires multiset(a) == multiset(b)
    ensures multiset(a[1..]) == multiset(b[1..])
  {
    assert a == [a[0]] + a[1..] && b == [b[0]] + b[1..];
    assert multiset(a[1..]) == multiset(a) - multiset{a[0]};
    assert multiset(b[1..]) == multiset(b) - multiset{b[0]};
  }

  /** Two name-sorted orderings of the same dictionary are the same sequence. */
  lemma {:induction false} SortedDictionaryUnique(a: seq<QueryParam>, b: seq<QueryParam>)
    requires SortedBy(a, ParamKey, false) && SortedBy(b, ParamKey, false)
    requires multiset(a) == multiset(b)
    requires DistinctKeys(multiset(a))
    ensures a == b
    decreases |a|
  {
    if a != [] {
      assert b != [] by {
        assert a[0] in multiset(a);
      }
      SortedHeadsEqual(a, b);
      TailsSameMultiset(a, b);
      SortedTail(a);
      SortedTail(b);
      DistinctKeysTail(a);
      SortedDictionaryUnique(a[1..], b[1..]);
      assert a == [a[0]] + a[1..] && b == [b[0]] + b[1..];
    }
  }

  /** The key does not depend on the order in which the parameters arrived. */
  lemma CacheKeyIgnoresArrivalOrder(path: string, q1: seq<QueryParam>, q2: seq<QueryParam>)
    requires multiset(q1) == multiset(q2)
    requires DistinctKeys(multiset(q1))
    ensures CacheKeyOf(path, q1) == CacheKeyOf(path, q2)
  {
    SortedDictionaryUnique(SortedQuery(q1), SortedQuery(q2));
  }

  /** What an action produces; only an object result is cached. */
  datatype ActionResult<V> =
    | ObjectResult(value: V)
    | ContentResult(content: string, contentType: string, statusCode: int)
    | OtherResult(statusCode: int)

  const STATUS_OK := 200
  const JSON_CONTENT_TYPE := "application/json"
  const DEFAULT_CACHE_SECONDS := 90

  class CacheAttribute<V> {
    const durationInSeconds: int
    const cache: CacheRepository
    /** The JSON serialiser applied to a result's value before it is cached. */
    const serialize: V -> string

    /** The duration is 90 seconds unless the attribute names another. */
    constructor (cache: CacheRepository, serialize: V -> string, durationInSeconds: int := DEFAULT_CACHE_SECONDS)
      ensures this.durationInSeconds == durationInSeconds && this.cache == cache && this.serialize == serialize
    {
      this.durationInSeconds := durationInSeconds;
      this.cache := cache;
      this.serialize := serialize;
    }

    /**
     * Filters one request. `actionResult` is what the action would produce
     * and `accepted` the cache store's answer to the write; `invoked` says
     * whether the action ran.
     */
    method OnActionExecution(path: string, query: seq<QueryParam>, now: Millis, actionResult: ActionResult<V>, accepted: bool)
      returns (result: ActionResult<V>, invoked: bool)
      requires durationInSeconds > 0
      modifies cache.database
      ensures var cached := old(cache.Get(CacheKeyOf(path, query), now));
        cached.Some? ==>
          && result == ContentResult(cached.value, JSON_CONTENT_TYPE, STATUS_OK)
          && !invoked
          && cache.database.entries == old(cache.database.entries)
      ensures var key := CacheKeyOf(path, query);
        old(cache.Get(key, now)).None? ==>
          && invoked && result == actionResult
          && (actionResult.ObjectResult? && accepted ==>
                cache.database.entries == old(cache.database.entries)[key :=
                  Entry(serialize(actionResult.value), now + durationInSeconds * 1000)])
          && (!actionResult.ObjectResult? || !accepted ==> cache.database.entries == old(cache.database.entries))
    {
      var key := CreateCacheKey(path, query);
      var cached := cache.Get(key, now);
      if cached.Some? {
        return ContentResult(cached.value, JSON_CONTENT_TYPE, STATUS_OK), false;
      }
      result, invoked := actionResult, true;
      if result.ObjectResult? {
        cache.Set(key, serialize(result.value), durationInSeconds * 1000, now, accepted);
      }
    }
  }
}
