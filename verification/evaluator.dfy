/**
 * The specification evaluator: it filters by the criteria, sorts ascending,
 * then sorts descending, then folds the includes into the query. It never
 * reads the pagination window.
 */
module SpecificationsEvaluator {
  import opened Wrappers
  import opened Ordering
  import opened StableSort
  import opened Specifications
  import opened Domain

  /** A composed query: its rows, and the navigations it loads with them. */
  datatype QueryResult<T> = QueryResult(rows: seq<T>, included: seq<Navigation>)

  /** The rows of `s` that satisfy `p`, in the order of `s`. */
  function Where<T>(s: seq<T>, p: T -> bool): (r: seq<T>)
    ensures forall x :: x in r ==> x in s && p(x)
    ensures forall x :: x in s && p(x) ==> multiset(r)[x] == multiset(s)[x]
    ensures |r| <= |s|
  {
    if s == [] then []
    else
      assert s == [s[0]] + s[1..];
      (if p(s[0]) then [s[0]] else []) + Where(s[1..], p)
  }

  /** r is s with some elements left out and the rest in their order. */
  ghost predicate IsSubsequence<T>(r: seq<T>, s: seq<T>)
    decreases |s|
  {
    r == [] || (s != [] && ((r[0] == s[0] && IsSubsequence(r[1..], s[1..])) || IsSubsequence(r, s[1..])))
  }

  lemma {:induction false} WhereIsSubsequence<T>(s: seq<T>, p: T -> bool)
    ensures IsSubsequence(Where(s, p), s)
  {
    if s != [] {
      WhereIsSubsequence(s[1..], p);
      var r := Where(s, p);
      if p(s[0]) {
        assert r == [s[0]] + Where(s[1..], p);
        assert r[1..] == Where(s[1..], p);
      } else {
        assert r == Where(s[1..], p);
      }
    }
  }

  /** No row passes a filter that every row fails. */
  lemma {:induction false} WhereNone<T>(s: seq<T>, p: T -> bool)
    requires forall y :: y in s ==> !p(y)
    ensures Where(s, p) == []
  {
    if s != [] {
      assert s[0] in s;
      WhereNone(s[1..], p);
    }
  }

  /**
   * A predicate that selects one key, over rows whose keys are unique,
   * passes at most one row: the row holding that key, when there is one.
   */
  lemma {:induction false} WhereUniqueKey<T, K>(s: seq<T>, p: T -> bool, keyOf: T -> K, k: K)
    requires UniqueKeys(s, keyOf)
    requires forall x :: p(x) <==> keyOf(x) == k
    ensures |Where(s, p)| <= 1
    ensures forall x :: x in s && keyOf(x) == k ==> Where(s, p) == [x]
    decreases |s|
  {
    if s != [] {
      var rest := s[1..];
      assert UniqueKeys(rest, keyOf) by {
        forall i, j | 0 <= i < j < |rest| ensures keyOf(rest[i]) != keyOf(rest[j]) {
          assert rest[i] == s[i + 1] && rest[j] == s[j + 1];
        }
      }
      WhereUniqueKey(rest, p, keyOf, k);
      if keyOf(s[0]) == k {
        forall y | y in rest ensures keyOf(y) != k {
          var m :| 0 <= m < |rest| && rest[m] == y;
          assert keyOf(s[0]) != keyOf(s[m + 1]);
        }
        WhereNone(rest, p);
        assert Where(s, p) == [s[0]];
      } else {
        assert Where(s, p) == Where(rest, p);
      }
    }
  }

  /** One include: adds a navigation to the query; the rows are untouched. */
  function Include<T>(query: QueryResult<T>, navigation: Navigation): QueryResult<T>
  {
    query.(included := query.included + [navigation])
  }

  /** The left fold of Include over the specification's includes. */
  function IncludeAll<T>(query: QueryResult<T>, navigations: seq<Navigation>): QueryResult<T>
    decreases |navigations|
  {
    if navigations == [] then query
    else IncludeAll(Include(query, navigations[0]), navigations[1..])
  }

  lemma {:induction false} IncludeAllKeepsRows<T>(query: QueryResult<T>, navigations: seq<Navigation>)
    ensures IncludeAll(query, navigations) == QueryResult(query.rows, query.included + navigations)
    decreases |navigations|
  {
    if navigations != [] {
      IncludeAllKeepsRows(Include(query, navigations[0]), navigations[1..]);
      assert query.included + [navigations[0]] + navigations[1..] == query.included + navigations;
    }
  }

  /** The rows that pass the criteria (all rows when there is none). */
  function Filtered<T>(baseQuery: seq<T>, spec: QuerySpec<T>): (r: seq<T>)
    ensures forall x :: x in r ==> x in baseQuery && (spec.criteria.None? || spec.criteria.value(x))
    ensures forall x :: x in baseQuery && (spec.criteria.None? || spec.criteria.value(x)) ==> multiset(r)[x] == multiset(baseQuery)[x]
  {
    if spec.criteria.Some? then Where(baseQuery, spec.criteria.value) else baseQuery
  }

  /** The filtered rows after the ascending and then the descending sort. */
  function Ordered<T>(baseQuery: seq<T>, spec: QuerySpec<T>): seq<T>
  {
    var filtered := Filtered(baseQuery, spec);
    var ascending := if spec.orderBy.Some? then SortBy(filtered, spec.orderBy.value, false) else filtered;
    if spec.orderByDesc.Some? then SortBy(ascending, spec.orderByDesc.value, true) else ascending
  }

  function CreateQuery<T>(baseQuery: seq<T>, spec: QuerySpec<T>): QueryResult<T>
  {
    var query := QueryResult(Ordered(baseQuery, spec), []);
    if |spec.includes| > 0 then IncludeAll(query, spec.includes) else query
  }

  /** Includes decide what is loaded with the rows, never which rows. */
  lemma CreateQueryShape<T>(baseQuery: seq<T>, spec: QuerySpec<T>)
    ensures CreateQuery(baseQuery, spec) == QueryResult(Ordered(baseQuery, spec), spec.includes)
  {
    IncludeAllKeepsRows(QueryResult(Ordered(baseQuery, spec), []), spec.includes);
  }

  /** Sorting only rearranges: the result holds the filtered rows, each as often. */
  lemma CreateQueryPermutesFiltered<T>(baseQuery: seq<T>, spec: QuerySpec<T>)
    ensures multiset(CreateQuery(baseQuery, spec).rows) == multiset(Filtered(baseQuery, spec))
    ensures |CreateQuery(baseQuery, spec).rows| == |Filtered(baseQuery, spec)|
  {
    CreateQueryShape(baseQuery, spec);
  }

  /** A row is returned iff it is a source row that passes the criteria. */
  lemma CreateQueryMembers<T>(baseQuery: seq<T>, spec: QuerySpec<T>, x: T)
    ensures x in CreateQuery(baseQuery, spec).rows <==>
      x in baseQuery && (spec.criteria.None? || spec.criteria.value(x))
  {
    CreateQueryPermutesFiltered(baseQuery, spec);
    assert x in CreateQuery(baseQuery, spec).rows <==> x in multiset(Filtered(baseQuery, spec));
  }

  /** No criteria and no sort key: the source rows, as they are. */
  lemma CreateQueryUnfiltered<T>(baseQuery: seq<T>, spec: QuerySpec<T>)
    requires spec.criteria.None? && spec.orderBy.None? && spec.orderByDesc.None?
    ensures CreateQuery(baseQuery, spec).rows == baseQuery
  {
    CreateQueryShape(baseQuery, spec);
  }

  /** Criteria and no sort key: the satisfying rows, in source order. */
  lemma CreateQueryFilters<T>(baseQuery: seq<T>, spec: QuerySpec<T>)
    requires spec.criteria.Some? && spec.orderBy.None? && spec.orderByDesc.None?
    ensures CreateQuery(baseQuery, spec).rows == Where(baseQuery, spec.criteria.value)
    ensures IsSubsequence(CreateQuery(baseQuery, spec).rows, baseQuery)
  {
    CreateQueryShape(baseQuery, spec);
    WhereIsSubsequence(baseQuery, spec.criteria.value);
  }

  /** An ascending key alone: the filtered rows, sorted ascending. */
  lemma CreateQueryAscending<T>(baseQuery: seq<T>, spec: QuerySpec<T>)
    requires spec.orderBy.Some? && spec.orderByDesc.None?
    ensures SortedBy(CreateQuery(baseQuery, spec).rows, spec.orderBy.value, false)
    ensures multiset(CreateQuery(baseQuery, spec).rows) == multiset(Filtered(baseQuery, spec))
  {
    CreateQueryShape(baseQuery, spec);
    SortBySorted(Filtered(baseQuery, spec), spec.orderBy.value, false);
  }

  /** A descending key: the rows come out sorted descending, whatever else is set. */
  lemma CreateQueryDescending<T>(baseQuery: seq<T>, spec: QuerySpec<T>)
    requires spec.orderByDesc.Some?
    ensures SortedBy(CreateQuery(baseQuery, spec).rows, spec.orderByDesc.value, true)
    ensures multiset(CreateQuery(baseQuery, spec).rows) == multiset(Filtered(baseQuery, spec))
  {
    CreateQueryShape(baseQuery, spec);
    var filtered := Filtered(baseQuery, spec);
    var ascending := if spec.orderBy.Some? then SortBy(filtered, spec.orderBy.value, false) else filtered;
    SortBySorted(ascending, spec.orderByDesc.value, true);
  }

  /**
   * Both keys: the descending sort comes last and decides the order; the
   * ascending key only orders rows whose descending keys are equal.
   */
  lemma CreateQueryBothKeys<T>(baseQuery: seq<T>, spec: QuerySpec<T>)
    requires spec.orderBy.Some? && spec.orderByDesc.Some?
    ensures SortedBy(CreateQuery(baseQuery, spec).rows, spec.orderByDesc.value, true)
    ensures TiesOrderedBy(CreateQuery(baseQuery, spec).rows, spec.orderByDesc.value, spec.orderBy.value)
  {
    CreateQueryDescending(baseQuery, spec);
    CreateQueryShape(baseQuery, spec);
    var ascending := SortBy(Filtered(baseQuery, spec), spec.orderBy.value, false);
    SortBySorted(Filtered(baseQuery, spec), spec.orderBy.value, false);
    SortedGivesTiesOrdered(ascending, spec.orderByDesc.value, spec.orderBy.value);
    SortByKeepsTies(ascending, spec.orderByDesc.value, true, spec.orderBy.value);
    assert Ordered(baseQuery, spec) == SortBy(ascending, spec.orderByDesc.value, true);
  }

  /** Take, Skip and IsPaginated change nothing: the count is the filtered count. */
  lemma CreateQueryIgnoresPagination<T>(baseQuery: seq<T>, spec: QuerySpec<T>, take: int, skip: int, isPaginated: bool)
    ensures CreateQuery(baseQuery, spec.(take := take, skip := skip, isPaginated := isPaginated))
         == CreateQuery(baseQuery, spec)
    ensures |CreateQuery(baseQuery, spec).rows| == |Filtered(baseQuery, spec)|
  {
    CreateQueryPermutesFiltered(baseQuery, spec);
  }

  /** Two specifications with the same criteria return the same number of rows. */
  lemma SameCriteriaSameCount<T>(baseQuery: seq<T>, spec1: QuerySpec<T>, spec2: QuerySpec<T>)
    requires spec1.criteria == spec2.criteria
    ensures |CreateQuery(baseQuery, spec1).rows| == |CreateQuery(baseQuery, spec2).rows|
  {
    CreateQueryPermutesFiltered(baseQuery, spec1);
    CreateQueryPermutesFiltered(baseQuery, spec2);
  }

  /** The first row a filter passes is the first passing row of the source. */
  lemma {:induction false} WhereFirst<T>(s: seq<T>, p: T -> bool)
    requires Where(s, p) != []
    ensures exists i :: 0 <= i < |s| && s[i] == Where(s, p)[0] && p(s[i]) && forall j :: 0 <= j < i ==> !p(s[j])
    decreases |s|
  {
    assert s != [];
    if p(s[0]) {
      assert s[0] == Where(s, p)[0];
    } else {
      var rest := s[1..];
      assert Where(s, p) == Where(rest, p);
      WhereFirst(rest, p);
      var i :| 0 <= i < |rest| && rest[i] == Where(rest, p)[0] && p(rest[i]) && forall j :: 0 <= j < i ==> !p(rest[j]);
      forall j | 0 <= j < i + 1 ensures !p(s[j]) {
        if j > 0 {
          assert s[j] == rest[j - 1];
        }
      }
      assert s[i + 1] == rest[i];
    }
  }

  /**
   * The row a query yields first: with a descending key, no passing row sorts
   * before it; with an ascending key alone, likewise ascending; with no key,
   * it is the first passing row of the source.
   */
  lemma CreateQueryFirstRow<T>(baseQuery: seq<T>, spec: QuerySpec<T>)
    requires CreateQuery(baseQuery, spec).rows != []
    ensures var first := CreateQuery(baseQuery, spec).rows[0];
      spec.orderByDesc.Some? ==>
        forall x :: x in baseQuery && (spec.criteria.None? || spec.criteria.value(x)) ==>
          Before(spec.orderByDesc.value, true, first, x)
    ensures var first := CreateQuery(baseQuery, spec).rows[0];
      spec.orderBy.Some? && spec.orderByDesc.None? ==>
        forall x :: x in baseQuery && (spec.criteria.None? || spec.criteria.value(x)) ==>
          Before(spec.orderBy.value, false, first, x)
    ensures var first := CreateQuery(baseQuery, spec).rows[0];
      spec.orderBy.None? && spec.orderByDesc.None? ==>
        exists i :: 0 <= i < |baseQuery| && baseQuery[i] == first
          && (spec.criteria.None? || spec.criteria.value(first))
          && forall j :: 0 <= j < i ==> spec.criteria.Some? && !spec.criteria.value(baseQuery[j])
  {
    var rows := CreateQuery(baseQuery, spec).rows;
    if spec.orderByDesc.Some? || spec.orderBy.Some? {
      var descending := spec.orderByDesc.Some?;
      var key := if descending then spec.orderByDesc.value else spec.orderBy.value;
      if descending {
        CreateQueryDescending(baseQuery, spec);
      } else {
        CreateQueryAscending(baseQuery, spec);
      }
      assert SortedBy(rows, key, descending);
      forall x | x in baseQuery && (spec.criteria.None? || spec.criteria.value(x))
        ensures Before(key, descending, rows[0], x)
      {
        CreateQueryMembers(baseQuery, spec, x);
        var j :| 0 <= j < |rows| && rows[j] == x;
        if j == 0 {
          BeforeTotal(key, descending, x, x);
        } else {
          assert Before(key, descending, rows[0], rows[j]);
        }
      }
    } else {
      CreateQueryShape(baseQuery, spec);
      if spec.criteria.Some? {
        WhereFirst(baseQuery, spec.criteria.value);
      } else {
        assert baseQuery[0] == rows[0];
      }
    }
  }
}
