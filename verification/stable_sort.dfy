/**
 * The stable sort behind LINQ's OrderBy and OrderByDescending: rows are
 * ordered by a key selector, and rows whose keys are equal keep the order
 * they had before the sort.
 */
module StableSort {
  import opened Ordering

  /** x may stand before y in a sort by `key` (descending when `descending`). */
  predicate Before<T>(key: T -> SortKey, descending: bool, x: T, y: T)
  {
    if descending then KeyLe(key(y), key(x)) else KeyLe(key(x), key(y))
  }

  ghost predicate SortedBy<T>(s: seq<T>, key: T -> SortKey, descending: bool)
  {
    forall i, j :: 0 <= i < j < |s| ==> Before(key, descending, s[i], s[j])
  }

  /**
   * Rows whose `primary` keys are equal appear in ascending `secondary`
   * order: what an earlier ascending sort by `secondary` leaves behind a
   * later stable sort by `primary`.
   */
  ghost predicate TiesOrderedBy<T>(s: seq<T>, primary: T -> SortKey, secondary: T -> SortKey)
  {
    forall i, j :: 0 <= i < j < |s| && primary(s[i]) == primary(s[j]) ==>
      KeyLe(secondary(s[i]), secondary(s[j]))
  }

  /** Puts x in front of the first element it may stand before. */
  function Insert<T>(x: T, s: seq<T>, key: T -> SortKey, descending: bool): (r: seq<T>)
    ensures multiset(r) == multiset(s) + multiset{x}
    ensures |r| == |s| + 1
  {
    if s == [] || Before(key, descending, x, s[0]) then [x] + s
    else
      assert s == [s[0]] + s[1..];
      [s[0]] + Insert(x, s[1..], key, descending)
  }

  /** Stable insertion sort by `key`. */
  function SortBy<T>(s: seq<T>, key: T -> SortKey, descending: bool): (r: seq<T>)
    ensures multiset(r) == multiset(s)
    ensures |r| == |s|
  {
    if s == [] then []
    else
      assert s == [s[0]] + s[1..];
      Insert(s[0], SortBy(s[1..], key, descending), key, descending)
  }

  lemma BeforeTotal<T>(key: T -> SortKey, descending: bool, x: T, y: T)
    ensures Before(key, descending, x, y) || Before(key, descending, y, x)
  {
    KeyLeTotal(key(x), key(y));
  }

  lemma BeforeTransitive<T>(key: T -> SortKey, descending: bool, x: T, y: T, z: T)
    requires Before(key, descending, x, y) && Before(key, descending, y, z)
    ensures Before(key, descending, x, z)
  {
    if descending {
      KeyLeTransitive(key(z), key(y), key(x));
    } else {
      KeyLeTransitive(key(x), key(y), key(z));
    }
  }

  lemma {:induction false} InsertSorted<T>(x: T, s: seq<T>, key: T -> SortKey, descending: bool)
    requires SortedBy(s, key, descending)
    ensures SortedBy(Insert(x, s, key, descending), key, descending)
  {
    if s == [] || Before(key, descending, x, s[0]) {
      var r := [x] + s;
      assert r == Insert(x, s, key, descending);
      forall i, j | 0 <= i < j < |r|
        ensures Before(key, descending, r[i], r[j])
      {
        if i == 0 && j > 1 {
          BeforeTransitive(key, descending, x, s[0], s[j - 1]);
        }
      }
    } else {
      var t := Insert(x, s[1..], key, descending);
      InsertSorted(x, s[1..], key, descending);
      BeforeTotal(key, descending, x, s[0]);
      var r := [s[0]] + t;
      assert r == Insert(x, s, key, descending);
      forall i, j | 0 <= i < j < |r|
        ensures Before(key, descending, r[i], r[j])
      {
        if i == 0 {
          assert r[j] in multiset(t);
          if r[j] != x {
            assert r[j] in multiset(s[1..]);
            var k :| 0 <= k < |s[1..]| && s[1..][k] == r[j];
            assert s[k + 1] == r[j];
          }
        }
      }
    }
  }

  lemma {:induction false} SortBySorted<T>(s: seq<T>, key: T -> SortKey, descending: bool)
    ensures SortedBy(SortBy(s, key, descending), key, descending)
  {
    if s != [] {
      SortBySorted(s[1..], key, descending);
      InsertSorted(s[0], SortBy(s[1..], key, descending), key, descending);
    }
  }

  /** Sorting a sequence that is already sorted leaves it as it is. */
  lemma {:induction false} SortByKeepsSorted<T>(s: seq<T>, key: T -> SortKey, descending: bool)
    requires SortedBy(s, key, descending)
    ensures SortBy(s, key, descending) == s
  {
    if s != [] {
      assert SortedBy(s[1..], key, descending) by {
        forall i, j | 0 <= i < j < |s[1..]|
          ensures Before(key, descending, s[1..][i], s[1..][j])
        {
          assert s[1..][i] == s[i + 1] && s[1..][j] == s[j + 1];
        }
      }
      SortByKeepsSorted(s[1..], key, descending);
      assert s == [s[0]] + s[1..];
      if |s| > 1 {
        assert Before(key, descending, s[0], s[1]);
      }
    }
  }

  lemma {:induction false} InsertKeepsTies<T>(x: T, s: seq<T>, primary: T -> SortKey, descending: bool, secondary: T -> SortKey)
    requires TiesOrderedBy(s, primary, secondary)
    requires forall y :: y in s && primary(y) == primary(x) ==> KeyLe(secondary(x), secondary(y))
    ensures TiesOrderedBy(Insert(x, s, primary, descending), primary, secondary)
  {
    var r := Insert(x, s, primary, descending);
    if s == [] || Before(primary, descending, x, s[0]) {
      assert r == [x] + s;
      forall i, j | 0 <= i < j < |r| && primary(r[i]) == primary(r[j])
        ensures KeyLe(secondary(r[i]), secondary(r[j]))
      {
        if i > 0 {
          assert r[i] == s[i - 1] && r[j] == s[j - 1];
        } else {
          assert r[j] == s[j - 1] && r[j] in s;
        }
      }
    } else {
      var t := Insert(x, s[1..], primary, descending);
      assert TiesOrderedBy(s[1..], primary, secondary) by {
        forall i, j | 0 <= i < j < |s[1..]| && primary(s[1..][i]) == primary(s[1..][j])
          ensures KeyLe(secondary(s[1..][i]), secondary(s[1..][j]))
        {
          assert s[1..][i] == s[i + 1] && s[1..][j] == s[j + 1];
        }
      }
      InsertKeepsTies(x, s[1..], primary, descending, secondary);
      // x was not put before s[0], so their primary keys differ
      KeyLeReflexive(primary(x));
      assert primary(s[0]) != primary(x);
      assert r == [s[0]] + t;
      forall i, j | 0 <= i < j < |r| && primary(r[i]) == primary(r[j])
        ensures KeyLe(secondary(r[i]), secondary(r[j]))
      {
        if i > 0 {
          assert r[i] == t[i - 1] && r[j] == t[j - 1];
        } else {
          assert r[j] in multiset(t);
          assert r[j] != x;
          assert r[j] in multiset(s[1..]);
          var k :| 0 <= k < |s[1..]| && s[1..][k] == r[j];
          assert s[k + 1] == r[j];
        }
      }
    }
  }

  /**
   * A stable sort by `primary` keeps, among rows with equal primary keys,
   * the order by `secondary` that its input had.
   */
  lemma {:induction false} SortByKeepsTies<T>(s: seq<T>, primary: T -> SortKey, descending: bool, secondary: T -> SortKey)
    requires TiesOrderedBy(s, primary, secondary)
    ensures TiesOrderedBy(SortBy(s, primary, descending), primary, secondary)
  {
    if s != [] {
      var t := SortBy(s[1..], primary, descending);
      assert TiesOrderedBy(s[1..], primary, secondary) by {
        forall i, j | 0 <= i < j < |s[1..]| && primary(s[1..][i]) == primary(s[1..][j])
          ensures KeyLe(secondary(s[1..][i]), secondary(s[1..][j]))
        {
          assert s[1..][i] == s[i + 1] && s[1..][j] == s[j + 1];
        }
      }
      SortByKeepsTies(s[1..], primary, descending, secondary);
      forall y | y in t && primary(y) == primary(s[0])
        ensures KeyLe(secondary(s[0]), secondary(y))
      {
        assert y in multiset(s[1..]);
        var k :| 0 <= k < |s[1..]| && s[1..][k] == y;
        assert s[k + 1] == y;
      }
      InsertKeepsTies(s[0], t, primary, descending, secondary);
    }
  }

  /** An ascending sort by `secondary` orders every group of ties by it. */
  lemma SortedGivesTiesOrdered<T>(s: seq<T>, primary: T -> SortKey, secondary: T -> SortKey)
    requires SortedBy(s, secondary, false)
    ensures TiesOrderedBy(s, primary, secondary)
  {
  }
}
