/**
 * The orders used to sort rows and query parameters.
 *
 * Strings are compared ordinally, character code by character code; the
 * culture-sensitive comparer of the running system is not modelled.
 */
module Ordering {

  /** Lexicographic order on strings: a proper prefix comes first. */
  predicate StrLe(a: string, b: string)
    decreases |a|
  {
    a == [] || (b != [] && (a[0] < b[0] || (a[0] == b[0] && StrLe(a[1..], b[1..]))))
  }

  lemma {:induction false} StrLeReflexive(a: string)
    ensures StrLe(a, a)
    decreases |a|
  {
    if a != [] {
      StrLeReflexive(a[1..]);
    }
  }

  lemma {:induction false} StrLeTotal(a: string, b: string)
    ensures StrLe(a, b) || StrLe(b, a)
    decreases |a|
  {
    if a != [] && b != [] && a[0] == b[0] {
      StrLeTotal(a[1..], b[1..]);
    }
  }

  lemma {:induction false} StrLeAntisymmetric(a: string, b: string)
    requires StrLe(a, b) && StrLe(b, a)
    ensures a == b
    decreases |a|
  {
    if a != [] && b != [] {
      StrLeAntisymmetric(a[1..], b[1..]);
      assert a == [a[0]] + a[1..] && b == [b[0]] + b[1..];
    }
  }

  lemma {:induction false} StrLeTransitive(a: string, b: string, c: string)
    requires StrLe(a, b) && StrLe(b, c)
    ensures StrLe(a, c)
    decreases |a|
  {
    if a != [] && b != [] && c != [] && a[0] == b[0] && b[0] == c[0] {
      StrLeTransitive(a[1..], b[1..], c[1..]);
    }
  }

  /**
   * The value a sort-key selector returns: a name (text) or a price or date
   * (number). One selector always yields keys of one kind; across kinds,
   * numbers come first so that the order is total.
   */
  datatype SortKey = Number(n: int) | Text(s: string)

  predicate KeyLe(x: SortKey, y: SortKey)
  {
    match (x, y)
    case (Number(a), Number(b)) => a <= b
    case (Text(a), Text(b)) => StrLe(a, b)
    case (Number(_), Text(_)) => true
    case (Text(_), Number(_)) => false
  }

  lemma KeyLeReflexive(x: SortKey)
    ensures KeyLe(x, x)
  {
    if x.Text? {
      StrLeReflexive(x.s);
    }
  }

  lemma KeyLeTotal(x: SortKey, y: SortKey)
    ensures KeyLe(x, y) || KeyLe(y, x)
  {
    if x.Text? && y.Text? {
      StrLeTotal(x.s, y.s);
    }
  }

  lemma KeyLeAntisymmetric(x: SortKey, y: SortKey)
    requires KeyLe(x, y) && KeyLe(y, x)
    ensures x == y
  {
    if x.Text? && y.Text? {
      StrLeAntisymmetric(x.s, y.s);
    }
  }

  lemma KeyLeTransitive(x: SortKey, y: SortKey, z: SortKey)
    requires KeyLe(x, y) && KeyLe(y, z)
    ensures KeyLe(x, z)
  {
    if x.Text? && y.Text? && z.Text? {
      StrLeTransitive(x.s, y.s, z.s);
    }
  }
}
