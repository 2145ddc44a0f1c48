/**
  Python's ordering of strings and of pairs of strings, and `sorted` applied to a set.

  Strings compare by code point, a proper prefix coming first; pairs compare by their first
  component and then by their second. `sorted` of a set is the one strictly increasing
  sequence holding exactly its elements.
*/
module Ordering {

  /** `a < b` on Python strings. */
  predicate StrLess(a: string, b: string)
    decreases |a|
  {
    if a == [] then b != []
    else if b == [] then false
    else if a[0] != b[0] then a[0] < b[0]
    else StrLess(a[1..], b[1..])
  }

  /** `p < q` on pairs of strings. */
  predicate PairLess(p: (string, string), q: (string, string)) {
    StrLess(p.0, q.0) || (p.0 == q.0 && StrLess(p.1, q.1))
  }

  /** `less` is a strict total order: irreflexive, transitive and total. */
  ghost predicate StrictTotalOrder<T(!new)>(less: (T, T) -> bool) {
    && (forall a :: !less(a, a))
    && (forall a, b, c :: less(a, b) && less(b, c) ==> less(a, c))
    && (forall a, b :: a != b ==> less(a, b) || less(b, a))
  }

  lemma {:induction false} StrLessIrreflexive(a: string)
    ensures !StrLess(a, a)
    decreases |a|
  {
    if a != [] {
      StrLessIrreflexive(a[1..]);
    }
  }

  lemma {:induction false} StrLessTransitive(a: string, b: string, c: string)
    requires StrLess(a, b) && StrLess(b, c)
    ensures StrLess(a, c)
    decreases |a|
  {
    if a != [] && a[0] == b[0] && b[0] == c[0] {
      StrLessTransitive(a[1..], b[1..], c[1..]);
    }
  }

  lemma {:induction false} StrLessTotal(a: string, b: string)
    requires a != b
    ensures StrLess(a, b) || StrLess(b, a)
    decreases |a|
  {
    if a != [] && b != [] && a[0] == b[0] {
      assert a == [a[0]] + a[1..] && b == [b[0]] + b[1..];
      StrLessTotal(a[1..], b[1..]);
    }
  }

  /** Python's string comparison is a strict total order. */
  lemma StrLessOrder()
    ensures StrictTotalOrder(StrLess)
  {
    forall a: string ensures !StrLess(a, a) {
      StrLessIrreflexive(a);
    }
    forall a: string, b: string, c: string | StrLess(a, b) && StrLess(b, c)
      ensures StrLess(a, c)
    {
      StrLessTransitive(a, b, c);
    }
    forall a: string, b: string | a != b
      ensures StrLess(a, b) || StrLess(b, a)
    {
      StrLessTotal(a, b);
    }
  }

  /** So is Python's comparison of pairs of strings. */
  lemma PairLessOrder()
    ensures StrictTotalOrder(PairLess)
  {
    StrLessOrder();
    forall p: (string, string), q: (string, string), r: (string, string)
      | PairLess(p, q) && PairLess(q, r)
      ensures PairLess(p, r)
    {
      if StrLess(p.0, q.0) && StrLess(q.0, r.0) {
        StrLessTransitive(p.0, q.0, r.0);
      } else if p.0 == q.0 && q.0 == r.0 {
        StrLessTransitive(p.1, q.1, r.1);
      }
    }
  }

  /** `m` is the least element of `s`. */
  ghost predicate IsLeast<T>(m: T, s: set<T>, less: (T, T) -> bool) {
    m in s && forall y :: y in s && y != m ==> less(m, y)
  }

  /** A non-empty finite set has a least element. */
  lemma {:induction false} LeastExists<T(!new)>(s: set<T>, less: (T, T) -> bool)
    requires s != {} && StrictTotalOrder(less)
    ensures exists m :: IsLeast(m, s, less)
    decreases |s|
  {
    var x :| x in s;
    if s == {x} {
      assert IsLeast(x, s, less);
    } else {
      LeastExists(s - {x}, less);
      var m :| IsLeast(m, s - {x}, less);
      if less(x, m) {
        forall y | y in s && y != x ensures less(x, y) {
          if y != m {
            assert less(m, y);
          }
        }
        assert IsLeast(x, s, less);
      } else {
        assert IsLeast(m, s, less);
      }
    }
  }

  /** The least element is unique. */
  lemma LeastUnique<T(!new)>(m: T, n: T, s: set<T>, less: (T, T) -> bool)
    requires StrictTotalOrder(less) && IsLeast(m, s, less) && IsLeast(n, s, less)
    ensures m == n
  {
  }

  /** `sorted(s)`: the elements of `s`, least first. */
  ghost function Sorted<T(!new)>(s: set<T>, less: (T, T) -> bool): seq<T>
    requires StrictTotalOrder(less)
    decreases |s|
  {
    if s == {} then []
    else
      LeastExists(s, less);
      var m :| IsLeast(m, s, less);
      [m] + Sorted(s - {m}, less)
  }

  /** `sorted(s)` starts with the least element of `s`. */
  lemma SortedUnfold<T(!new)>(s: set<T>, less: (T, T) -> bool, m: T)
    requires StrictTotalOrder(less) && IsLeast(m, s, less)
    ensures Sorted(s, less) == [m] + Sorted(s - {m}, less)
  {
    forall n | IsLeast(n, s, less) ensures n == m {
      LeastUnique(m, n, s, less);
    }
  }

  /** `r` is strictly increasing. */
  ghost predicate Increasing<T>(r: seq<T>, less: (T, T) -> bool) {
    forall i, j :: 0 <= i < j < |r| ==> less(r[i], r[j])
  }

  /** `sorted(s)` is strictly increasing and holds exactly the elements of `s`. */
  lemma {:induction false} SortedProperties<T(!new)>(s: set<T>, less: (T, T) -> bool)
    requires StrictTotalOrder(less)
    ensures Increasing(Sorted(s, less), less)
    ensures forall x :: x in Sorted(s, less) <==> x in s
    ensures |Sorted(s, less)| == |s|
    decreases |s|
  {
    if s != {} {
      LeastExists(s, less);
      var m :| IsLeast(m, s, less);
      var rest := Sorted(s - {m}, less);
      SortedUnfold(s, less, m);
      SortedProperties(s - {m}, less);
      var r := [m] + rest;
      forall i, j | 0 <= i < j < |r| ensures less(r[i], r[j]) {
        if i == 0 {
          assert r[j] == rest[j - 1] && r[j] in s - {m};
        } else {
          assert r[i] == rest[i - 1] && r[j] == rest[j - 1];
        }
      }
    }
  }

  /** The least element of a non-empty set, by one pass over it. */
  method Least<T(==,!new)>(s: set<T>, less: (T, T) -> bool) returns (m: T)
    requires s != {} && StrictTotalOrder(less)
    ensures IsLeast(m, s, less)
  {
    var x :| x in s;
    m := x;
    var todo := s - {x};
    while todo != {}
      invariant todo <= s && m in s && m !in todo
      invariant forall y :: y in s && y !in todo && y != m ==> less(m, y)
      decreases |todo|
    {
      var y :| y in todo;
      if less(y, m) {
        m := y;
      }
      todo := todo - {y};
    }
  }

  /** `sorted(s)` by repeatedly taking out the least element. */
  method SortSet<T(==,!new)>(s: set<T>, less: (T, T) -> bool) returns (r: seq<T>)
    requires StrictTotalOrder(less)
    ensures r == Sorted(s, less)
  {
    r := [];
    var rest := s;
    while rest != {}
      invariant r + Sorted(rest, less) == Sorted(s, less)
      decreases |rest|
    {
      var m := Least(rest, less);
      SortedUnfold(rest, less, m);
      r := r + [m];
      rest := rest - {m};
    }
  }
}
