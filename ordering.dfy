/**
 * Python's ordering of strings and tuples (lexicographic, a proper prefix first) and its
 * `sorted()` over a set, which the contracts use to make their output deterministic.
 */
module Ordering {

  ghost predicate IsStrictTotalOrder<T(!new)>(less: (T, T) -> bool) {
    && (forall a :: !less(a, a))
    && (forall a, b, c :: less(a, b) && less(b, c) ==> less(a, c))
    && (forall a, b :: a == b || less(a, b) || less(b, a))
  }

  /** Lexicographic order on sequences built from an order on their elements (Python tuple/str order). */
  predicate LexLess<T(==)>(a: seq<T>, b: seq<T>, less: (T, T) -> bool)
    decreases |a|
  {
    if |a| == 0 then |b| > 0
    else if |b| == 0 then false
    else if a[0] != b[0] then less(a[0], b[0])
    else LexLess(a[1..], b[1..], less)
  }

  lemma {:induction false} LexIrreflexive<T(!new)>(a: seq<T>, less: (T, T) -> bool)
    requires IsStrictTotalOrder(less)
    ensures !LexLess(a, a, less)
    decreases |a|
  {
    if |a| > 0 {
      LexIrreflexive(a[1..], less);
    }
  }

  lemma {:induction false} LexTransitive<T(!new)>(a: seq<T>, b: seq<T>, c: seq<T>, less: (T, T) -> bool)
    requires IsStrictTotalOrder(less)
    requires LexLess(a, b, less) && LexLess(b, c, less)
    ensures LexLess(a, c, less)
    decreases |a|
  {
    if |a| > 0 && |b| > 0 && |c| > 0 && a[0] == b[0] && b[0] == c[0] {
      LexTransitive(a[1..], b[1..], c[1..], less);
    }
  }

  lemma {:induction false} LexTotal<T(!new)>(a: seq<T>, b: seq<T>, less: (T, T) -> bool)
    requires IsStrictTotalOrder(less)
    ensures a == b || LexLess(a, b, less) || LexLess(b, a, less)
    decreases |a|
  {
    if |a| > 0 && |b| > 0 && a[0] == b[0] {
      LexTotal(a[1..], b[1..], less);
      if a[1..] == b[1..] {
        assert a == [a[0]] + a[1..] && b == [b[0]] + b[1..];
      }
    }
  }

  /** The lexicographic order over a strict total order is again a strict total order. */
  lemma {:induction false} LexIsStrictTotalOrder<T(!new)>(less: (T, T) -> bool)
    requires IsStrictTotalOrder(less)
    ensures forall a: seq<T> :: !LexLess(a, a, less)
    ensures forall a: seq<T>, b: seq<T>, c: seq<T> ::
              LexLess(a, b, less) && LexLess(b, c, less) ==> LexLess(a, c, less)
    ensures forall a: seq<T>, b: seq<T> :: a == b || LexLess(a, b, less) || LexLess(b, a, less)
  {
    forall a: seq<T> ensures !LexLess(a, a, less) {
      LexIrreflexive(a, less);
    }
    forall a: seq<T>, b: seq<T>, c: seq<T> | LexLess(a, b, less) && LexLess(b, c, less)
      ensures LexLess(a, c, less)
    {
      LexTransitive(a, b, c, less);
    }
    forall a: seq<T>, b: seq<T> ensures a == b || LexLess(a, b, less) || LexLess(b, a, less) {
      LexTotal(a, b, less);
    }
  }

  /** A least element of `rest`, or `x` when it is below that element, is a least element of `rest` with `x`. */
  lemma {:induction false} MinimumOfAdded<T(!new)>(rest: set<T>, x: T, m: T, less: (T, T) -> bool)
    requires IsStrictTotalOrder(less)
    requires m in rest && forall y :: y in rest ==> !less(y, m)
    ensures var least := if less(x, m) then x else m;
            forall y :: y in rest + {x} ==> !less(y, least)
  {
    if less(x, m) {
      forall y | y in rest + {x} ensures !less(y, x) {
        if y != x {
          assert y in rest;
        }
      }
    }
  }

  /** A least element of a non-empty finite set, found by adding one element at a time. */
  lemma {:induction false} LeastElement<T(!new)>(s: set<T>, less: (T, T) -> bool) returns (m: T)
    requires IsStrictTotalOrder(less)
    requires s != {}
    ensures m in s && forall y :: y in s ==> !less(y, m)
    decreases |s|
  {
    var x :| x in s;
    var rest := s - {x};
    assert s == rest + {x};
    if rest == {} {
      m := x;
    } else {
      var least := LeastElement(rest, less);
      MinimumOfAdded(rest, x, least, less);
      m := if less(x, least) then x else least;
    }
  }

  /** Every non-empty finite set has a least element. */
  lemma {:induction false} MinimumExists<T(!new)>(s: set<T>, less: (T, T) -> bool)
    requires IsStrictTotalOrder(less)
    requires s != {}
    ensures exists m :: m in s && forall y :: y in s ==> !less(y, m)
  {
    var m := LeastElement(s, less);
  }

  /** The least element of a non-empty set. */
  function Minimum<T(!new)>(s: set<T>, less: (T, T) -> bool): (m: T)
    requires IsStrictTotalOrder(less)
    requires s != {}
    ensures m in s
    ensures forall y :: y in s && y != m ==> less(m, y)
  {
    MinimumExists(s, less);
    var m :| m in s && forall y :: y in s ==> !less(y, m);
    m
  }

  /** Python's `sorted(s)` for a set: its elements in strictly increasing order. */
  function SortSet<T(!new)>(s: set<T>, less: (T, T) -> bool): (r: seq<T>)
    requires IsStrictTotalOrder(less)
    ensures |r| == |s|
    ensures forall x :: x in r <==> x in s
    ensures forall i, j :: 0 <= i < j < |r| ==> less(r[i], r[j])
    decreases |s|
  {
    if s == {} then []
    else
      var m := Minimum(s, less);
      [m] + SortSet(s - {m}, less)
  }

  function IntLess(x: int, y: int): bool {
    x < y
  }

  /** Python's `sorted(s)` for a set of integers. */
  function SortedInts(s: set<int>): (r: seq<int>)
    ensures |r| == |s|
    ensures forall x :: x in r <==> x in s
    ensures forall i, j :: 0 <= i < j < |r| ==> r[i] < r[j]
  {
    assert IsStrictTotalOrder(IntLess);
    SortSet(s, IntLess)
  }
}
