/**
  Orderings used to present the aggregated report: Python's code-point
  ordering of strings, and sorting the keys of a finite set into a strictly
  ascending sequence.
 */
module Ordering {

  /** Lexicographic order on strings by code point; a proper prefix is smaller. */
  predicate StrLess(a: string, b: string)
    decreases |a|
  {
    if |a| == 0 then |b| > 0
    else if |b| == 0 then false
    else if a[0] != b[0] then a[0] < b[0]
    else StrLess(a[1..], b[1..])
  }

  predicate IntLess(a: int, b: int) {
    a < b
  }

  lemma {:induction false} StrLessIrreflexive(a: string)
    ensures !StrLess(a, a)
    decreases |a|
  {
    if |a| > 0 {
      StrLessIrreflexive(a[1..]);
    }
  }

  lemma {:induction false} StrLessTransitive(a: string, b: string, c: string)
    requires StrLess(a, b) && StrLess(b, c)
    ensures StrLess(a, c)
    decreases |a|
  {
    if |a| > 0 && a[0] == b[0] && b[0] == c[0] {
      StrLessTransitive(a[1..], b[1..], c[1..]);
    }
  }

  lemma {:induction false} StrLessConnected(a: string, b: string)
    requires a != b
    ensures StrLess(a, b) || StrLess(b, a)
    decreases |a|
  {
    if |a| > 0 && |b| > 0 && a[0] == b[0] {
      assert a == [a[0]] + a[1..] && b == [b[0]] + b[1..];
      StrLessConnected(a[1..], b[1..]);
    }
  }

  /** `less` is a strict total order when restricted to the elements of `ks`. */
  ghost predicate StrictTotalOn<K>(ks: set<K>, less: (K, K) -> bool) {
    && (forall a :: a in ks ==> !less(a, a))
    && (forall a, b, c :: a in ks && b in ks && c in ks && less(a, b) && less(b, c) ==> less(a, c))
    && (forall a, b :: a in ks && b in ks && a != b ==> less(a, b) || less(b, a))
  }

  lemma StrLessIsStrictTotal(ks: set<string>)
    ensures StrictTotalOn(ks, StrLess)
  {
    forall a | a in ks
      ensures !StrLess(a, a)
    {
      StrLessIrreflexive(a);
    }
    forall a, b, c | a in ks && b in ks && c in ks && StrLess(a, b) && StrLess(b, c)
      ensures StrLess(a, c)
    {
      StrLessTransitive(a, b, c);
    }
    forall a, b | a in ks && b in ks && a != b
      ensures StrLess(a, b) || StrLess(b, a)
    {
      StrLessConnected(a, b);
    }
  }

  lemma IntLessIsStrictTotal(ks: set<int>)
    ensures StrictTotalOn(ks, IntLess)
  {
  }

  predicate IsLeast<K(==)>(m: K, ks: set<K>, less: (K, K) -> bool) {
    m in ks && forall y :: y in ks && y != m ==> less(m, y)
  }

  /** Every non-empty finite set has a least element under a strict total order. */
  lemma {:induction false} LeastExists<K>(ks: set<K>, less: (K, K) -> bool)
    requires ks != {}
    requires StrictTotalOn(ks, less)
    ensures exists m :: IsLeast(m, ks, less)
    decreases ks
  {
    var x :| x in ks;
    var rest := ks - {x};
    if rest == {} {
      assert ks == {x};
      assert IsLeast(x, ks, less);
    } else {
      LeastExists(rest, less);
      var m :| IsLeast(m, rest, less);
      if less(x, m) {
        assert IsLeast(x, ks, less);
      } else {
        assert IsLeast(m, ks, less);
      }
    }
  }

  /** The elements of `ks` in strictly ascending order. */
  function SortSet<K(==,!new)>(ks: set<K>, less: (K, K) -> bool): (r: seq<K>)
    requires StrictTotalOn(ks, less)
    ensures |r| == |ks|
    ensures forall x :: x in r <==> x in ks
    ensures forall i, j :: 0 <= i < j < |r| ==> less(r[i], r[j])
    decreases ks
  {
    if ks == {} then []
    else
      LeastExists(ks, less);
      var m :| IsLeast(m, ks, less);
      [m] + SortSet(ks - {m}, less)
  }

  /** Location names, each once, strictly ascending in code-point order. */
  function SortedNames(ks: set<string>): (r: seq<string>)
    ensures |r| == |ks|
    ensures forall x :: x in r <==> x in ks
    ensures forall i, j :: 0 <= i < j < |r| ==> StrLess(r[i], r[j])
  {
    StrLessIsStrictTotal(ks);
    SortSet(ks, StrLess)
  }

  /** Days, each once, strictly ascending. */
  function SortedDays(ks: set<int>): (r: seq<int>)
    ensures |r| == |ks|
    ensures forall x :: x in r <==> x in ks
    ensures forall i, j :: 0 <= i < j < |r| ==> r[i] < r[j]
  {
    IntLessIsStrictTotal(ks);
    SortSet(ks, IntLess)
  }
}
