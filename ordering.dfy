/**
 * Ordering: the parts of Python's ordering that the report relies on.
 *
 * `sorted(xs)` over a collection of distinct values is modelled by `Sorted`,
 * which lists a finite set in strictly increasing order of a strict total
 * order `lt`. Python compares strings and tuples lexicographically, element by
 * element, a proper prefix coming first; `LexLess` is that comparison, and
 * `StrLess` (strings by code point), `IntSeqLess` (tuples of code points) and
 * `KeyLess` (pairs of a family name and a missing-character tuple) are its
 * instances.
 */
module Ordering {

  ghost predicate Irreflexive<T(!new)>(lt: (T, T) -> bool) {
    forall a :: !lt(a, a)
  }

  ghost predicate Transitive<T(!new)>(lt: (T, T) -> bool) {
    forall a, b, c :: lt(a, b) && lt(b, c) ==> lt(a, c)
  }

  ghost predicate Connected<T(!new)>(lt: (T, T) -> bool) {
    forall a, b :: a != b ==> lt(a, b) || lt(b, a)
  }

  ghost predicate StrictTotalOrder<T(!new)>(lt: (T, T) -> bool) {
    Irreflexive(lt) && Transitive(lt) && Connected(lt)
  }

  /** Every element of `s` comes strictly before every later one. */
  ghost predicate SortedBy<T>(s: seq<T>, lt: (T, T) -> bool) {
    forall i, j :: 0 <= i < j < |s| ==> lt(s[i], s[j])
  }

  /** `m` is the least element of `s`. */
  ghost predicate IsLeast<T>(m: T, s: set<T>, lt: (T, T) -> bool) {
    m in s && forall x :: x in s && x != m ==> lt(m, x)
  }

  /** A finite non-empty set has a least element under a strict total order. */
  lemma {:induction false} LeastExists<T(!new)>(s: set<T>, lt: (T, T) -> bool)
    requires s != {} && StrictTotalOrder(lt)
    ensures exists m :: IsLeast(m, s, lt)
    decreases |s|
  {
    var x :| x in s;
    assert forall y :: y in s && y != x ==> y in s - {x};
    if s - {x} == {} {
      assert IsLeast(x, s, lt);
    } else {
      LeastExists(s - {x}, lt);
      var m :| IsLeast(m, s - {x}, lt);
      if lt(x, m) {
        assert IsLeast(x, s, lt);
      } else {
        assert IsLeast(m, s, lt);
      }
    }
  }

  /**
   * Python's `sorted` applied to a set: its elements in strictly increasing
   * order, each exactly once.
   */
  function Sorted<T(==,!new)>(s: set<T>, lt: (T, T) -> bool): (r: seq<T>)
    requires StrictTotalOrder(lt)
    ensures |r| == |s|
    ensures forall x :: x in r <==> x in s
    ensures SortedBy(r, lt)
    decreases |s|
  {
    if s == {} then []
    else
      LeastExists(s, lt);
      var m :| m in s && forall x :: x in s && x != m ==> lt(m, x);
      [m] + Sorted(s - {m}, lt)
  }

  /**
   * A strictly increasing sequence is determined by its elements: two of them
   * holding the same elements are equal.
   */
  lemma {:induction false} SortedUnique<T(!new)>(a: seq<T>, b: seq<T>, lt: (T, T) -> bool)
    requires StrictTotalOrder(lt)
    requires SortedBy(a, lt) && SortedBy(b, lt)
    requires forall x :: x in a <==> x in b
    ensures a == b
    decreases |a|
  {
    if a != [] {
      assert a[0] in b;
    }
    if b != [] {
      assert b[0] in a;
    }
    if a != [] {
      assert a[0] == b[0];
      forall x
        ensures x in a[1..] <==> x in b[1..]
      {
        if x in a[1..] {
          var i :| 1 <= i < |a| && a[i] == x;
          assert lt(a[0], a[i]);
          assert x in a;
          assert x in b;
          var j :| 0 <= j < |b| && b[j] == x;
          assert j != 0;
          assert b[1..][j - 1] == x;
        }
        if x in b[1..] {
          var j :| 1 <= j < |b| && b[j] == x;
          assert lt(b[0], b[j]);
          assert x in b;
          assert x in a;
          var i :| 0 <= i < |a| && a[i] == x;
          assert i != 0;
          assert a[1..][i - 1] == x;
        }
      }
      SortedUnique(a[1..], b[1..], lt);
    }
  }

  /** The elements of a sequence, as a set. */
  function Elements<T>(s: seq<T>): set<T> {
    set x | x in s
  }

  /**
   * `Sorted` is the canonical form of a set: a strictly increasing sequence is
   * exactly `Sorted` of its own elements, so sorting it again changes nothing.
   */
  lemma SortedIsCanonical<T(!new)>(m: seq<T>, lt: (T, T) -> bool)
    requires StrictTotalOrder(lt)
    requires SortedBy(m, lt)
    ensures Sorted(Elements(m), lt) == m
  {
    SortedUnique(Sorted(Elements(m), lt), m, lt);
  }

  /** Two sets have the same sorted form exactly when they are equal. */
  lemma SortedInjective<T(!new)>(s: set<T>, t: set<T>, lt: (T, T) -> bool)
    requires StrictTotalOrder(lt)
    ensures Sorted(s, lt) == Sorted(t, lt) <==> s == t
  {
    if Sorted(s, lt) == Sorted(t, lt) {
      assert forall x :: x in s <==> x in Sorted(t, lt);
    }
  }

  /**
   * Python's comparison of two sequences: the first differing position
   * decides, and a proper prefix comes before the longer sequence.
   */
  predicate LexLess<T(==)>(a: seq<T>, b: seq<T>, lt: (T, T) -> bool): (r: bool)
    ensures r ==> |b| > 0
    ensures |a| < |b| && a == b[..|a|] ==> r
    decreases |a|
  {
    if |a| == 0 then
      |b| > 0
    else if |b| == 0 then
      false
    else if a[0] == b[0] then
      assert |a| < |b| && a == b[..|a|] ==> a[1..] == b[1..][..|a| - 1];
      LexLess(a[1..], b[1..], lt)
    else
      lt(a[0], b[0])
  }

  lemma {:induction false} LexIrreflexive<T(!new)>(a: seq<T>, lt: (T, T) -> bool)
    requires Irreflexive(lt)
    ensures !LexLess(a, a, lt)
    decreases |a|
  {
    if |a| > 0 {
      LexIrreflexive(a[1..], lt);
    }
  }

  lemma {:induction false} LexTransitive<T(!new)>(a: seq<T>, b: seq<T>, c: seq<T>, lt: (T, T) -> bool)
    requires Irreflexive(lt) && Transitive(lt)
    requires LexLess(a, b, lt) && LexLess(b, c, lt)
    ensures LexLess(a, c, lt)
    decreases |a|
  {
    if |a| > 0 && a[0] == b[0] && b[0] == c[0] {
      LexTransitive(a[1..], b[1..], c[1..], lt);
    }
  }

  lemma {:induction false} LexConnected<T(!new)>(a: seq<T>, b: seq<T>, lt: (T, T) -> bool)
    requires Connected(lt)
    requires a != b
    ensures LexLess(a, b, lt) || LexLess(b, a, lt)
    decreases |a|
  {
    if |a| > 0 && |b| > 0 && a[0] == b[0] {
      assert a == [a[0]] + a[1..] && b == [b[0]] + b[1..];
      LexConnected(a[1..], b[1..], lt);
    }
  }

  /** Lexicographic comparison over a strict total order is a strict total order. */
  lemma LexStrictTotal<T(!new)>(lt: (T, T) -> bool)
    requires StrictTotalOrder(lt)
    ensures forall a :: !LexLess(a, a, lt)
    ensures forall a, b, c :: LexLess(a, b, lt) && LexLess(b, c, lt) ==> LexLess(a, c, lt)
    ensures forall a, b :: a != b ==> LexLess(a, b, lt) || LexLess(b, a, lt)
  {
    forall a ensures !LexLess(a, a, lt) {
      LexIrreflexive(a, lt);
    }
    forall a, b, c | LexLess(a, b, lt) && LexLess(b, c, lt)
      ensures LexLess(a, c, lt)
    {
      LexTransitive(a, b, c, lt);
    }
    forall a, b | a != b
      ensures LexLess(a, b, lt) || LexLess(b, a, lt)
    {
      LexConnected(a, b, lt);
    }
  }

  predicate IntLess(a: int, b: int) {
    a < b
  }

  lemma IntLessIsStrictTotal()
    ensures StrictTotalOrder(IntLess)
  {
  }

  /**
   * A tuple of code points in strictly increasing order, so without repeats.
   * This says what `SortedBy(t, IntLess)` says, but with `<` on integers
   * written out: the grouping specification uses it so that its proofs do not
   * pull in the function value `IntLess` or the definition of `Sorted`.
   */
  predicate Increasing(t: seq<int>) {
    forall i, j :: 0 <= i < j < |t| ==> t[i] < t[j]
  }

  /** `tuple(sorted(s))` for a set of code points: its elements, increasing. */
  function SortedChars(s: set<int>): (t: seq<int>)
    ensures Increasing(t)
    ensures Elements(t) == s
    ensures |t| == |s|
  {
    IntLessIsStrictTotal();
    Sorted(s, IntLess)
  }

  /** An increasing tuple of code points is determined by the set of its elements. */
  lemma IncreasingUnique(t: seq<int>, u: seq<int>)
    requires Increasing(t) && Increasing(u)
    requires Elements(t) == Elements(u)
    ensures t == u
  {
    IntLessIsStrictTotal();
    assert forall x :: x in t <==> x in Elements(t);
    assert forall x :: x in u <==> x in Elements(u);
    SortedUnique(t, u, IntLess);
  }

  predicate CharLess(a: char, b: char) {
    a < b
  }

  /** Python's `<` on `str`: code point by code point. */
  predicate StrLess(a: string, b: string): (r: bool)
    ensures r ==> a != b
  {
    LexIrreflexive(a, CharLess);
    LexLess(a, b, CharLess)
  }

  /** `sorted(s)` for a set of strings: its elements, in increasing order. */
  function SortedStrings(s: set<string>): (r: seq<string>)
    ensures SortedBy(r, StrLess)
    ensures Elements(r) == s
  {
    StrLessIsStrictTotal();
    Sorted(s, StrLess)
  }

  /** Python's `<` on a tuple of characters, with characters as code points. */
  predicate IntSeqLess(a: seq<int>, b: seq<int>): (r: bool)
    ensures r ==> a != b
  {
    LexIrreflexive(a, IntLess);
    LexLess(a, b, IntLess)
  }

  lemma StrLessIsStrictTotal()
    ensures StrictTotalOrder(StrLess)
  {
    LexStrictTotal(CharLess);
  }

  lemma IntSeqLessIsStrictTotal()
    ensures StrictTotalOrder(IntSeqLess)
  {
    LexStrictTotal(IntLess);
  }

  /** Python's `<` on a `(str, tuple)` pair: by the first component, then the second. */
  predicate KeyLess(a: (string, seq<int>), b: (string, seq<int>)): (r: bool)
    ensures r ==> a != b
  {
    StrLess(a.0, b.0) || (a.0 == b.0 && IntSeqLess(a.1, b.1))
  }

  lemma KeyLessIsStrictTotal()
    ensures StrictTotalOrder(KeyLess)
  {
    StrLessIsStrictTotal();
    IntSeqLessIsStrictTotal();
  }

  /** `sorted(keys)` for a set of (family name, tuple) keys: its elements, in increasing order. */
  function SortedKeys(s: set<(string, seq<int>)>): (r: seq<(string, seq<int>)>)
    ensures SortedBy(r, KeyLess)
    ensures Elements(r) == s
    ensures |r| == |s|
  {
    KeyLessIsStrictTotal();
    Sorted(s, KeyLess)
  }
}
