/**
 * Facts about finite sets of integer keys that the persistence backend relies on:
 * the smallest and largest key, and the keys in ascending order (the order in
 * which SQLite scans a rowid table).
 */
module IntSets {

  /** A set that differs from the empty set has an element. */
  lemma HasElement(s: set<int>)
    requires s != {}
    ensures exists y :: y in s
  {
    assert (forall y :: y in s <==> y in {}) ==> s == {};
  }

  /** Every non-empty finite set of integers has a least element. */
  lemma {:induction false} HasMin(s: set<int>)
    requires s != {}
    ensures exists m :: m in s && forall x | x in s :: m <= x
  {
    HasElement(s);
    var y :| y in s;
    if s != {y} {
      HasMin(s - {y});
      var m :| m in s - {y} && forall x | x in s - {y} :: m <= x;
      forall x | x in s ensures Smaller(y, m) <= x {
        if x != y { assert x in s - {y}; }
      }
      assert Smaller(y, m) in s;
    } else {
      assert forall x | x in s :: y <= x;
    }
  }

  /** Every non-empty finite set of integers has a greatest element. */
  lemma {:induction false} HasMax(s: set<int>)
    requires s != {}
    ensures exists m :: m in s && forall x | x in s :: x <= m
  {
    HasElement(s);
    var y :| y in s;
    if s != {y} {
      HasMax(s - {y});
      var m :| m in s - {y} && forall x | x in s - {y} :: x <= m;
      forall x | x in s ensures x <= Larger(y, m) {
        if x != y { assert x in s - {y}; }
      }
      assert Larger(y, m) in s;
    } else {
      assert forall x | x in s :: x <= y;
    }
  }

  /** The least element of `s`. */
  function Min(s: set<int>): (m: int)
    requires s != {}
    ensures m in s && forall x | x in s :: m <= x
  {
    HasMin(s);
    var m :| m in s && forall x | x in s :: m <= x;
    m
  }

  /** The greatest element of `s`. */
  function Max(s: set<int>): (m: int)
    requires s != {}
    ensures m in s && forall x | x in s :: x <= m
  {
    HasMax(s);
    var m :| m in s && forall x | x in s :: x <= m;
    m
  }

  function Smaller(a: int, b: int): int { if a <= b then a else b }
  function Larger(a: int, b: int): int { if a <= b then b else a }

  /** `r` is in strictly ascending order. */
  predicate Ascending(r: seq<int>)
  {
    forall i, j | 0 <= i < j < |r| :: r[i] < r[j]
  }

  /** The elements of `s` in ascending order, each exactly once. */
  function SortedElements(s: set<int>): (r: seq<int>)
    ensures |r| == |s|
    ensures forall x :: x in r <==> x in s
    ensures Ascending(r)
    decreases |s|
  {
    if s == {} then []
    else
      var m := Min(s);
      var rest := SortedElements(s - {m});
      assert forall x | x in rest :: m < x;
      PrependAscending(m, rest);
      assert forall x :: x in [m] + rest <==> x == m || x in rest;
      [m] + rest
  }

  /** Putting an element below every element in front of an ascending sequence keeps it ascending. */
  lemma PrependAscending(m: int, r: seq<int>)
    requires Ascending(r) && forall x | x in r :: m < x
    ensures Ascending([m] + r)
  {
    var q := [m] + r;
    forall i, j | 0 <= i < j < |q| ensures q[i] < q[j] {
      assert q[j] == r[j - 1] && r[j - 1] in r;
      if i > 0 {
        assert q[i] == r[i - 1];
      }
    }
  }
}
