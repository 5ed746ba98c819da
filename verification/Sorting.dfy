/** Finite sets of keys in ascending order, for the source's `sorted(...)` over dictionary keys. */
module Sorting {
  lemma PickOne<T>(s: set<T>) returns (y: T)
    requires s != {}
    ensures y in s
  {
    y :| y in s;
  }

  lemma {:induction false} LeastOf(s: set<real>) returns (m: real)
    requires s != {}
    ensures m in s && forall x | x in s :: m <= x
  {
    var y := PickOne(s);
    var rest := s - {y};
    if rest == {} {
      assert s == {y};
      m := y;
    } else {
      var least := LeastOf(rest);
      m := if y <= least then y else least;
      forall x | x in s
        ensures m <= x
      {
        assert x == y || x in rest;
      }
    }
  }

  lemma LeastExists(s: set<real>)
    requires s != {}
    ensures exists m :: m in s && forall x | x in s :: m <= x
  {
    var m := LeastOf(s);
  }

  function Least(s: set<real>): (m: real)
    requires s != {}
    ensures m in s && forall x | x in s :: m <= x
  {
    LeastExists(s);
    var m :| m in s && forall x | x in s :: m <= x;
    m
  }

  ghost predicate Ascends(r: seq<real>) {
    forall i, j | 0 <= i < j < |r| :: r[i] < r[j]
  }

  lemma AscendsCons(m: real, rest: seq<real>)
    requires Ascends(rest) && forall x | x in rest :: m < x
    ensures Ascends([m] + rest)
  {
    var r := [m] + rest;
    forall i, j | 0 <= i < j < |r|
      ensures r[i] < r[j]
    {
      assert r[j] == rest[j - 1] && r[j] in rest;
    }
  }

  /** The elements of `s`, each once, in ascending order. */
  function Sorted(s: set<real>): seq<real> {
    if s == {} then [] else var m := Least(s); [m] + Sorted(s - {m})
  }

  lemma {:induction false} SortedIs(s: set<real>)
    ensures |Sorted(s)| == |s| && Ascends(Sorted(s))
    ensures forall x :: x in Sorted(s) <==> x in s
  {
    if s != {} {
      var m := Least(s);
      SortedIs(s - {m});
      AscendsCons(m, Sorted(s - {m}));
    }
  }

  /** Ascending order leaves no choice: two sequences with the same elements are equal. */
  lemma {:induction false} AscendingUnique(a: seq<real>, b: seq<real>)
    requires Ascends(a) && Ascends(b)
    requires forall x :: x in a <==> x in b
    ensures a == b
  {
    assert a == [] || a[0] in a;
    assert b == [] || b[0] in b;
    if a != [] {
      assert a[0] == b[0];
      forall x ensures x in a[1..] <==> x in b[1..] {
        assert x in a[1..] ==> x in a && x != a[0];
        assert x in b[1..] ==> x in b && x != b[0];
      }
      AscendingUnique(a[1..], b[1..]);
    }
  }
}
