/** Ascending traversal of a std::set of labels, modelled as the strictly
    increasing sequence of its elements. */
module Ordered {

  predicate StrictlyIncreasing(s: seq<nat>) {
    forall i, j | 0 <= i < j < |s| :: s[i] < s[j]
  }

  /** The set of the elements of xs. */
  function Elems(xs: seq<nat>): set<nat> {
    set x | x in xs
  }

  lemma ElemsSnoc(xs: seq<nat>, j: nat)
    requires j < |xs|
    ensures Elems(xs[..j + 1]) == Elems(xs[..j]) + {xs[j]}
  {
    assert xs[..j + 1] == xs[..j] + [xs[j]];
  }

  predicate IsMin(s: set<nat>, m: nat) {
    m in s && forall x | x in s :: m <= x
  }

  lemma {:induction false} MinExists(s: set<nat>)
    requires s != {}
    ensures exists m :: IsMin(s, m)
  {
    var x :| x in s;
    if s != {x} {
      MinExists(s - {x});
      var m :| IsMin(s - {x}, m);
      assert s == (s - {x}) + {x};
      if x < m {
        assert IsMin(s, x);
      } else {
        assert IsMin(s, m);
      }
    } else {
      assert IsMin(s, x);
    }
  }

  /** The elements of s in the order a std::set visits them. */
  ghost function Sorted(s: set<nat>): (r: seq<nat>)
    ensures |r| == |s|
    ensures forall x :: x in r <==> x in s
    ensures StrictlyIncreasing(r)
    decreases |s|
  {
    if s == {} then [] else
      MinExists(s);
      var m :| IsMin(s, m);
      var rest := Sorted(s - {m});
      PrependMin(s, m, rest);
      [m] + rest
  }

  /** Putting the minimum of s before the ordered rest of s keeps the order. */
  lemma PrependMin(s: set<nat>, m: nat, rest: seq<nat>)
    requires IsMin(s, m) && StrictlyIncreasing(rest)
    requires forall x :: x in rest <==> x in s - {m}
    ensures StrictlyIncreasing([m] + rest)
    ensures forall x :: x in [m] + rest <==> x in s
  {
    var r := [m] + rest;
    forall i, j | 0 <= i < j < |r| ensures r[i] < r[j] {
      assert r[j] == rest[j - 1] && rest[j - 1] in rest;
      if i > 0 { assert r[i] == rest[i - 1]; }
    }
  }

  lemma HeadIsMin(r: seq<nat>)
    requires StrictlyIncreasing(r) && r != []
    ensures forall x | x in r :: r[0] <= x
  {
    forall x | x in r ensures r[0] <= x {
      var i :| 0 <= i < |r| && r[i] == x;
      if i > 0 { assert r[0] < r[i]; }
    }
  }

  /** Two strictly increasing sequences with the same elements are equal. */
  lemma {:induction false} IncreasingUnique(r: seq<nat>, t: seq<nat>)
    requires StrictlyIncreasing(r) && StrictlyIncreasing(t)
    requires forall x :: x in r <==> x in t
    ensures r == t
    decreases |r|
  {
    assert r == [] <==> t == [] by {
      if t != [] { assert t[0] in t; }
      if r != [] { assert r[0] in r; }
    }
    if r != [] {
      assert r[0] in t;
      assert t != [];
      HeadIsMin(r);
      HeadIsMin(t);
      assert t[0] in r;
      assert r[0] == t[0];
      forall x ensures x in r[1..] <==> x in t[1..] {
        if x in r[1..] {
          assert x in r && x != r[0] by {
            var i :| 1 <= i < |r| && r[i] == x;
            assert r[0] < r[i];
          }
          assert x in t;
          var j :| 0 <= j < |t| && t[j] == x;
          assert t[1..][j - 1] == x;
        }
        if x in t[1..] {
          assert x in t && x != t[0] by {
            var i :| 1 <= i < |t| && t[i] == x;
            assert t[0] < t[i];
          }
          assert x in r;
          var j :| 0 <= j < |r| && r[j] == x;
          assert r[1..][j - 1] == x;
        }
      }
      IncreasingUnique(r[1..], t[1..]);
      assert r == [r[0]] + r[1..];
      assert t == [t[0]] + t[1..];
    }
  }

  /** A strictly increasing sequence is determined by its elements. */
  lemma SortedUnique(s: set<nat>, r: seq<nat>)
    requires StrictlyIncreasing(r) && Elems(r) == s
    ensures r == Sorted(s)
  {
    IncreasingUnique(r, Sorted(s));
  }

  /** Ascending traversal: the elements of s, smallest first. */
  method Elements(s: set<nat>) returns (r: seq<nat>)
    ensures StrictlyIncreasing(r) && Elems(r) == s
  {
    r := [];
    var rest := s;
    while rest != {}
      invariant rest <= s
      invariant StrictlyIncreasing(r)
      invariant forall x :: x in r <==> x in s - rest
      invariant forall x, y | x in r && y in rest :: x < y
      decreases |rest|
    {
      MinExists(rest);
      var m :| IsMin(rest, m);
      forall i | 0 <= i < |r| ensures r[i] < m {
        assert r[i] in r;
      }
      r := r + [m];
      rest := rest - {m};
    }
  }
}
