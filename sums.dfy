/** Sums over finite sets and over the entries of finite maps, independent of
    the order in which the engine's loops visit the elements. */
module Sums {

  /** The sum of f over the finite set s. */
  ghost function SumSet<K>(s: set<K>, f: K -> int): int
  {
    if s == {} then 0 else
      var k :| k in s;
      f(k) + SumSet(s - {k}, f)
  }

  /** Taking any element out first gives the same sum. */
  lemma {:induction false} SumSetRemove<K>(s: set<K>, f: K -> int, k: K)
    requires k in s
    ensures SumSet(s, f) == f(k) + SumSet(s - {k}, f)
  {
    var c :| c in s && SumSet(s, f) == f(c) + SumSet(s - {c}, f);
    if c != k {
      SumSetRemove(s - {c}, f, k);
      SumSetRemove(s - {k}, f, c);
      assert s - {c} - {k} == s - {k} - {c};
    }
  }

  lemma SumSetAdd<K>(s: set<K>, f: K -> int, k: K)
    requires k !in s
    ensures SumSet(s + {k}, f) == SumSet(s, f) + f(k)
  {
    SumSetRemove(s + {k}, f, k);
    assert s + {k} - {k} == s;
  }

  /** Functions that agree on s have the same sum over s. */
  lemma {:induction false} SumSetCongruent<K>(s: set<K>, f: K -> int, g: K -> int)
    requires forall k | k in s :: f(k) == g(k)
    ensures SumSet(s, f) == SumSet(s, g)
  {
    if s != {} {
      var k :| k in s;
      SumSetRemove(s, f, k);
      SumSetRemove(s, g, k);
      SumSetCongruent(s - {k}, f, g);
    }
  }

  /** Summing termwise-smaller values gives a smaller sum. */
  lemma {:induction false} SumSetMonotone<K>(s: set<K>, f: K -> int, g: K -> int)
    requires forall k | k in s :: f(k) <= g(k)
    ensures SumSet(s, f) <= SumSet(s, g)
  {
    if s != {} {
      var k :| k in s;
      SumSetRemove(s, f, k);
      SumSetRemove(s, g, k);
      SumSetMonotone(s - {k}, f, g);
    }
  }

  /** The value a map holds for k, 0 when k is absent (std::map::operator[]
      on a counter). */
  function Get<K>(m: map<K, nat>, k: K): nat {
    if k in m then m[k] else 0
  }

  /** Increment the counter of k, inserting it at 0 first when absent. */
  function Inc<K(!new)>(m: map<K, nat>, k: K): (r: map<K, nat>)
    ensures r.Keys == m.Keys + {k}
    ensures Get(r, k) == Get(m, k) + 1
    ensures forall j | j != k :: Get(r, j) == Get(m, j)
  {
    m[k := Get(m, k) + 1]
  }

  /** g applied to the counter of each key. */
  function Term<K>(m: map<K, nat>, g: nat -> int): K -> int {
    k => g(Get(m, k))
  }

  lemma TermAt<K>(m: map<K, nat>, g: nat -> int, k: K)
    ensures Term(m, g)(k) == g(Get(m, k))
  {
  }

  /** The sum of g over the counters of m. */
  ghost function SumMap<K>(m: map<K, nat>, g: nat -> int): int {
    SumSet(m.Keys, Term(m, g))
  }

  /** Effect of one increment on a sum over the counters of a map, for a g
      that maps an absent (zero) counter to 0. */
  lemma SumMapStep<K(!new)>(m: map<K, nat>, k: K, g: nat -> int)
    requires g(0) == 0
    ensures SumMap(Inc(m, k), g) == SumMap(m, g) + g(Get(m, k) + 1) - g(Get(m, k))
  {
    var m' := Inc(m, k);
    var rest := m.Keys - {k};
    SumSetCongruent(rest, Term(m, g), Term(m', g));
    SumSetRemove(m'.Keys, Term(m', g), k);
    assert m'.Keys - {k} == rest;
    if k in m {
      SumSetRemove(m.Keys, Term(m, g), k);
    } else {
      assert m.Keys == rest;
    }
  }

  /** A sum of non-negative terms is non-negative. */
  lemma {:induction false} SumSetNonNegative<K>(s: set<K>, f: K -> int)
    requires forall k | k in s :: f(k) >= 0
    ensures SumSet(s, f) >= 0
  {
    if s != {} {
      var k :| k in s;
      SumSetRemove(s, f, k);
      SumSetNonNegative(s - {k}, f);
    }
  }

  /** Summing zeros gives zero. */
  lemma {:induction false} SumSetZero<K>(s: set<K>)
    ensures SumSet(s, k => 0) == 0
  {
    if s != {} {
      var k :| k in s;
      SumSetRemove(s, k => 0, k);
      SumSetZero(s - {k});
    }
  }
}
