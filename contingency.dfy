/** Counting label co-occurrences over a reconstruction and a ground-truth
    stack, as the Rand index and the variation of information both do: which
    voxels are counted, the contingency table of (reconstruction label,
    ground-truth label) pairs with its two marginals, and the identities
    between their sums. */
module Contingency {
  import opened Base
  import opened Sums

  /** A voxel's reconstruction label and ground-truth label, in that order. */
  type LabelPair = (Label, Label)

  /** The label pairs of two sections, pixel by pixel; the walk follows the
      reconstruction section and reads the ground-truth section in step. */
  function SectionPairs(rec: Image, gt: Image): (r: seq<LabelPair>)
    requires |rec.pixels| <= |gt.pixels|
    ensures |r| == |rec.pixels|
    ensures forall p | 0 <= p < |r| :: r[p] == (rec.pixels[p], gt.pixels[p])
  {
    seq(|rec.pixels|, p requires 0 <= p < |rec.pixels| => (rec.pixels[p], gt.pixels[p]))
  }

  /** The first depth sections of both stacks exist and every ground-truth
      section has at least as many pixels as its reconstruction section. */
  predicate Lockstep(rec: seq<Image>, gt: seq<Image>, depth: nat) {
    depth <= |rec| && depth <= |gt| && forall z | 0 <= z < depth :: |rec[z].pixels| <= |gt[z].pixels|
  }

  /** The label pairs of the first depth sections, section by section. */
  function StackPairs(rec: seq<Image>, gt: seq<Image>, depth: nat): seq<LabelPair>
    requires Lockstep(rec, gt, depth)
  {
    if depth == 0 then [] else StackPairs(rec, gt, depth - 1) + SectionPairs(rec[depth - 1], gt[depth - 1])
  }

  /** Sections of size pixels each give depth * size pairs. */
  lemma {:induction false} StackPairsLength(rec: seq<Image>, gt: seq<Image>, depth: nat, size: nat)
    requires Lockstep(rec, gt, depth)
    requires forall z | 0 <= z < depth :: |rec[z].pixels| == size
    ensures |StackPairs(rec, gt, depth)| == depth * size
  {
    if depth > 0 {
      StackPairsLength(rec, gt, depth - 1, size);
      assert depth * size == (depth - 1) * size + size;
    }
  }

  /** Walking one element further along s. */
  lemma SectionPrefix(done: seq<LabelPair>, rec: Image, gt: Image, i: nat)
    requires i < |rec.pixels| <= |gt.pixels|
    ensures done + SectionPairs(rec, gt)[..i + 1] == (done + SectionPairs(rec, gt)[..i]) + [(rec.pixels[i], gt.pixels[i])]
  {
    var s := SectionPairs(rec, gt);
    assert s[..i + 1] == s[..i] + [s[i]];
  }

  /** Whether the voxel is skipped: with ignoreBackground set, voxels whose
      ground-truth label is 0 are not counted. */
  predicate Skipped(ignoreBackground: bool, p: LabelPair) {
    ignoreBackground && p.1 == 0
  }

  /** The pairs that are counted, in order. */
  function Kept(ignoreBackground: bool, ps: seq<LabelPair>): (r: seq<LabelPair>)
    ensures |r| <= |ps|
  {
    if ps == [] then []
    else
      var rest := if Skipped(ignoreBackground, ps[|ps| - 1]) then [] else [ps[|ps| - 1]];
      Kept(ignoreBackground, ps[..|ps| - 1]) + rest
  }

  lemma KeptStep(ignoreBackground: bool, ps: seq<LabelPair>, p: LabelPair)
    ensures Kept(ignoreBackground, ps + [p]) ==
      Kept(ignoreBackground, ps) + (if Skipped(ignoreBackground, p) then [] else [p])
  {
    assert (ps + [p])[..|ps|] == ps;
  }

  /** A pair is counted exactly when it occurs and is not skipped. */
  lemma {:induction false} KeptMembers(ignoreBackground: bool, ps: seq<LabelPair>, p: LabelPair)
    ensures p in Kept(ignoreBackground, ps) <==> p in ps && !Skipped(ignoreBackground, p)
  {
    if ps != [] {
      var init := ps[..|ps| - 1];
      KeptMembers(ignoreBackground, init, p);
      assert ps == init + [ps[|ps| - 1]];
    }
  }

  /** The voxels counted over two stacks of equal depth. */
  function Counted(ignoreBackground: bool, rec: seq<Image>, gt: seq<Image>): seq<LabelPair>
    requires Lockstep(rec, gt, |rec|)
  {
    Kept(ignoreBackground, StackPairs(rec, gt, |rec|))
  }

  /** The counter map after incrementing the counter of each element of ks
      in turn (std::map::operator[] followed by ++). */
  function Counts<K(!new)>(ks: seq<K>): map<K, nat> {
    if ks == [] then map[] else Inc(Counts(ks[..|ks| - 1]), ks[|ks| - 1])
  }

  /** The counters are the multiplicities of the elements, and exactly the
      elements that occur have a counter. */
  lemma {:induction false} CountsAreMultiplicities<K(!new)>(ks: seq<K>)
    ensures forall k :: Get(Counts(ks), k) == multiset(ks)[k]
    ensures forall k :: k in Counts(ks) <==> k in ks
  {
    if ks != [] {
      var init := ks[..|ks| - 1];
      CountsAreMultiplicities(init);
      assert ks == init + [ks[|ks| - 1]];
    }
  }

  /** The reconstruction labels of a list of pairs. */
  function Firsts(ps: seq<LabelPair>): (r: seq<Label>)
    ensures |r| == |ps| && forall i | 0 <= i < |ps| :: r[i] == ps[i].0
  {
    seq(|ps|, i requires 0 <= i < |ps| => ps[i].0)
  }

  /** The ground-truth labels of a list of pairs. */
  function Seconds(ps: seq<LabelPair>): (r: seq<Label>)
    ensures |r| == |ps| && forall i | 0 <= i < |ps| :: r[i] == ps[i].1
  {
    seq(|ps|, i requires 0 <= i < |ps| => ps[i].1)
  }

  /** The contingency table of the counted pairs, the counts of their
      reconstruction labels, and those of their ground-truth labels. */
  predicate Tally(c: map<LabelPair, nat>, a: map<Label, nat>, b: map<Label, nat>, ps: seq<LabelPair>) {
    c == Counts(ps) && a == Counts(Firsts(ps)) && b == Counts(Seconds(ps))
  }

  /** Counting one more pair increments one cell of the table and one
      counter of each marginal. */
  lemma CountsStep(ps: seq<LabelPair>, p: LabelPair)
    ensures Counts(ps + [p]) == Inc(Counts(ps), p)
    ensures Counts(Firsts(ps + [p])) == Inc(Counts(Firsts(ps)), p.0)
    ensures Counts(Seconds(ps + [p])) == Inc(Counts(Seconds(ps)), p.1)
  {
    assert (ps + [p])[..|ps|] == ps;
    assert Firsts(ps + [p])[..|ps|] == Firsts(ps);
    assert Seconds(ps + [p])[..|ps|] == Seconds(ps);
  }

  /** CountsStep for the last pair of a non-empty list. */
  lemma CountsLast(ps: seq<LabelPair>)
    requires ps != []
    ensures Counts(ps) == Inc(Counts(ps[..|ps| - 1]), ps[|ps| - 1])
    ensures Counts(Firsts(ps)) == Inc(Counts(Firsts(ps[..|ps| - 1])), ps[|ps| - 1].0)
    ensures Counts(Seconds(ps)) == Inc(Counts(Seconds(ps[..|ps| - 1])), ps[|ps| - 1].1)
  {
    assert Firsts(ps)[..|ps| - 1] == Firsts(ps[..|ps| - 1]);
    assert Seconds(ps)[..|ps| - 1] == Seconds(ps[..|ps| - 1]);
  }

  /** Counting voxel q after the voxels before: a skipped voxel leaves the
      tally as it is, any other increments one cell and two counters. */
  lemma TallyStep(ignoreBackground: bool, before: seq<LabelPair>, q: LabelPair,
                  c: map<LabelPair, nat>, a: map<Label, nat>, b: map<Label, nat>)
    requires Tally(c, a, b, Kept(ignoreBackground, before))
    ensures Kept(ignoreBackground, before + [q]) ==
      Kept(ignoreBackground, before) + (if Skipped(ignoreBackground, q) then [] else [q])
    ensures Skipped(ignoreBackground, q) ==> Tally(c, a, b, Kept(ignoreBackground, before + [q]))
    ensures !Skipped(ignoreBackground, q) ==>
      Tally(Inc(c, q), Inc(a, q.0), Inc(b, q.1), Kept(ignoreBackground, before + [q]))
  {
    KeptStep(ignoreBackground, before, q);
    var kept := Kept(ignoreBackground, before);
    if !Skipped(ignoreBackground, q) {
      assert Kept(ignoreBackground, before + [q]) == kept + [q];
      CountsStep(kept, q);
    } else {
      assert Kept(ignoreBackground, before + [q]) == kept;
    }
  }

  function Id(n: nat): int { n }

  function Square(n: nat): int { n * n }

  /** The number of ordered pairs of distinct members of a group of n. */
  function OrderedPairs(n: nat): int { n * (n - 1) }

  /** The counters of a counter map sum to the number of increments. */
  lemma {:induction false} CountsTotal<K(!new)>(ks: seq<K>)
    ensures SumMap(Counts(ks), Id) == |ks|
  {
    if ks != [] {
      CountsTotal(ks[..|ks| - 1]);
      SumMapStep(Counts(ks[..|ks| - 1]), ks[|ks| - 1], Id);
    }
  }

  /** The table and both marginals each sum to the number of counted
      voxels. */
  lemma Totals(ps: seq<LabelPair>)
    ensures SumMap(Counts(ps), Id) == |ps|
    ensures SumMap(Counts(Firsts(ps)), Id) == |ps|
    ensures SumMap(Counts(Seconds(ps)), Id) == |ps|
  {
    CountsTotal(ps);
    CountsTotal(Firsts(ps));
    CountsTotal(Seconds(ps));
  }

  /** The cells of the table in row r (reconstruction label r) and in
      column g (ground-truth label g). */
  function RowKeys(c: map<LabelPair, nat>, r: Label): set<LabelPair> {
    set k | k in c.Keys && k.0 == r
  }

  function ColumnKeys(c: map<LabelPair, nat>, g: Label): set<LabelPair> {
    set k | k in c.Keys && k.1 == g
  }

  /** Incrementing the counter of p raises the sum of the counters over a
      key set that, with p, covers every key of the row or column of p. */
  lemma SumIncCovered(m: map<LabelPair, nat>, p: LabelPair, s: set<LabelPair>)
    requires s <= m.Keys && (p in m ==> p in s)
    ensures SumSet(s + {p}, Term(Inc(m, p), Id)) == SumSet(s, Term(m, Id)) + 1
  {
    var m' := Inc(m, p);
    var rest := s - {p};
    SumSetCongruent(rest, Term(m, Id), Term(m', Id));
    SumSetRemove(s + {p}, Term(m', Id), p);
    assert (s + {p}) - {p} == rest;
    if p in s {
      SumSetRemove(s, Term(m, Id), p);
    } else {
      assert s == rest;
    }
  }

  /** One increment of the table and of the row counter of p keeps the row
      counter r equal to the sum of row r. */
  lemma RowStep(c: map<LabelPair, nat>, a: map<Label, nat>, p: LabelPair, r: Label)
    requires Get(a, r) == SumSet(RowKeys(c, r), Term(c, Id))
    ensures Get(Inc(a, p.0), r) == SumSet(RowKeys(Inc(c, p), r), Term(Inc(c, p), Id))
  {
    var c' := Inc(c, p);
    if p.0 == r {
      assert RowKeys(c', r) == RowKeys(c, r) + {p};
      SumIncCovered(c, p, RowKeys(c, r));
    } else {
      assert RowKeys(c', r) == RowKeys(c, r);
      SumSetCongruent(RowKeys(c, r), Term(c, Id), Term(c', Id));
    }
  }

  lemma ColumnStep(c: map<LabelPair, nat>, b: map<Label, nat>, p: LabelPair, g: Label)
    requires Get(b, g) == SumSet(ColumnKeys(c, g), Term(c, Id))
    ensures Get(Inc(b, p.1), g) == SumSet(ColumnKeys(Inc(c, p), g), Term(Inc(c, p), Id))
  {
    var c' := Inc(c, p);
    if p.1 == g {
      assert ColumnKeys(c', g) == ColumnKeys(c, g) + {p};
      SumIncCovered(c, p, ColumnKeys(c, g));
    } else {
      assert ColumnKeys(c', g) == ColumnKeys(c, g);
      SumSetCongruent(ColumnKeys(c, g), Term(c, Id), Term(c', Id));
    }
  }

  /** Each marginal counter is the sum of its row, or column, of the
      table. */
  lemma {:induction false} Marginals(ps: seq<LabelPair>, r: Label, g: Label)
    ensures Get(Counts(Firsts(ps)), r) == SumSet(RowKeys(Counts(ps), r), Term(Counts(ps), Id))
    ensures Get(Counts(Seconds(ps)), g) == SumSet(ColumnKeys(Counts(ps), g), Term(Counts(ps), Id))
  {
    if ps == [] {
      assert RowKeys(Counts(ps), r) == {};
      assert ColumnKeys(Counts(ps), g) == {};
    } else {
      var init := ps[..|ps| - 1];
      Marginals(init, r, g);
      CountsLast(ps);
      RowStep(Counts(init), Counts(Firsts(init)), ps[|ps| - 1], r);
      ColumnStep(Counts(init), Counts(Seconds(init)), ps[|ps| - 1], g);
    }
  }

  /** A cell of the table never exceeds its row or its column counter. */
  lemma {:induction false} CellWithinMarginals(ps: seq<LabelPair>, p: LabelPair)
    ensures Get(Counts(ps), p) <= Get(Counts(Firsts(ps)), p.0)
    ensures Get(Counts(ps), p) <= Get(Counts(Seconds(ps)), p.1)
  {
    if ps != [] {
      CellWithinMarginals(ps[..|ps| - 1], p);
      CountsLast(ps);
    }
  }

  lemma SquareStep(n: nat)
    ensures Square(n + 1) - Square(n) == 2 * n + 1
    ensures OrderedPairs(n + 1) - OrderedPairs(n) == 2 * n
  {
  }

  /** How one increment changes a sum of squares, and a sum of ordered
      pairs. */
  lemma SquaresInc<K(!new)>(m: map<K, nat>, k: K)
    ensures SumMap(Inc(m, k), Square) == SumMap(m, Square) + 2 * Get(m, k) + 1
    ensures SumMap(Inc(m, k), OrderedPairs) == SumMap(m, OrderedPairs) + 2 * Get(m, k)
  {
    SumMapStep(m, k, Square);
    SumMapStep(m, k, OrderedPairs);
    SquareStep(Get(m, k));
  }

  /** The number of same-label pairs under both labelings (the sum of the
      squared cells) is at most the number under either labeling alone (the
      sum of the squared marginals), and at least the number of voxels. */
  lemma {:induction false} SquareSums(ps: seq<LabelPair>)
    ensures SumMap(Counts(ps), Square) <= SumMap(Counts(Firsts(ps)), Square)
    ensures SumMap(Counts(ps), Square) <= SumMap(Counts(Seconds(ps)), Square)
    ensures |ps| <= SumMap(Counts(ps), Square)
  {
    if ps != [] {
      var init, p := ps[..|ps| - 1], ps[|ps| - 1];
      SquareSums(init);
      CountsLast(ps);
      CellWithinMarginals(init, p);
      SquaresInc(Counts(init), p);
      SquaresInc(Counts(Firsts(init)), p.0);
      SquaresInc(Counts(Seconds(init)), p.1);
    }
  }

  /** Two voxels agree when both labelings put them in the same region or
      both put them in different regions. */
  predicate Agree(p: LabelPair, q: LabelPair) {
    (p.0 == q.0) == (p.1 == q.1)
  }

  /** The number of voxels of ps that agree with p. */
  function AgreeingWith(ps: seq<LabelPair>, p: LabelPair): (r: nat)
    ensures r <= |ps|
  {
    if ps == [] then 0
    else AgreeingWith(ps[..|ps| - 1], p) + (if Agree(ps[|ps| - 1], p) then 1 else 0)
  }

  /** The number of unordered pairs of voxels of ps that agree, each pair
      counted at its later voxel. */
  function AgreeingPairs(ps: seq<LabelPair>): nat {
    if ps == [] then 0 else AgreeingPairs(ps[..|ps| - 1]) + AgreeingWith(ps[..|ps| - 1], ps[|ps| - 1])
  }

  /** A labeling map that never sends two labels to one. */
  ghost predicate Injective(f: Label -> Label) {
    forall a: Label, b: Label :: f(a) == f(b) ==> a == b
  }

  /** ps with its first labels renamed by f and its second by g. */
  function Relabeled(ps: seq<LabelPair>, f: Label -> Label, g: Label -> Label): (r: seq<LabelPair>)
    ensures |r| == |ps|
  {
    seq(|ps|, i requires 0 <= i < |ps| => (f(ps[i].0), g(ps[i].1)))
  }

  lemma {:induction false} AgreeingWithRelabeled(ps: seq<LabelPair>, p: LabelPair, f: Label -> Label, g: Label -> Label)
    requires Injective(f) && Injective(g)
    ensures AgreeingWith(Relabeled(ps, f, g), (f(p.0), g(p.1))) == AgreeingWith(ps, p)
  {
    if ps != [] {
      var init := ps[..|ps| - 1];
      assert Relabeled(ps, f, g)[..|ps| - 1] == Relabeled(init, f, g);
      AgreeingWithRelabeled(init, p, f, g);
    }
  }

  /** Renaming the labels of either labeling one-to-one changes no
      agreement: the agreeing pair count depends only on the partitions. */
  lemma {:induction false} AgreeingPairsRelabeled(ps: seq<LabelPair>, f: Label -> Label, g: Label -> Label)
    requires Injective(f) && Injective(g)
    ensures AgreeingPairs(Relabeled(ps, f, g)) == AgreeingPairs(ps)
  {
    if ps != [] {
      var init := ps[..|ps| - 1];
      assert Relabeled(ps, f, g)[..|ps| - 1] == Relabeled(init, f, g);
      AgreeingPairsRelabeled(init, f, g);
      AgreeingWithRelabeled(init, ps[|ps| - 1], f, g);
    }
  }

  /** The voxels agreeing with p, in terms of the counters: those with both
      labels of p, plus those with neither. */
  lemma {:induction false} AgreeingWithCounts(ps: seq<LabelPair>, p: LabelPair)
    ensures AgreeingWith(ps, p) + Get(Counts(Firsts(ps)), p.0) + Get(Counts(Seconds(ps)), p.1) ==
      2 * Get(Counts(ps), p) + |ps|
  {
    if ps != [] {
      AgreeingWithCounts(ps[..|ps| - 1], p);
      CountsLast(ps);
    }
  }

  /** The numerator the engine halves, over given counters. */
  ghost function Numerator(c: map<LabelPair, nat>, a: map<Label, nat>, b: map<Label, nat>, n: nat): int {
    SumMap(c, OrderedPairs) + n * n + SumMap(c, Square) - SumMap(a, Square) - SumMap(b, Square)
  }

  /** Counting one more voxel p raises the numerator by twice the number of
      counted voxels that agree with p. */
  lemma NumeratorStep(c: map<LabelPair, nat>, a: map<Label, nat>, b: map<Label, nat>, n: nat, p: LabelPair)
    ensures Numerator(Inc(c, p), Inc(a, p.0), Inc(b, p.1), n + 1) ==
      Numerator(c, a, b, n) + 2 * (2 * Get(c, p) + n - Get(a, p.0) - Get(b, p.1))
  {
    SquaresInc(c, p);
    SquaresInc(a, p.0);
    SquaresInc(b, p.1);
    assert (n + 1) * (n + 1) == n * n + 2 * n + 1;
  }

  /** Twice the number of agreeing pairs is the numerator the engine halves:
      the ordered same-cell pairs, plus N^2 plus the squared cells, minus
      the squared row and column counters. */
  lemma {:induction false} AgreeingPairsFormula(ps: seq<LabelPair>)
    ensures 2 * AgreeingPairs(ps) == Numerator(Counts(ps), Counts(Firsts(ps)), Counts(Seconds(ps)), |ps|)
  {
    if ps != [] {
      var init, p := ps[..|ps| - 1], ps[|ps| - 1];
      var c, a, b := Counts(init), Counts(Firsts(init)), Counts(Seconds(init));
      AgreeingPairsFormula(init);
      AgreeingWithCounts(init, p);
      assert Numerator(Counts(ps), Counts(Firsts(ps)), Counts(Seconds(ps)), |ps|) ==
        Numerator(c, a, b, |init|) + 2 * (2 * Get(c, p) + |init| - Get(a, p.0) - Get(b, p.1)) by {
        CountsLast(ps);
        NumeratorStep(c, a, b, |init|, p);
      }
    }
  }

  /** At most all N(N-1)/2 pairs agree. */
  lemma {:induction false} AgreeingPairsBound(ps: seq<LabelPair>)
    ensures 2 * AgreeingPairs(ps) <= |ps| * (|ps| - 1)
  {
    if ps != [] {
      var init := ps[..|ps| - 1];
      AgreeingPairsBound(init);
      assert |ps| * (|ps| - 1) == |init| * (|init| - 1) + 2 * |init|;
    }
  }

  /** Every voxel has the same label in both stacks. */
  predicate Diagonal(ps: seq<LabelPair>) {
    forall i | 0 <= i < |ps| :: ps[i].0 == ps[i].1
  }

  /** A diagonal list's last pair is diagonal and so are the pairs before. */
  lemma DiagonalInit(ps: seq<LabelPair>)
    requires ps != [] && Diagonal(ps)
    ensures Diagonal(ps[..|ps| - 1]) && ps[|ps| - 1] == (ps[|ps| - 1].0, ps[|ps| - 1].0)
  {
  }

  /** When every voxel has the same label in both stacks, all pairs agree. */
  lemma {:induction false} IdenticalLabelingsAgree(ps: seq<LabelPair>)
    requires Diagonal(ps)
    ensures 2 * AgreeingPairs(ps) == |ps| * (|ps| - 1)
  {
    if ps != [] {
      var init := ps[..|ps| - 1];
      DiagonalInit(ps);
      IdenticalLabelingsAgree(init);
      AllAgreeWith(init, ps[|ps| - 1]);
      assert |ps| * (|ps| - 1) == |init| * (|init| - 1) + 2 * |init|;
    }
  }

  lemma {:induction false} AllAgreeWith(ps: seq<LabelPair>, p: LabelPair)
    requires p.0 == p.1 && Diagonal(ps)
    ensures AgreeingWith(ps, p) == |ps|
  {
    if ps != [] {
      DiagonalInit(ps);
      AllAgreeWith(ps[..|ps| - 1], p);
    }
  }
}
