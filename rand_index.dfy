/** The Rand index of a reconstruction against a ground truth: the fraction
    of voxel pairs on which both labelings agree, with the pairwise precision,
    recall and adapted Rand error, all computed from the contingency table of
    the two labelings (the counting algorithm of B. Andres's
    partition-comparison library). */
module Rand {
  import opened Base
  import opened Sums
  import opened Contingency

  /** The scores of one comparison. A score the engine leaves unset, or one
      its double arithmetic makes 0/0, is None. */
  datatype RandIndexErrors = RandIndexErrors(
    numPairs: real,
    numAgreeing: real,
    precision: Option<real>,
    recall: Option<real>,
    adaptedRandError: Option<real>)
  {
    /** The fraction of voxel pairs on which both labelings agree; undefined
        when there are no pairs. */
    function GetRandIndex(): (r: Option<real>)
      ensures r.Some? <==> numPairs != 0.0
    {
      if numPairs == 0.0 then None else Some(numAgreeing / numPairs)
    }
  }

  /** The Rand index is the share of the pairs that agree. */
  lemma RandIndexShare(e: RandIndexErrors)
    requires e.numPairs != 0.0
    ensures e.GetRandIndex().value * e.numPairs == e.numAgreeing
  {
  }

  /** The scores of a comparison of empty stacks: one pair, which agrees. */
  const EmptyErrors := RandIndexErrors(1.0, 1.0, None, None, None)

  /** a / b, undefined for b == 0. */
  function Ratio(a: int, b: int): (r: Option<real>)
    ensures r.Some? <==> b != 0
  {
    if b == 0 then None else Some(a as real / b as real)
  }

  /** Ratio(a, b) times b is a. */
  lemma RatioScales(a: int, b: int)
    requires b != 0
    ensures Ratio(a, b).value * b as real == a as real
  {
  }

  /** The harmonic mean 2pq / (p + q) (the F-score when p and q are
      precision and recall). */
  function HarmonicMean(p: real, q: real): real
    requires p + q != 0.0
  {
    2.0 * (p * q) / (p + q)
  }

  /** One minus the harmonic mean of precision and recall. */
  function AdaptedRandError(precision: Option<real>, recall: Option<real>): (r: Option<real>)
    ensures r.Some? <==> precision.Some? && recall.Some? && precision.value + recall.value != 0.0
  {
    if precision.Some? && recall.Some? && precision.value + recall.value != 0.0 then
      Some(1.0 - HarmonicMean(precision.value, recall.value))
    else None
  }

  /** One minus the adapted Rand error, times p + r, is 2pr. */
  lemma AdaptedRandErrorComplement(p: real, r: real)
    requires p + r != 0.0
    ensures (1.0 - AdaptedRandError(Some(p), Some(r)).value) * (p + r) == 2.0 * (p * r)
  {
  }

  /** The scores computed from the counts: the number of counted voxels,
      of agreeing voxel pairs, and of ordered voxel pairs in one region of
      the ground truth (selected), of the reconstruction (relevant) and of
      both (tps). A pair of voxels is a true positive when both labelings
      put it in one region; precision is true positives over selected and
      recall over relevant. */
  function ErrorsFrom(locations: nat, agreeing: int, selected: int, relevant: int, tps: int): RandIndexErrors {
    var precision := Ratio(tps, selected);
    var recall := Ratio(tps, relevant);
    RandIndexErrors(locations as real / 2.0 * (locations as real - 1.0), agreeing as real,
                    precision, recall, AdaptedRandError(precision, recall))
  }

  /** The scores the engine reports for the counted voxels ps (the sums of
      squares run over ordered pairs, a voxel paired with itself included). */
  ghost function ErrorsOf(ps: seq<LabelPair>): RandIndexErrors {
    ErrorsFrom(|ps|, AgreeingPairs(ps), SumMap(Counts(Seconds(ps)), Square), SumMap(Counts(Firsts(ps)), Square),
               SumMap(Counts(ps), Square))
  }

  /** The Rand index compares partitions, not label values: renaming the
      labels of the reconstruction or of the ground truth one-to-one leaves
      it unchanged. */
  lemma RandIndexRelabeled(ps: seq<LabelPair>, f: Label -> Label, g: Label -> Label)
    requires Injective(f) && Injective(g)
    ensures ErrorsOf(Relabeled(ps, f, g)).GetRandIndex() == ErrorsOf(ps).GetRandIndex()
  {
    AgreeingPairsRelabeled(ps, f, g);
    ErrorsOfPairs(ps);
    ErrorsOfPairs(Relabeled(ps, f, g));
  }

  /** The pair counts of ErrorsOf come from the voxel count and the
      agreeing pairs alone. */
  lemma ErrorsOfPairs(ps: seq<LabelPair>)
    ensures ErrorsOf(ps).numPairs == |ps| as real / 2.0 * (|ps| as real - 1.0)
    ensures ErrorsOf(ps).numAgreeing == AgreeingPairs(ps) as real
  {
  }

  lemma HalfProduct(n: nat)
    ensures (n as real / 2.0) * (n as real - 1.0) == (n * (n - 1)) as real / 2.0
    ensures n >= 2 ==> n * (n - 1) >= 2
    ensures n < 2 ==> n * (n - 1) == 0
  {
    if n >= 2 {
      assert n * (n - 1) >= n * 1;
    }
  }

  lemma HalfBound(a: int, m: int)
    requires 0 <= 2 * a <= m
    ensures 0.0 <= a as real <= m as real / 2.0
  {
  }

  lemma FractionInUnit(a: real, b: real)
    requires 0.0 <= a <= b && 0.0 < b
    ensures 0.0 <= a / b <= 1.0
  {
  }

  /** Over n voxels of which k pairs agree, 2k <= n(n - 1), the Rand index
      is defined from two voxels on and lies in [0, 1]. */
  lemma IndexInUnit(n: nat, k: nat, selected: int, relevant: int, tps: int)
    requires 2 * k <= n * (n - 1)
    ensures var e := ErrorsFrom(n, k, selected, relevant, tps);
      (n >= 2 ==> e.GetRandIndex().Some? && 0.0 <= e.GetRandIndex().value <= 1.0) &&
      (n < 2 ==> e.GetRandIndex() == None)
  {
    HalfProduct(n);
    if n >= 2 {
      HalfBound(k, n * (n - 1));
      FractionInUnit(k as real, n as real / 2.0 * (n as real - 1.0));
    }
  }

  /** With two or more counted voxels the Rand index is defined and lies in
      [0, 1]; with fewer there is no pair and it is undefined. */
  lemma RandIndexInUnit(ps: seq<LabelPair>)
    ensures |ps| >= 2 ==>
      ErrorsOf(ps).GetRandIndex().Some? && 0.0 <= ErrorsOf(ps).GetRandIndex().value <= 1.0
    ensures |ps| < 2 ==> ErrorsOf(ps).GetRandIndex() == None
  {
    AgreeingPairsBound(ps);
    IndexInUnit(|ps|, AgreeingPairs(ps), SumMap(Counts(Seconds(ps)), Square), SumMap(Counts(Firsts(ps)), Square),
                SumMap(Counts(ps), Square));
  }

  /** 0 < 2pr / (p + r) <= 1 for p and r in (0, 1]. */
  lemma HarmonicMeanInUnit(p: real, r: real)
    requires 0.0 < p <= 1.0 && 0.0 < r <= 1.0
    ensures 0.0 < HarmonicMean(p, r) <= 1.0
  {
    var q := p * r;
    ProductBelow(p, r);
    ProductBelow(r, p);
    assert r * p == q;
    assert q <= p && q <= r;
    assert 2.0 * q <= p + r;
    PositiveFraction(2.0 * q, p + r);
  }

  lemma ProductBelow(p: real, r: real)
    requires 0.0 < p && 0.0 < r <= 1.0
    ensures 0.0 < p * r <= p
  {
  }

  lemma PositiveFraction(a: real, b: real)
    requires 0.0 < a <= b
    ensures 0.0 < a / b <= 1.0
  {
  }

  /** a / b lies in (0, 1] for 0 < a <= b. */
  lemma RatioInUnit(a: int, b: int)
    requires 0 < a <= b
    ensures Ratio(a, b).Some? && 0.0 < Ratio(a, b).value <= 1.0
  {
  }

  /** With 0 < tps <= selected and tps <= relevant, precision and recall
      lie in (0, 1] and the adapted Rand error in [0, 1). */
  lemma ScoresFromInUnit(n: nat, k: int, selected: int, relevant: int, tps: int)
    requires 0 < tps <= selected && tps <= relevant
    ensures var e := ErrorsFrom(n, k, selected, relevant, tps);
      e.precision.Some? && 0.0 < e.precision.value <= 1.0 &&
      e.recall.Some? && 0.0 < e.recall.value <= 1.0 &&
      e.adaptedRandError.Some? && 0.0 <= e.adaptedRandError.value < 1.0
  {
    RatioInUnit(tps, selected);
    RatioInUnit(tps, relevant);
    var p, r := Ratio(tps, selected).value, Ratio(tps, relevant).value;
    HarmonicMeanInUnit(p, r);
    assert AdaptedRandError(Some(p), Some(r)) == Some(1.0 - HarmonicMean(p, r));
  }

  /** Over at least one counted voxel, precision and recall lie in (0, 1]
      and the adapted Rand error in [0, 1). */
  lemma ScoresInUnit(ps: seq<LabelPair>)
    requires |ps| >= 1
    ensures ErrorsOf(ps).precision.Some? && 0.0 < ErrorsOf(ps).precision.value <= 1.0
    ensures ErrorsOf(ps).recall.Some? && 0.0 < ErrorsOf(ps).recall.value <= 1.0
    ensures ErrorsOf(ps).adaptedRandError.Some? && 0.0 <= ErrorsOf(ps).adaptedRandError.value < 1.0
  {
    SquareSums(ps);
    ScoresFromInUnit(|ps|, AgreeingPairs(ps), SumMap(Counts(Seconds(ps)), Square),
                     SumMap(Counts(Firsts(ps)), Square), SumMap(Counts(ps), Square));
  }

  /** When every voxel has the same label in both stacks, each counter of the
      table's diagonal equals the marginal counter of its label. */
  lemma {:induction false} IdenticalCounts(ps: seq<LabelPair>, l: Label)
    requires Diagonal(ps)
    ensures Get(Counts(ps), (l, l)) == Get(Counts(Firsts(ps)), l)
  {
    if ps != [] {
      DiagonalInit(ps);
      IdenticalCounts(ps[..|ps| - 1], l);
      CountsLast(ps);
    }
  }

  lemma IdenticalSides(ps: seq<LabelPair>)
    requires Diagonal(ps)
    ensures Firsts(ps) == Seconds(ps)
  {
  }

  /** One step of IdenticalSquares: the last voxel adds the same amount to
      the square sum of the table and to that of the marginal. */
  lemma IdenticalSquaresStep(ps: seq<LabelPair>)
    requires ps != [] && Diagonal(ps)
    requires SumMap(Counts(ps[..|ps| - 1]), Square) == SumMap(Counts(Firsts(ps[..|ps| - 1])), Square)
    ensures SumMap(Counts(ps), Square) == SumMap(Counts(Firsts(ps)), Square)
  {
    DiagonalInit(ps);
    var init, l := ps[..|ps| - 1], ps[|ps| - 1].0;
    var m, f := Counts(init), Counts(Firsts(init));
    CountsLast(ps);
    IdenticalCounts(init, l);
    SquaresInc(m, (l, l));
    SquaresInc(f, l);
  }

  /** ... so the three square sums coincide. */
  lemma {:induction false} IdenticalSquares(ps: seq<LabelPair>)
    requires Diagonal(ps)
    ensures SumMap(Counts(ps), Square) == SumMap(Counts(Firsts(ps)), Square) == SumMap(Counts(Seconds(ps)), Square)
  {
    IdenticalSides(ps);
    if ps != [] {
      DiagonalInit(ps);
      IdenticalSquares(ps[..|ps| - 1]);
      IdenticalSquaresStep(ps);
    }
  }

  /** Scores from counts whose three same-region counts coincide:
      precision and recall 1 and adapted Rand error 0. */
  lemma PerfectScores(n: nat, k: int, t: int)
    requires t > 0
    ensures var e := ErrorsFrom(n, k, t, t, t);
      e.precision == Some(1.0) && e.recall == Some(1.0) && e.adaptedRandError == Some(0.0)
  {
    var e := ErrorsFrom(n, k, t, t, t);
    assert e.precision == Ratio(t, t) && e.recall == Ratio(t, t);
    SelfQuotient(t as real);
    assert Ratio(t, t) == Some(1.0);
    assert HarmonicMean(1.0, 1.0) == 1.0;
    assert e.adaptedRandError == AdaptedRandError(Some(1.0), Some(1.0));
  }

  /** Scores from counts in which all pairs agree: from two voxels on, a
      Rand index of 1. */
  lemma PerfectIndex(n: nat, k: int, selected: int, relevant: int, tps: int)
    requires 2 * k == n * (n - 1) && n >= 2
    ensures ErrorsFrom(n, k, selected, relevant, tps).GetRandIndex() == Some(1.0)
  {
    AllPairs(n, k);
    SelfQuotient(k as real);
  }

  lemma SelfQuotient(x: real)
    requires x != 0.0
    ensures x / x == 1.0
  {
  }

  lemma AllPairs(n: nat, k: int)
    requires 2 * k == n * (n - 1)
    ensures n as real / 2.0 * (n as real - 1.0) == k as real
    ensures n >= 2 ==> k >= 1
  {
    HalfProduct(n);
    assert (n * (n - 1)) as real == 2.0 * k as real;
  }

  /** Comparing a labeling with itself gives precision and recall 1, an
      adapted Rand error of 0 and, over two or more voxels, a Rand index
      of 1. */
  lemma IdenticalScores(ps: seq<LabelPair>)
    requires |ps| >= 1 && Diagonal(ps)
    ensures ErrorsOf(ps).precision == Some(1.0) && ErrorsOf(ps).recall == Some(1.0)
    ensures ErrorsOf(ps).adaptedRandError == Some(0.0)
    ensures |ps| >= 2 ==> ErrorsOf(ps).GetRandIndex() == Some(1.0)
  {
    IdenticalSquares(ps);
    SquareSums(ps);
    IdenticalLabelingsAgree(ps);
    var t := SumMap(Counts(ps), Square);
    PerfectScores(|ps|, AgreeingPairs(ps), t);
    if |ps| >= 2 {
      PerfectIndex(|ps|, AgreeingPairs(ps), t, t, t);
    }
  }

  /** After walking the voxels seen: the tally holds the counted ones and
      the location count, started at start, has dropped by one per skipped
      voxel. */
  ghost predicate Walked(c: map<LabelPair, nat>, a: map<Label, nat>, b: map<Label, nat>, locations: int,
                         ignoreBackground: bool, seen: seq<LabelPair>, start: int) {
    Tally(c, a, b, Kept(ignoreBackground, seen)) &&
    locations == start - (|seen| - |Kept(ignoreBackground, seen)|)
  }

  /** The loop body of the counting, for the voxel labelled r in the
      reconstruction and g in the ground truth. */
  method CountVoxel(r: Label, g: Label, ignoreBackground: bool,
                    c0: map<LabelPair, nat>, a0: map<Label, nat>, b0: map<Label, nat>, locations0: int,
                    ghost before: seq<LabelPair>, ghost start: int)
    returns (c: map<LabelPair, nat>, a: map<Label, nat>, b: map<Label, nat>, locations: int)
    requires Walked(c0, a0, b0, locations0, ignoreBackground, before, start)
    ensures Walked(c, a, b, locations, ignoreBackground, before + [(r, g)], start)
  {
    TallyStep(ignoreBackground, before, (r, g), c0, a0, b0);
    if ignoreBackground && g == 0 {
      c, a, b, locations := c0, a0, b0, locations0 - 1;
    } else {
      c, a, b, locations := Inc(c0, (r, g)), Inc(a0, r), Inc(b0, g), locations0;
    }
  }

  /** The counting over one pair of sections, pixel by pixel: a skipped
      voxel only lowers the location count, any other one increments its
      cell of the table and its two marginal counters. */
  method CountSection(rec: Image, gt: Image, ignoreBackground: bool,
                      c0: map<LabelPair, nat>, a0: map<Label, nat>, b0: map<Label, nat>, locations0: int,
                      ghost done: seq<LabelPair>, ghost start: int)
    returns (c: map<LabelPair, nat>, a: map<Label, nat>, b: map<Label, nat>, locations: int)
    requires |rec.pixels| <= |gt.pixels|
    requires Walked(c0, a0, b0, locations0, ignoreBackground, done, start)
    ensures Walked(c, a, b, locations, ignoreBackground, done + SectionPairs(rec, gt), start)
  {
    c, a, b, locations := c0, a0, b0, locations0;
    assert done + SectionPairs(rec, gt)[..0] == done;
    for i := 0 to |rec.pixels|
      invariant Walked(c, a, b, locations, ignoreBackground, done + SectionPairs(rec, gt)[..i], start)
    {
      SectionPrefix(done, rec, gt, i);
      c, a, b, locations := CountVoxel(rec.pixels[i], gt.pixels[i], ignoreBackground, c, a, b, locations,
                                       done + SectionPairs(rec, gt)[..i], start);
    }
    assert SectionPairs(rec, gt)[..|rec.pixels|] == SectionPairs(rec, gt);
  }

  /** After the first z sections of two stacks walked in step. */
  ghost predicate StacksWalked(c: map<LabelPair, nat>, a: map<Label, nat>, b: map<Label, nat>, locations: int,
                               ignoreBackground: bool, rec: seq<Image>, gt: seq<Image>, z: nat, start: int) {
    z <= |rec| && Lockstep(rec, gt, |rec|) &&
    Walked(c, a, b, locations, ignoreBackground, StackPairs(rec, gt, z), start)
  }

  /** Nothing is walked yet before the first section. */
  lemma StacksWalkedStart(ignoreBackground: bool, rec: seq<Image>, gt: seq<Image>, start: int)
    requires Lockstep(rec, gt, |rec|)
    ensures StacksWalked(map[], map[], map[], start, ignoreBackground, rec, gt, 0, start)
  {
    assert StackPairs(rec, gt, 0) == [];
    assert Kept(ignoreBackground, []) == [];
    assert Firsts([]) == [] && Seconds([]) == [];
  }

  /** The loop body of the counting over the stacks: counts section z. */
  method CountNextSection(rec: seq<Image>, gt: seq<Image>, ignoreBackground: bool, z: nat,
                          c0: map<LabelPair, nat>, a0: map<Label, nat>, b0: map<Label, nat>, locations0: int,
                          ghost start: int)
    returns (c: map<LabelPair, nat>, a: map<Label, nat>, b: map<Label, nat>, locations: int)
    requires z < |rec| && StacksWalked(c0, a0, b0, locations0, ignoreBackground, rec, gt, z, start)
    ensures StacksWalked(c, a, b, locations, ignoreBackground, rec, gt, z + 1, start)
  {
    assert Lockstep(rec, gt, z + 1);
    ghost var done := StackPairs(rec, gt, z);
    c, a, b, locations := CountSection(rec[z], gt[z], ignoreBackground, c0, a0, b0, locations0, done, start);
    assert StackPairs(rec, gt, z + 1) == done + SectionPairs(rec[z], gt[z]);
  }

  /** The counting over all sections of two stacks walked in step. */
  method CountStacks(rec: seq<Image>, gt: seq<Image>, ignoreBackground: bool, numLocations: int)
    returns (c: map<LabelPair, nat>, a: map<Label, nat>, b: map<Label, nat>, locations: int)
    requires Lockstep(rec, gt, |rec|)
    ensures Walked(c, a, b, locations, ignoreBackground, StackPairs(rec, gt, |rec|), numLocations)
  {
    c, a, b, locations := map[], map[], map[], numLocations;
    StacksWalkedStart(ignoreBackground, rec, gt, numLocations);
    var z := 0;
    while z < |rec|
      invariant StacksWalked(c, a, b, locations, ignoreBackground, rec, gt, z, numLocations)
    {
      c, a, b, locations := CountNextSection(rec, gt, ignoreBackground, z, c, a, b, locations, numLocations);
      z := z + 1;
    }
  }

  /** The loop over the contingency table: it adds n(n - 1) to A and n^2 to
      B and to the joint same-region count, for every cell n. */
  method SumTable(c: map<LabelPair, nat>, a0: int, b0: int, same0: int) returns (a: int, b: int, same: int)
    ensures a == a0 + SumMap(c, OrderedPairs)
    ensures b == b0 + SumMap(c, Square) && same == same0 + SumMap(c, Square)
  {
    a, b, same := a0, b0, same0;
    var rest := c.Keys;
    while rest != {}
      invariant rest <= c.Keys
      invariant a == a0 + SumSet(c.Keys - rest, Term(c, OrderedPairs))
      invariant same == same0 + SumSet(c.Keys - rest, Term(c, Square)) && b == b0 + (same - same0)
      decreases rest
    {
      var k :| k in rest;
      var n := c[k];
      SumSetAdd(c.Keys - rest, Term(c, OrderedPairs), k);
      SumSetAdd(c.Keys - rest, Term(c, Square), k);
      assert (c.Keys - rest) + {k} == c.Keys - (rest - {k});
      TermAt(c, OrderedPairs, k);
      TermAt(c, Square, k);
      a := a + OrderedPairs(n);
      b := b + Square(n);
      same := same + Square(n);
      rest := rest - {k};
    }
    assert c.Keys - rest == c.Keys;
  }

  /** A loop over a marginal: it takes n^2 off B and adds it to that
      labeling's same-region count, for every counter n. */
  method SumMarginal(m: map<Label, nat>, b0: int, same0: int) returns (b: int, same: int)
    ensures b == b0 - SumMap(m, Square) && same == same0 + SumMap(m, Square)
  {
    b, same := b0, same0;
    var rest := m.Keys;
    while rest != {}
      invariant rest <= m.Keys
      invariant same == same0 + SumSet(m.Keys - rest, Term(m, Square)) && b == b0 - (same - same0)
      decreases rest
    {
      var k :| k in rest;
      var n := m[k];
      SumSetAdd(m.Keys - rest, Term(m, Square), k);
      assert (m.Keys - rest) + {k} == m.Keys - (rest - {k});
      TermAt(m, Square, k);
      b := b - Square(n);
      same := same + Square(n);
      rest := rest - {k};
    }
    assert m.Keys - rest == m.Keys;
  }

  /** The scores computed from the counts of ps are those of ps. */
  lemma CountedErrors(ps: seq<LabelPair>, locations: int, agreeing: int, selected: int, relevant: int, tps: int)
    requires locations == |ps| && agreeing == AgreeingPairs(ps)
    requires selected == SumMap(Counts(Seconds(ps)), Square) && relevant == SumMap(Counts(Firsts(ps)), Square)
    requires tps == 0 + SumMap(Counts(ps), Square)
    ensures locations >= 0 && ErrorsFrom(locations, agreeing, selected, relevant, tps) == ErrorsOf(ps)
  {
  }

  /** Two valid stacks of the same depth whose ground-truth sections have
      at least the pixels of the reconstruction sections walk in lockstep,
      over depth * width * height voxels. */
  lemma SameShape(rec: ImageStack, gt: ImageStack)
    requires rec.Valid() && gt.Valid() && rec.Size() == gt.Size()
    requires rec.width * rec.height <= gt.width * gt.height
    ensures Lockstep(rec.sections, gt.sections, |rec.sections|)
    ensures |StackPairs(rec.sections, gt.sections, |rec.sections|)| == rec.Size() * rec.width * rec.height
  {
    forall z | 0 <= z < |rec.sections| ensures |rec.sections[z].pixels| <= |gt.sections[z].pixels| {
      assert |rec.sections[z].pixels| == rec.width * rec.height;
      assert |gt.sections[z].pixels| == gt.width * gt.height;
    }
    StackPairsLength(rec.sections, gt.sections, |rec.sections|, rec.width * rec.height);
    assert rec.Size() * rec.width * rec.height == rec.Size() * (rec.width * rec.height);
  }

  class RandIndex {
    /** Do not count voxels whose ground-truth label is 0. */
    const ignoreBackground: bool

    constructor (ignoreBackground: bool)
      ensures this.ignoreBackground == ignoreBackground
    {
      this.ignoreBackground := ignoreBackground;
    }

    /** Counts the voxels of stack1 (the reconstruction) and stack2 (the
        ground truth) and returns the number of agreeing voxel pairs, the
        number of counted voxels, the same-region counts of stack1, of
        stack2 and, added to the value passed in, of both. */
    method GetNumAgreeingPairs(stack1: ImageStack, stack2: ImageStack, numLocations: nat,
                               numSameComponentPairs12: int)
      returns (agreeing: int, locations: int, same1: int, same2: int, same12: int)
      requires Lockstep(stack1.sections, stack2.sections, |stack1.sections|)
      requires numLocations == |StackPairs(stack1.sections, stack2.sections, |stack1.sections|)|
      ensures var ps := Counted(ignoreBackground, stack1.sections, stack2.sections);
        locations == |ps| && agreeing == AgreeingPairs(ps) &&
        same1 == SumMap(Counts(Firsts(ps)), Square) && same2 == SumMap(Counts(Seconds(ps)), Square) &&
        same12 == numSameComponentPairs12 + SumMap(Counts(ps), Square)
    {
      ghost var ps := Counted(ignoreBackground, stack1.sections, stack2.sections);
      var c, a, b, locs := CountStacks(stack1.sections, stack2.sections, ignoreBackground, numLocations);
      var sumA, sumB, s12 := SumTable(c, 0, locs * locs, numSameComponentPairs12);
      var sumB1, s1 := SumMarginal(a, sumB, 0);
      var sumB2, s2 := SumMarginal(b, sumB1, 0);
      AgreeingPairsFormula(ps);
      agreeing, locations, same1, same2, same12 := (sumA + sumB2) / 2, locs, s1, s2, s12;
    }

    /** The Rand index scores of a reconstruction against a ground truth:
        stacks of different depths are refused, empty stacks score a Rand
        index of 1, and otherwise the scores are those of the counted
        voxels. */
    method Compute(groundTruth: ImageStack, reconstruction: ImageStack) returns (result: Result<RandIndexErrors>)
      requires groundTruth.Valid() && reconstruction.Valid()
      requires reconstruction.Size() == groundTruth.Size() && reconstruction.Size() > 0 ==>
        reconstruction.width * reconstruction.height <= groundTruth.width * groundTruth.height
      ensures reconstruction.Size() != groundTruth.Size() ==> result == Err(SizeMismatchError)
      ensures reconstruction.Size() == groundTruth.Size() ==>
        result.Ok? &&
        result.value == if reconstruction.Size() * reconstruction.width * reconstruction.height == 0 then EmptyErrors
                        else ErrorsOf(Counted(ignoreBackground, reconstruction.sections, groundTruth.sections))
    {
      if reconstruction.Size() != groundTruth.Size() {
        return Err(SizeMismatchError);
      }
      var depth := reconstruction.Size();
      if depth == 0 {
        return Ok(EmptyErrors);
      }
      var width, height := reconstruction.sections[0].width, reconstruction.sections[0].height;
      assert width == reconstruction.width && height == reconstruction.height;
      var numLocations := depth * width * height;
      if numLocations == 0 {
        return Ok(EmptyErrors);
      }
      assert numLocations == reconstruction.Size() * reconstruction.width * reconstruction.height;
      SameShape(reconstruction, groundTruth);
      var errors := Scores(reconstruction, groundTruth, numLocations);
      result := Ok(errors);
    }

    /** The scores of two stacks walked in step, from the agreeing and
        same-region pair counts. */
    method Scores(reconstruction: ImageStack, groundTruth: ImageStack, numLocations: nat)
      returns (errors: RandIndexErrors)
      requires Lockstep(reconstruction.sections, groundTruth.sections, |reconstruction.sections|)
      requires numLocations == |StackPairs(reconstruction.sections, groundTruth.sections, |reconstruction.sections|)|
      ensures errors == ErrorsOf(Counted(ignoreBackground, reconstruction.sections, groundTruth.sections))
    {
      ghost var ps := Counted(ignoreBackground, reconstruction.sections, groundTruth.sections);
      var agree, locations, numGtSamePairs, numRecSamePairs, numBothSamePairs :=
        GetNumAgreeingPairs(reconstruction, groundTruth, numLocations, 0);
      CountedErrors(ps, locations, agree, numRecSamePairs, numGtSamePairs, numBothSamePairs);
      errors := ErrorsFrom(locations, agree, numRecSamePairs, numGtSamePairs, numBothSamePairs);
    }
  }
}
