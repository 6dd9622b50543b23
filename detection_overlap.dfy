/** The errors of the detection-overlap measure: the reconstruction labels
    that match nothing (false positives), the ground-truth labels nothing
    matches (false negatives), and the matched pairs with their overlap
    scores. Labels are single-precision floats in the engine; here they
    are exact reals. A division the engine evaluates to NaN is None. */
module DetectionOverlap {
  import opened Base

  /** A ground-truth label with the reconstruction label it is matched to. */
  type Pair = (real, real)

  /** A share n/d of a positive whole d is in [0, 1], is 0 exactly when n
      is, and is 1 exactly when it is the whole. */
  lemma ShareBounds(n: real, d: real)
    requires 0.0 <= n <= d && 0.0 < d
    ensures 0.0 <= n / d <= 1.0 && (n / d) * d == n
    ensures (n / d == 1.0 <==> n == d) && (n / d == 0.0 <==> n == 0.0)
  {
    var v := n / d;
    assert v * d == n;
  }

  /** tp / (tp + other) as an exact ratio; None where the engine divides
      zero by zero. */
  function Ratio(tp: nat, other: nat): (r: Option<real>)
    ensures r.None? <==> tp + other == 0
    ensures r.Some? ==> 0.0 <= r.value <= 1.0 && r.value * (tp + other) as real == tp as real
    ensures r.Some? ==> (r.value == 1.0 <==> other == 0)
    ensures r.Some? ==> (r.value == 0.0 <==> tp == 0)
  {
    if tp + other == 0 then None
    else
      ShareBounds(tp as real, (tp + other) as real);
      Some(tp as real / (tp + other) as real)
  }

  /** 2pr/(p+r), the harmonic mean of two positive reals. */
  function Harmonic(p: real, r: real): real
    requires p + r != 0.0
  {
    2.0 * p * r / (p + r)
  }

  /** The harmonic mean of a precision and a recall, as the engine computes
      it: NaN in, or a zero sum, gives NaN. */
  function HarmonicMean(p: Option<real>, r: Option<real>): Option<real> {
    if p.Some? && r.Some? && p.value + r.value != 0.0 then Some(Harmonic(p.value, r.value)) else None
  }

  /** One score looked up by pair; std::map::at fails on a missing key. */
  function Lookup(scores: map<Pair, real>, p: Pair): (r: Result<real>)
    ensures r.Ok? <==> p in scores
    ensures r.Ok? ==> r.value == scores[p]
    ensures r.Err? ==> r.error == OutOfRange
  {
    if p in scores then Ok(scores[p]) else Err(OutOfRange)
  }

  /** The harmonic mean of t/x and t/y is 2t/(x+y). */
  lemma HarmonicMeanOfFractions(t: real, x: real, y: real)
    requires t > 0.0 && x > 0.0 && y > 0.0
    ensures t / x + t / y != 0.0 && Harmonic(t / x, t / y) == 2.0 * t / (x + y)
  {
    var p, r := t / x, t / y;
    assert p * x == t && r * y == t;
    assert (p + r) * (x * y) == t * (x + y) by {
      assert (p + r) * (x * y) == (p * x) * y + (r * y) * x;
    }
    assert (2.0 * p * r) * (x * y) == 2.0 * t * t by {
      assert (2.0 * p * r) * (x * y) == 2.0 * (p * x) * (r * y);
    }
    var f := Harmonic(p, r);
    assert f * (p + r) == 2.0 * p * r;
    assert f * (t * (x + y)) == 2.0 * t * t by {
      assert f * (t * (x + y)) == (f * (p + r)) * (x * y);
    }
    assert f * (x + y) == 2.0 * t;
  }

  /** The closed form of the harmonic mean of tp/(tp+fp) and tp/(tp+fn):
      2 tp / (2 tp + fp + fn). */
  lemma HarmonicMeanOfRatios(tp: nat, fp: nat, fn: nat)
    requires tp > 0
    ensures HarmonicMean(Ratio(tp, fp), Ratio(tp, fn)) ==
            Some(2.0 * tp as real / (2 * tp + fp + fn) as real)
  {
    var t, x, y := tp as real, (tp + fp) as real, (tp + fn) as real;
    assert Ratio(tp, fp) == Some(t / x) && Ratio(tp, fn) == Some(t / y);
    HarmonicMeanOfFractions(t, x, y);
    assert x + y == (2 * tp + fp + fn) as real;
  }

  /** The harmonic mean of precision and recall counted from tp, fp and
      fn: defined exactly when tp > 0, and then 2 tp / (2 tp + fp + fn), in
      (0, 1], and 1 exactly when fp and fn are 0. */
  lemma HarmonicMeanOfCounts(tp: nat, fp: nat, fn: nat)
    ensures HarmonicMean(Ratio(tp, fp), Ratio(tp, fn)).Some? <==> tp > 0
    ensures tp > 0 ==> HarmonicMean(Ratio(tp, fp), Ratio(tp, fn)).value == 2.0 * tp as real / (2 * tp + fp + fn) as real
    ensures tp > 0 ==> 0.0 < HarmonicMean(Ratio(tp, fp), Ratio(tp, fn)).value <= 1.0
    ensures tp > 0 ==> (HarmonicMean(Ratio(tp, fp), Ratio(tp, fn)).value == 1.0 <==> fp == 0 && fn == 0)
  {
    if tp > 0 {
      HarmonicMeanOfRatios(tp, fp, fn);
      ShareBounds(2.0 * tp as real, (2 * tp + fp + fn) as real);
      assert 2.0 * tp as real / (2 * tp + fp + fn) as real != 0.0;
    }
  }

  class DetectionOverlapErrors {
    var fps: set<real>
    var fns: set<real>
    var matches: set<Pair>
    var m1: map<Pair, real>
    var m2: map<Pair, real>
    var dice: map<Pair, real>

    /** Every matched pair has its three scores, and only matched pairs
        have scores. */
    ghost predicate Valid()
      reads this
    {
      m1.Keys == matches && m2.Keys == matches && dice.Keys == matches
    }

    constructor ()
      ensures Valid()
      ensures fps == {} && fns == {} && matches == {}
    {
      fps, fns, matches := {}, {}, {};
      m1, m2, dice := map[], map[], map[];
    }

    /** addFalsePositive: the label joins the false positives; adding it
        again changes nothing. */
    method AddFalsePositive(recLabel: real)
      modifies this`fps
      ensures fps == old(fps) + {recLabel}
      ensures recLabel in old(fps) ==> fps == old(fps)
      ensures recLabel !in old(fps) ==> |fps| == |old(fps)| + 1
    {
      fps := fps + {recLabel};
    }

    /** addFalseNegative: the label joins the false negatives; adding it
        again changes nothing. */
    method AddFalseNegative(gtLabel: real)
      modifies this`fns
      ensures fns == old(fns) + {gtLabel}
      ensures gtLabel in old(fns) ==> fns == old(fns)
      ensures gtLabel !in old(fns) ==> |fns| == |old(fns)| + 1
    {
      fns := fns + {gtLabel};
    }

    /** addMatch: the pair joins the matches and its three scores are
        recorded, replacing any recorded before; every other pair keeps its
        scores. */
    method AddMatch(p: Pair, m1Score: real, m2Score: real, diceScore: real)
      requires Valid()
      modifies this`matches, this`m1, this`m2, this`dice
      ensures Valid()
      ensures matches == old(matches) + {p}
      ensures GetM1(p) == Ok(m1Score) && GetM2(p) == Ok(m2Score) && GetDice(p) == Ok(diceScore)
      ensures m1 == old(m1)[p := m1Score] && m2 == old(m2)[p := m2Score] && dice == old(dice)[p := diceScore]
    {
      matches := matches + {p};
      m1 := m1[p := m1Score];
      m2 := m2[p := m2Score];
      dice := dice[p := diceScore];
    }

    /** getM1: the first overlap score of a matched pair; fails exactly on
        a pair never matched. */
    function GetM1(p: Pair): (r: Result<real>)
      reads this
      ensures Valid() ==> (r.Ok? <==> p in matches)
      ensures r.Err? ==> r.error == OutOfRange
    {
      Lookup(m1, p)
    }

    /** getM2: the second overlap score of a matched pair; fails exactly on
        a pair never matched. */
    function GetM2(p: Pair): (r: Result<real>)
      reads this
      ensures Valid() ==> (r.Ok? <==> p in matches)
      ensures r.Err? ==> r.error == OutOfRange
    {
      Lookup(m2, p)
    }

    /** getDice: the Dice score of a matched pair; fails exactly on a pair
        never matched. */
    function GetDice(p: Pair): (r: Result<real>)
      reads this
      ensures Valid() ==> (r.Ok? <==> p in matches)
      ensures r.Err? ==> r.error == OutOfRange
    {
      Lookup(dice, p)
    }

    /** getRecall: the share of matches among matches and false negatives;
        it is 1 exactly when there is no false negative, 0 exactly when
        there is no match, and undefined when both are empty. */
    function Recall(): (r: Option<real>)
      reads this
      ensures r.None? <==> matches == {} && fns == {}
      ensures r.Some? ==> 0.0 <= r.value <= 1.0 && r.value * (|matches| + |fns|) as real == |matches| as real
      ensures r.Some? ==> (r.value == 1.0 <==> fns == {})
    {
      Ratio(|matches|, |fns|)
    }

    /** getPrecision: the share of matches among matches and false
        positives; it is 1 exactly when there is no false positive, and
        undefined when both are empty. */
    function Precision(): (r: Option<real>)
      reads this
      ensures r.None? <==> matches == {} && fps == {}
      ensures r.Some? ==> 0.0 <= r.value <= 1.0 && r.value * (|matches| + |fps|) as real == |matches| as real
      ensures r.Some? ==> (r.value == 1.0 <==> fps == {})
    {
      Ratio(|matches|, |fps|)
    }

    /** getFScore: the harmonic mean of precision and recall. */
    function FScore(): (r: Option<real>)
      reads this
    {
      HarmonicMean(Precision(), Recall())
    }

    /** The F-score is defined exactly when something is matched, and then
        equals 2 tp / (2 tp + fp + fn); it is at most 1, and 1 exactly when
        there are no false positives and no false negatives. */
    lemma FScoreClosedForm()
      ensures FScore().Some? <==> matches != {}
      ensures FScore().Some? ==>
        FScore().value == 2.0 * |matches| as real / (2 * |matches| + |fps| + |fns|) as real
      ensures FScore().Some? ==> 0.0 < FScore().value <= 1.0
      ensures FScore().Some? ==> (FScore().value == 1.0 <==> fps == {} && fns == {})
    {
      HarmonicMeanOfCounts(|matches|, |fps|, |fns|);
    }

    /** clear: the false positives and negatives are emptied; the matches
        and their scores stay, so a cleared set of errors with matches
        reports precision and recall 1. */
    method Clear()
      modifies this`fps, this`fns
      ensures fps == {} && fns == {}
      ensures matches != {} ==> Precision() == Some(1.0) && Recall() == Some(1.0)
    {
      fps := {};
      fns := {};
    }
  }
}
