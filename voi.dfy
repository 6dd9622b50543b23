/** The variation of information between a reconstruction and a ground
    truth. The voxel labels are counted into the label frequencies of either
    labeling and of both; the split and merge entropies are the two
    conditional entropies, and their sum is the variation of information. */
module Voi {
  import opened Base
  import opened Sums
  import opened Text
  import opened Contingency

  /** A counter map as the engine's map of doubles holds it. */
  function AsReal<K>(m: map<K, nat>): map<K, real> {
    map k | k in m :: m[k] as real
  }

  /** `p[k]++` on a map of doubles: a missing entry starts at 0. */
  function IncReal<K>(m: map<K, real>, k: K): map<K, real> {
    m[k := (if k in m then m[k] else 0.0) + 1.0]
  }

  lemma AsRealInc<K(!new)>(m: map<K, nat>, k: K)
    ensures AsReal(Inc(m, k)) == IncReal(AsReal(m), k)
  {
    assert AsReal(Inc(m, k)).Keys == IncReal(AsReal(m), k).Keys;
  }

  /** The three maps hold, as doubles, the counts of the voxels ps: per
      reconstruction label, per ground-truth label and per pair of both. */
  ghost predicate Holds(p1: map<Label, real>, p2: map<Label, real>, p12: map<LabelPair, real>, ps: seq<LabelPair>) {
    p1 == AsReal(Counts(Firsts(ps))) && p2 == AsReal(Counts(Seconds(ps))) && p12 == AsReal(Counts(ps))
  }

  /** Holds, with n the number of counted voxels plus those still ahead. */
  ghost predicate Tallied(p1: map<Label, real>, p2: map<Label, real>, p12: map<LabelPair, real>, n: int,
                          ps: seq<LabelPair>, ahead: nat) {
    Holds(p1, p2, p12, ps) && n == |ps| + ahead
  }

  /** Maps holding the counts of no voxel are empty. */
  lemma HoldsNothing(p1: map<Label, real>, p2: map<Label, real>, p12: map<LabelPair, real>, ps: seq<LabelPair>)
    requires Holds(p1, p2, p12, ps) && |ps| == 0
    ensures p1 == map[] && p2 == map[] && p12 == map[]
  {
    assert ps == [] && Firsts(ps) == [] && Seconds(ps) == [];
  }

  /** Every entry divided by n. */
  function Scaled<K>(m: map<K, real>, n: nat): map<K, real>
    requires m != map[] ==> n > 0
  {
    map k | k in m :: m[k] / n as real
  }

  /** The relative frequency of each element of ks. */
  ghost function Frequencies<K(!new)>(ks: seq<K>): map<K, real> {
    assert ks == [] ==> AsReal(Counts(ks)) == map[];
    Scaled(AsReal(Counts(ks)), |ks|)
  }

  /** An element occurs at most |ks| times in ks. */
  lemma {:induction false} MultiplicityAtMost<K>(ks: seq<K>, k: K)
    ensures multiset(ks)[k] <= |ks|
  {
    if ks != [] {
      var init := ks[..|ks| - 1];
      MultiplicityAtMost(init, k);
      assert ks == init + [ks[|ks| - 1]];
    }
  }

  /** q == m / n, for 0 < m <= n, is a share in (0, 1]. */
  lemma Share(q: real, m: int, n: int)
    requires 0 < m <= n && q == m as real / n as real
    ensures 0.0 < q <= 1.0
  {
  }

  /** The frequencies have an entry for exactly the elements that occur;
      each entry is the element's multiplicity divided by |ks|, so it lies
      in (0, 1]. */
  lemma FrequencyIsShare<K(!new)>(ks: seq<K>, k: K)
    ensures k in Frequencies(ks) <==> k in ks
    ensures k in Frequencies(ks) ==>
      Frequencies(ks)[k] == multiset(ks)[k] as real / |ks| as real && 0.0 < Frequencies(ks)[k] <= 1.0
  {
    CountsAreMultiplicities(ks);
    assert k in Frequencies(ks) <==> k in Counts(ks);
    if k in Counts(ks) {
      FrequencyValue(ks, k);
      assert 0 < multiset(ks)[k] <= |ks| by {
        assert Get(Counts(ks), k) == Counts(ks)[k];
        MultiplicityAtMost(ks, k);
      }
      Share(Frequencies(ks)[k], multiset(ks)[k], |ks|);
    }
  }

  /** The frequency of an element that occurs is its multiplicity over |ks|. */
  lemma FrequencyValue<K(!new)>(ks: seq<K>, k: K)
    requires k in Counts(ks)
    ensures Frequencies(ks)[k] == multiset(ks)[k] as real / |ks| as real
  {
    CountsAreMultiplicities(ks);
    assert Get(Counts(ks), k) == Counts(ks)[k];
  }

  /** The number of leading sections whose sizes agree in both stacks. */
  function MatchingDepth(rec: seq<Image>, gt: seq<Image>): (d: nat)
    requires |rec| <= |gt|
    ensures d <= |rec|
    ensures forall z | 0 <= z < d :: |rec[z].pixels| == |gt[z].pixels|
    ensures d < |rec| ==> |rec[d].pixels| != |gt[d].pixels|
  {
    if rec == [] || |rec[0].pixels| != |gt[0].pixels| then 0
    else
      var d := MatchingDepth(rec[1..], gt[1..]);
      assert forall z | 1 <= z < d + 1 :: rec[z] == rec[1..][z - 1] && gt[z] == gt[1..][z - 1];
      d + 1
  }

  /** Matching sections walk in step. */
  lemma MatchingLockstep(rec: seq<Image>, gt: seq<Image>, z: nat)
    requires |rec| <= |gt| && z <= MatchingDepth(rec, gt)
    ensures Lockstep(rec, gt, z)
  {
  }

  /** The loop body of the counting, for the voxel labelled r in the
      reconstruction and g in the ground truth; remaining is the number of
      voxels of the section after this one. */
  method CountVoxel(r: Label, g: Label, ignoreBackground: bool,
                    p10: map<Label, real>, p20: map<Label, real>, p120: map<LabelPair, real>, n0: int,
                    ghost before: seq<LabelPair>, ghost remaining: nat)
    returns (p1: map<Label, real>, p2: map<Label, real>, p12: map<LabelPair, real>, n: int)
    requires Tallied(p10, p20, p120, n0, Kept(ignoreBackground, before), remaining + 1)
    ensures Tallied(p1, p2, p12, n, Kept(ignoreBackground, before + [(r, g)]), remaining)
  {
    ghost var kept := Kept(ignoreBackground, before);
    TallyStep(ignoreBackground, before, (r, g), Counts(kept), Counts(Firsts(kept)), Counts(Seconds(kept)));
    if ignoreBackground && g == 0 {
      p1, p2, p12, n := p10, p20, p120, n0 - 1;
    } else {
      AsRealInc(Counts(Firsts(kept)), r);
      AsRealInc(Counts(Seconds(kept)), g);
      AsRealInc(Counts(kept), (r, g));
      p1, p2, p12, n := IncReal(p10, r), IncReal(p20, g), IncReal(p120, (r, g)), n0;
    }
  }

  /** The counting over one pair of sections of equal size: n is first
      raised by the section's size and then lowered by one per skipped
      voxel, and every other voxel increments its label counters. */
  method CountSection(rec: Image, gt: Image, ignoreBackground: bool,
                      p10: map<Label, real>, p20: map<Label, real>, p120: map<LabelPair, real>, n0: int,
                      ghost done: seq<LabelPair>)
    returns (p1: map<Label, real>, p2: map<Label, real>, p12: map<LabelPair, real>, n: int)
    requires |rec.pixels| == |gt.pixels|
    requires Tallied(p10, p20, p120, n0, Kept(ignoreBackground, done), 0)
    ensures Tallied(p1, p2, p12, n, Kept(ignoreBackground, done + SectionPairs(rec, gt)), 0)
  {
    p1, p2, p12, n := p10, p20, p120, n0 + |rec.pixels|;
    ghost var seen := done;
    assert done + SectionPairs(rec, gt)[..0] == done;
    var i := 0;
    while i < |rec.pixels|
      invariant i <= |rec.pixels| && seen == done + SectionPairs(rec, gt)[..i]
      invariant Tallied(p1, p2, p12, n, Kept(ignoreBackground, seen), |rec.pixels| - i)
    {
      SectionPrefix(done, rec, gt, i);
      p1, p2, p12, n := CountVoxel(rec.pixels[i], gt.pixels[i], ignoreBackground, p1, p2, p12, n,
                                   seen, |rec.pixels| - i - 1);
      seen := seen + [(rec.pixels[i], gt.pixels[i])];
      i := i + 1;
    }
    assert SectionPairs(rec, gt)[..i] == SectionPairs(rec, gt);
  }

  /** The maps and n hold the counts of the first z sections, all of which
      lie before the first pair of sections of different sizes. */
  ghost predicate StacksCounted(rec: seq<Image>, gt: seq<Image>, ignoreBackground: bool, z: nat,
                                p1: map<Label, real>, p2: map<Label, real>, p12: map<LabelPair, real>, n: int) {
    |rec| <= |gt| && z <= MatchingDepth(rec, gt) && Lockstep(rec, gt, z) &&
    Tallied(p1, p2, p12, n, Kept(ignoreBackground, StackPairs(rec, gt, z)), 0)
  }

  /** Counting the section pair z, of equal sizes, extends StacksCounted
      by one section. */
  lemma StacksCountedStep(rec: seq<Image>, gt: seq<Image>, ignoreBackground: bool, z: nat, done: seq<LabelPair>,
                          p1: map<Label, real>, p2: map<Label, real>, p12: map<LabelPair, real>, n: int)
    requires |rec| <= |gt| && z < |rec| && z <= MatchingDepth(rec, gt) && |rec[z].pixels| == |gt[z].pixels|
    requires Lockstep(rec, gt, z) && done == StackPairs(rec, gt, z)
    requires Tallied(p1, p2, p12, n, Kept(ignoreBackground, done + SectionPairs(rec[z], gt[z])), 0)
    ensures StacksCounted(rec, gt, ignoreBackground, z + 1, p1, p2, p12, n)
  {
    MatchingLockstep(rec, gt, z + 1);
    assert StackPairs(rec, gt, z + 1) == done + SectionPairs(rec[z], gt[z]);
  }

  /** The counting over the sections of two stacks of equal depth. It stops
      at the first pair of sections of different sizes (matched false), the
      counts of the sections before it kept. */
  method CountStacks(rec: seq<Image>, gt: seq<Image>, ignoreBackground: bool)
    returns (p1: map<Label, real>, p2: map<Label, real>, p12: map<LabelPair, real>, n: int, matched: bool)
    requires |rec| <= |gt|
    ensures matched <==> MatchingDepth(rec, gt) == |rec|
    ensures StacksCounted(rec, gt, ignoreBackground, MatchingDepth(rec, gt), p1, p2, p12, n)
  {
    p1, p2, p12, n := map[], map[], map[], 0;
    var z := 0;
    while z < |rec|
      invariant z <= |rec| && StacksCounted(rec, gt, ignoreBackground, z, p1, p2, p12, n)
    {
      if |rec[z].pixels| != |gt[z].pixels| {
        assert MatchingDepth(rec, gt) == z;
        return p1, p2, p12, n, false;
      }
      ghost var done := StackPairs(rec, gt, z);
      p1, p2, p12, n := CountSection(rec[z], gt[z], ignoreBackground, p1, p2, p12, n, done);
      StacksCountedStep(rec, gt, ignoreBackground, z, done, p1, p2, p12, n);
      z := z + 1;
    }
    matched := true;
  }

  /** A normalisation loop: every entry is divided by n in place. */
  method Normalize<K>(m: map<K, real>, n: nat) returns (r: map<K, real>)
    requires m != map[] ==> n > 0
    ensures r == Scaled(m, n)
  {
    r := m;
    var rest := m.Keys;
    while rest != {}
      invariant rest <= m.Keys && r.Keys == m.Keys
      invariant forall k | k in rest :: r[k] == m[k]
      invariant forall k | k in m.Keys - rest :: r[k] == m[k] / n as real
      decreases rest
    {
      var k :| k in rest;
      r := r[k := r[k] / n as real];
      rest := rest - {k};
    }
    assert m.Keys - rest == m.Keys;
  }

  /** The entropies of the two labelings and their mutual information, in
      bits, as the engine derives them from the label frequencies. */
  datatype Entropies = Entropies(h1: real, h2: real, mutual: real)

  /** How the entropies follow from the frequencies of the reconstruction
      labels, the ground-truth labels and the label pairs. */
  type Information = (map<Label, real>, map<Label, real>, map<LabelPair, real>) -> Entropies

  datatype VariationOfInformationErrors = VariationOfInformationErrors(splitEntropy: real, mergeEntropy: real) {
    /** The total entropy, the variation of information. */
    function GetEntropy(): real {
      splitEntropy + mergeEntropy
    }
  }

  /** The scores from the entropies: with the joint entropy
      H12 = H1 + H2 - I, the split entropy is H12 - H2 and the merge entropy
      H12 - H1. */
  function ErrorsFrom(e: Entropies): (r: VariationOfInformationErrors)
    ensures r.splitEntropy == e.h1 - e.mutual && r.mergeEntropy == e.h2 - e.mutual
    ensures r.GetEntropy() == e.h1 + e.h2 - 2.0 * e.mutual
  {
    var h12 := e.h1 + e.h2 - e.mutual;
    VariationOfInformationErrors(h12 - e.h2, h12 - e.h1)
  }

  /** The column names of the error report. */
  const ErrorNames: seq<string> := ["VOI_SPLIT", "VOI_MERGE", "VOI"]

  /** errorHeader: the three column names, tab-separated. */
  function ErrorHeader(): (line: string)
    ensures Split(line, '\t') == ["VOI_SPLIT", "VOI_MERGE", "VOI"]
  {
    Header(ErrorNames, '\t')
  }

  class VariationOfInformation {
    /** Do not count voxels whose ground-truth label is 0. */
    const ignoreBackground: bool
    /** The label frequencies of the reconstruction. */
    var p1: map<Label, real>
    /** The label frequencies of the ground truth. */
    var p2: map<Label, real>
    /** The frequencies of the label pairs. */
    var p12: map<LabelPair, real>

    constructor (ignoreBackground: bool)
      ensures this.ignoreBackground == ignoreBackground && p1 == map[] && p2 == map[] && p12 == map[]
    {
      this.ignoreBackground := ignoreBackground;
      p1, p2, p12 := map[], map[], map[];
    }

    /** The variation of information of a reconstruction against a ground
        truth. Stacks of different depths are refused before anything
        changes; otherwise the maps are rebuilt from nothing, and a pair of
        sections of different sizes is refused with the counts of the
        sections before it left in the maps. */
    method Compute(groundTruth: ImageStack, reconstruction: ImageStack, information: Information)
      returns (result: Result<VariationOfInformationErrors>)
      modifies this
      ensures reconstruction.Size() != groundTruth.Size() ==>
        result == Err(SizeMismatchError) && p1 == old(p1) && p2 == old(p2) && p12 == old(p12)
      ensures reconstruction.Size() == groundTruth.Size() ==>
        var rec, gt := reconstruction.sections, groundTruth.sections;
        var d := MatchingDepth(rec, gt);
        Lockstep(rec, gt, d) &&
        var ps := Kept(ignoreBackground, StackPairs(rec, gt, d));
        (d < |rec| ==> result == Err(SizeMismatchError) && Holds(p1, p2, p12, ps)) &&
        (d == |rec| ==>
           p1 == Frequencies(Firsts(ps)) && p2 == Frequencies(Seconds(ps)) && p12 == Frequencies(ps) &&
           result == Ok(ErrorsFrom(information(p1, p2, p12))))
    {
      if reconstruction.Size() != groundTruth.Size() {
        return Err(SizeMismatchError);
      }
      var c1, c2, c12, n, matched := CountStacks(reconstruction.sections, groundTruth.sections, ignoreBackground);
      if !matched {
        p1, p2, p12 := c1, c2, c12;
        return Err(SizeMismatchError);
      }
      ghost var ps := Kept(ignoreBackground, StackPairs(reconstruction.sections, groundTruth.sections,
                                                        |reconstruction.sections|));
      if n == 0 {
        HoldsNothing(c1, c2, c12, ps);
      }
      c1 := Normalize(c1, n);
      c2 := Normalize(c2, n);
      c12 := Normalize(c12, n);
      p1, p2, p12 := c1, c2, c12;
      result := Ok(ErrorsFrom(information(p1, p2, p12)));
    }
  }
}
