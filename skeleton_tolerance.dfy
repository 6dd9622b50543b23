/** The skeleton tolerance function: a distance tolerance function for a
    ground truth given as skeletons. Only cells on a skeleton may be
    relabelled; every other cell is given the ignore label on both sides. */
module SkeletonTolerance {
  import opened Base
  import opened Cells
  import opened Ordered
  import opened LocalTolerance
  import opened DistanceTolerance

  /** A cell lies on a skeleton when its ground-truth label is not the
      ground-truth background. */
  predicate IsSkeletonCell(cell: Cell, gtBackgroundLabel: Label)
    reads cell
  {
    cell.groundTruthLabel != gtBackgroundLabel
  }

  /** The ground-truth labels of a list of cells. */
  ghost function GroundTruthLabels(cells: seq<Cell>): (r: seq<Label>)
    reads cells
    ensures |r| == |cells|
  {
    seq(|cells|, i reads cells requires 0 <= i < |cells| => cells[i].groundTruthLabel)
  }

  /** The ground-truth labels after the filter: among the first n cells,
      the background ones become ignore. */
  function Filtered(gts: seq<Label>, n: nat, gtBackgroundLabel: Label, ignoreLabel: Label): (r: seq<Label>)
    ensures |r| == |gts|
  {
    seq(|gts|, i requires 0 <= i < |gts| => if i < n && gts[i] == gtBackgroundLabel then ignoreLabel else gts[i])
  }

  /** The indices among the first n whose ground-truth label is not the
      background. */
  function SkeletonIndices(gts: seq<Label>, n: nat, gtBackgroundLabel: Label): set<nat> {
    set i: nat | i < n && i < |gts| && gts[i] != gtBackgroundLabel
  }

  /** Filtering a second time selects the same cells exactly when the
      ignore label is itself the background or the first filter replaced
      nothing: otherwise an ignored cell counts as a skeleton cell. */
  lemma RepeatedFilter(gts: seq<Label>, n: nat, gtBackgroundLabel: Label, ignoreLabel: Label)
    requires n <= |gts|
    ensures SkeletonIndices(Filtered(gts, n, gtBackgroundLabel, ignoreLabel), n, gtBackgroundLabel) ==
            SkeletonIndices(gts, n, gtBackgroundLabel) <==>
            (ignoreLabel == gtBackgroundLabel || forall i | 0 <= i < n :: gts[i] != gtBackgroundLabel)
  {
    var after := Filtered(gts, n, gtBackgroundLabel, ignoreLabel);
    if ignoreLabel != gtBackgroundLabel {
      if i :| 0 <= i < n && gts[i] == gtBackgroundLabel {
        assert i in SkeletonIndices(after, n, gtBackgroundLabel);
        assert i !in SkeletonIndices(gts, n, gtBackgroundLabel);
      }
    }
  }

  /** The indices among the first n that the skeleton test selects once it
      also refuses cells already given the ignore label. */
  function IntendedSkeletonIndices(gts: seq<Label>, n: nat, gtBackgroundLabel: Label, ignoreLabel: Label): set<nat> {
    set i: nat | i < n && i < |gts| && gts[i] != gtBackgroundLabel && gts[i] != ignoreLabel
  }

  /** With the ignore label refused as well, filtering a second time selects
      the same cells as the first time, whatever the labels; on labels that
      do not use the ignore label it selects what the engine's test selects. */
  lemma RepeatedFilterIntended(gts: seq<Label>, n: nat, gtBackgroundLabel: Label, ignoreLabel: Label)
    requires n <= |gts|
    ensures IntendedSkeletonIndices(Filtered(gts, n, gtBackgroundLabel, ignoreLabel), n, gtBackgroundLabel, ignoreLabel) ==
            IntendedSkeletonIndices(gts, n, gtBackgroundLabel, ignoreLabel)
    ensures (forall i | 0 <= i < n :: gts[i] != ignoreLabel) ==>
            IntendedSkeletonIndices(gts, n, gtBackgroundLabel, ignoreLabel) == SkeletonIndices(gts, n, gtBackgroundLabel)
  {
  }

  /** The loop of findRelabelCandidates over the first n cells: skeleton
      cells are collected, the others get the ignore label on both sides. */
  method FilterCells(cells: seq<Cell>, n: nat, gtBackgroundLabel: Label, ignoreLabel: Label)
    returns (relabelCandidates: seq<nat>)
    requires n <= |cells| && DistinctCells(cells)
    modifies cells
    ensures StrictlyIncreasing(relabelCandidates)
    ensures Elems(relabelCandidates) == SkeletonIndices(old(GroundTruthLabels(cells)), n, gtBackgroundLabel)
    ensures GroundTruthLabels(cells) == Filtered(old(GroundTruthLabels(cells)), n, gtBackgroundLabel, ignoreLabel)
    ensures forall i | 0 <= i < |cells| ::
      cells[i].recLabel == (if i < n && old(cells[i].groundTruthLabel) == gtBackgroundLabel
                            then ignoreLabel else old(cells[i].recLabel))
    ensures forall i | 0 <= i < |cells| ::
      cells[i].alternativeLabels == old(cells[i].alternativeLabels) &&
      cells[i].content == old(cells[i].content) && cells[i].boundary == old(cells[i].boundary)
  {
    ghost var gts := GroundTruthLabels(cells);
    relabelCandidates := [];
    for cellIndex := 0 to n
      invariant StrictlyIncreasing(relabelCandidates)
      invariant forall j | 0 <= j < |relabelCandidates| :: relabelCandidates[j] < cellIndex
      invariant forall j: nat :: j in relabelCandidates <==> j < cellIndex && gts[j] != gtBackgroundLabel
      invariant forall i | 0 <= i < |cells| ::
        cells[i].groundTruthLabel == (if i < cellIndex && gts[i] == gtBackgroundLabel then ignoreLabel else gts[i])
      invariant forall i | 0 <= i < |cells| ::
        cells[i].recLabel == (if i < cellIndex && gts[i] == gtBackgroundLabel then ignoreLabel else old(cells[i].recLabel))
      invariant forall i | 0 <= i < |cells| ::
        cells[i].alternativeLabels == old(cells[i].alternativeLabels) &&
        cells[i].content == old(cells[i].content) && cells[i].boundary == old(cells[i].boundary)
    {
      var cell := cells[cellIndex];
      if IsSkeletonCell(cell, gtBackgroundLabel) {
        relabelCandidates := relabelCandidates + [cellIndex];
      } else {
        cell.SetReconstructionLabel(ignoreLabel);
        cell.SetGroundTruthLabel(ignoreLabel);
      }
    }
    assert Elems(relabelCandidates) == SkeletonIndices(gts, n, gtBackgroundLabel);
    assert GroundTruthLabels(cells) == Filtered(gts, n, gtBackgroundLabel, ignoreLabel);
  }

  class SkeletonToleranceFunction {
    /** The distance tolerance this function refines; background may
        always appear. */
    const tolerance: DistanceToleranceFunction
    /** The cells and the registry of possible matches. */
    const local: LocalToleranceFunction
    /** The label given to cells off the skeleton. */
    const ignoreLabel: Label
    /** The ground-truth label of voxels off the skeleton. */
    const gtBackgroundLabel: Label
    /** The indices of the cells that may be relabelled. */
    var relabelCandidates: seq<nat>

    constructor (distanceThreshold: real, backgroundLabel: Label, ignoreLabel: Label, gtBackgroundLabel: Label)
      ensures fresh(tolerance) && tolerance.allowBackgroundAppearance
      ensures tolerance.recBackgroundLabel == backgroundLabel && tolerance.maxDistanceThreshold == distanceThreshold
      ensures fresh(local) && local.Empty() && local.Valid()
      ensures this.ignoreLabel == ignoreLabel && this.gtBackgroundLabel == gtBackgroundLabel
      ensures relabelCandidates == []
    {
      tolerance := new DistanceToleranceFunction(distanceThreshold, true, backgroundLabel);
      local := new LocalToleranceFunction();
      this.ignoreLabel := ignoreLabel;
      this.gtBackgroundLabel := gtBackgroundLabel;
      relabelCandidates := [];
    }

    /** findRelabelCandidates: the candidates are the skeleton cells among
        the first |maxBoundaryDistances|, in increasing order; the other
        cells among them are hard-wired to the ignore label; the pair
        (ignore, ignore) becomes a possible match. The previous candidates
        are discarded. */
    method FindRelabelCandidates(maxBoundaryDistances: seq<real>)
      requires local.Valid() && |maxBoundaryDistances| <= |local.cells| && DistinctCells(local.cells)
      modifies this, local, local.cells
      ensures local.Valid() && local.cells == old(local.cells)
      ensures StrictlyIncreasing(relabelCandidates)
      ensures Elems(relabelCandidates) ==
        SkeletonIndices(old(GroundTruthLabels(local.cells)), |maxBoundaryDistances|, gtBackgroundLabel)
      ensures GroundTruthLabels(local.cells) ==
        Filtered(old(GroundTruthLabels(local.cells)), |maxBoundaryDistances|, gtBackgroundLabel, ignoreLabel)
      ensures forall i | 0 <= i < |local.cells| ::
        local.cells[i].recLabel ==
          (if i < |maxBoundaryDistances| && old(local.cells[i].groundTruthLabel) == gtBackgroundLabel
           then ignoreLabel else old(local.cells[i].recLabel))
      ensures forall i | 0 <= i < |local.cells| ::
        local.cells[i].alternativeLabels == old(local.cells[i].alternativeLabels) &&
        local.cells[i].content == old(local.cells[i].content) && local.cells[i].boundary == old(local.cells[i].boundary)
      ensures ignoreLabel in Lookup(local.possibleGroundTruthMatches, ignoreLabel)
      ensures local.possibleGroundTruthMatches ==
        old(local.possibleGroundTruthMatches)[ignoreLabel :=
                                                old(Lookup(local.possibleGroundTruthMatches, ignoreLabel)) + {ignoreLabel}]
      ensures local.possibleReconstructionMatches ==
        old(local.possibleReconstructionMatches)[ignoreLabel :=
                                                  old(Lookup(local.possibleReconstructionMatches, ignoreLabel)) + {ignoreLabel}]
      ensures local.groundTruthLabels == old(local.groundTruthLabels) + {ignoreLabel}
      ensures local.reconstructionLabels == old(local.reconstructionLabels) + {ignoreLabel}
    {
      relabelCandidates := [];
      var candidates := FilterCells(local.cells, |maxBoundaryDistances|, gtBackgroundLabel, ignoreLabel);
      relabelCandidates := candidates;
      local.RegisterPossibleMatch(ignoreLabel, ignoreLabel);
    }
  }
}
