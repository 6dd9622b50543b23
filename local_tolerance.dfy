/** The state shared by all local tolerance functions: the extracted cells,
    the voxel resolution, and a registry of possible matches between
    ground-truth and reconstruction labels, kept in both directions. */
module LocalTolerance {
  import opened Base
  import opened Cells

  /** The set stored under k, or the empty set for a key never inserted. */
  function Lookup(m: map<Label, set<Label>>, k: Label): set<Label> {
    if k in m then m[k] else {}
  }

  lemma LookupUpdate(m: map<Label, set<Label>>, k: Label, v: set<Label>)
    ensures forall j :: Lookup(m[k := v], j) == if j == k then v else Lookup(m, j)
  {
    forall j ensures Lookup(m[k := v], j) == if j == k then v else Lookup(m, j) {
      if j != k {
        assert (j in m[k := v]) == (j in m);
      }
    }
  }

  /** Inserting an element that is already present changes nothing. */
  lemma InsertPresent(m: map<Label, set<Label>>, k: Label, x: Label)
    requires x in Lookup(m, k)
    ensures m[k := Lookup(m, k) + {x}] == m
  {
    assert k in m;
    assert Lookup(m, k) + {x} == m[k];
  }

  /** The two match maps are transposes of each other, and the label sets
      hold exactly the labels that take part in a match. */
  ghost predicate MatchesValid(byGt: map<Label, set<Label>>, byRec: map<Label, set<Label>>,
                               gtLabels: set<Label>, recLabels: set<Label>) {
    (forall g: Label, r: Label :: r in Lookup(byGt, g) <==> g in Lookup(byRec, r)) &&
    (forall g: Label :: g in gtLabels <==> Lookup(byGt, g) != {}) &&
    (forall r: Label :: r in recLabels <==> Lookup(byRec, r) != {})
  }

  /** Registering a pair in both directions keeps the registry consistent;
      registering it a second time changes nothing. */
  lemma RegisterKeeps(byGt: map<Label, set<Label>>, byRec: map<Label, set<Label>>,
                      gtLabels: set<Label>, recLabels: set<Label>, g: Label, r: Label)
    requires MatchesValid(byGt, byRec, gtLabels, recLabels)
    ensures MatchesValid(byGt[g := Lookup(byGt, g) + {r}], byRec[r := Lookup(byRec, r) + {g}],
                         gtLabels + {g}, recLabels + {r})
    ensures r in Lookup(byGt, g) ==>
      byGt[g := Lookup(byGt, g) + {r}] == byGt && byRec[r := Lookup(byRec, r) + {g}] == byRec &&
      gtLabels + {g} == gtLabels && recLabels + {r} == recLabels
  {
    var byGt', byRec' := byGt[g := Lookup(byGt, g) + {r}], byRec[r := Lookup(byRec, r) + {g}];
    LookupUpdate(byGt, g, Lookup(byGt, g) + {r});
    LookupUpdate(byRec, r, Lookup(byRec, r) + {g});
    forall x: Label, y: Label ensures y in Lookup(byGt', x) <==> x in Lookup(byRec', y) {
      assert y in Lookup(byGt, x) <==> x in Lookup(byRec, y);
    }
    if r in Lookup(byGt, g) {
      InsertPresent(byGt, g, r);
      InsertPresent(byRec, r, g);
    }
  }

  /** An inserting lookup in one of the match maps keeps the registry
      consistent. */
  lemma LookupKeeps(byGt: map<Label, set<Label>>, byRec: map<Label, set<Label>>,
                    gtLabels: set<Label>, recLabels: set<Label>, g: Label, r: Label)
    requires MatchesValid(byGt, byRec, gtLabels, recLabels)
    ensures MatchesValid(byGt[g := Lookup(byGt, g)], byRec, gtLabels, recLabels)
    ensures MatchesValid(byGt, byRec[r := Lookup(byRec, r)], gtLabels, recLabels)
  {
    var byGt', byRec' := byGt[g := Lookup(byGt, g)], byRec[r := Lookup(byRec, r)];
    LookupUpdate(byGt, g, Lookup(byGt, g));
    LookupUpdate(byRec, r, Lookup(byRec, r));
    forall x ensures Lookup(byGt', x) == Lookup(byGt, x) && Lookup(byRec', x) == Lookup(byRec, x) {
    }
  }

  class LocalToleranceFunction {
    /** All extracted cells. */
    var cells: seq<Cell>
    /** The size of one voxel along each axis. */
    var resolutionX: real
    var resolutionY: real
    var resolutionZ: real
    /** All ground-truth and all reconstruction labels registered so far. */
    var groundTruthLabels: set<Label>
    var reconstructionLabels: set<Label>
    /** Possible matches, from ground truth to reconstruction ... */
    var possibleGroundTruthMatches: map<Label, set<Label>>
    /** ... and from reconstruction to ground truth. */
    var possibleReconstructionMatches: map<Label, set<Label>>
    /** Cell indices by reconstruction and ground-truth label. */
    var cellsByRecToGtLabel: map<Label, map<Label, seq<nat>>>

    /** The two match maps are transposes of each other, and the label sets
        hold exactly the labels that take part in a match. */
    ghost predicate Valid()
      reads this
    {
      MatchesValid(possibleGroundTruthMatches, possibleReconstructionMatches, groundTruthLabels, reconstructionLabels)
    }

    predicate Empty()
      reads this
    {
      cells == [] && groundTruthLabels == {} && reconstructionLabels == {} &&
      possibleGroundTruthMatches == map[] && possibleReconstructionMatches == map[] &&
      cellsByRecToGtLabel == map[]
    }

    /** The default resolution is one unit per voxel edge. */
    constructor ()
      ensures resolutionX == 1.0 && resolutionY == 1.0 && resolutionZ == 1.0
      ensures Empty() && Valid()
    {
      resolutionX, resolutionY, resolutionZ := 1.0, 1.0, 1.0;
      cells := [];
      groundTruthLabels, reconstructionLabels := {}, {};
      possibleGroundTruthMatches, possibleReconstructionMatches := map[], map[];
      cellsByRecToGtLabel := map[];
    }

    method SetResolution(resX: real, resY: real, resZ: real)
      modifies this
      ensures resolutionX == resX && resolutionY == resY && resolutionZ == resZ
      ensures cells == old(cells) && groundTruthLabels == old(groundTruthLabels)
      ensures reconstructionLabels == old(reconstructionLabels)
      ensures possibleGroundTruthMatches == old(possibleGroundTruthMatches)
      ensures possibleReconstructionMatches == old(possibleReconstructionMatches)
      ensures cellsByRecToGtLabel == old(cellsByRecToGtLabel)
    {
      resolutionX, resolutionY, resolutionZ := resX, resY, resZ;
    }

    /** Forgets all cells, labels and matches; the cells become a fresh
        empty list. */
    method Clear()
      modifies this
      ensures Empty() && Valid()
      ensures resolutionX == old(resolutionX) && resolutionY == old(resolutionY)
      ensures resolutionZ == old(resolutionZ)
    {
      groundTruthLabels := {};
      reconstructionLabels := {};
      cells := [];
      possibleGroundTruthMatches := map[];
      possibleReconstructionMatches := map[];
      cellsByRecToGtLabel := map[];
    }

    /** Records that gtLabel may be matched with recLabel, in both
        directions. */
    method RegisterPossibleMatch(gtLabel: Label, recLabel: Label)
      requires Valid()
      modifies this
      ensures Valid()
      ensures possibleGroundTruthMatches ==
        old(possibleGroundTruthMatches)[gtLabel := old(Lookup(possibleGroundTruthMatches, gtLabel)) + {recLabel}]
      ensures possibleReconstructionMatches ==
        old(possibleReconstructionMatches)[recLabel := old(Lookup(possibleReconstructionMatches, recLabel)) + {gtLabel}]
      ensures groundTruthLabels == old(groundTruthLabels) + {gtLabel}
      ensures reconstructionLabels == old(reconstructionLabels) + {recLabel}
      ensures recLabel in Lookup(possibleGroundTruthMatches, gtLabel)
      ensures gtLabel in Lookup(possibleReconstructionMatches, recLabel)
      // registering a pair a second time changes nothing
      ensures recLabel in old(Lookup(possibleGroundTruthMatches, gtLabel)) ==>
        possibleGroundTruthMatches == old(possibleGroundTruthMatches) &&
        possibleReconstructionMatches == old(possibleReconstructionMatches) &&
        groundTruthLabels == old(groundTruthLabels) &&
        reconstructionLabels == old(reconstructionLabels)
      ensures cells == old(cells) && cellsByRecToGtLabel == old(cellsByRecToGtLabel)
      ensures resolutionX == old(resolutionX) && resolutionY == old(resolutionY)
      ensures resolutionZ == old(resolutionZ)
    {
      RegisterKeeps(possibleGroundTruthMatches, possibleReconstructionMatches, groundTruthLabels, reconstructionLabels,
                    gtLabel, recLabel);
      possibleGroundTruthMatches :=
        possibleGroundTruthMatches[gtLabel := Lookup(possibleGroundTruthMatches, gtLabel) + {recLabel}];
      possibleReconstructionMatches :=
        possibleReconstructionMatches[recLabel := Lookup(possibleReconstructionMatches, recLabel) + {gtLabel}];
      groundTruthLabels := groundTruthLabels + {gtLabel};
      reconstructionLabels := reconstructionLabels + {recLabel};
    }

    /** The reconstruction labels gtLabel may be matched with; looking up a
        label never registered inserts an empty entry and yields {}. */
    method GetPossibleMatchesByGt(gtLabel: Label) returns (matches: set<Label>)
      requires Valid()
      modifies this
      ensures Valid()
      ensures matches == old(Lookup(possibleGroundTruthMatches, gtLabel))
      ensures gtLabel !in old(groundTruthLabels) ==> matches == {}
      ensures possibleGroundTruthMatches == old(possibleGroundTruthMatches)[gtLabel := matches]
      ensures possibleReconstructionMatches == old(possibleReconstructionMatches)
      ensures groundTruthLabels == old(groundTruthLabels)
      ensures reconstructionLabels == old(reconstructionLabels)
      ensures cells == old(cells) && cellsByRecToGtLabel == old(cellsByRecToGtLabel)
      ensures resolutionX == old(resolutionX) && resolutionY == old(resolutionY)
      ensures resolutionZ == old(resolutionZ)
    {
      matches := Lookup(possibleGroundTruthMatches, gtLabel);
      LookupKeeps(possibleGroundTruthMatches, possibleReconstructionMatches, groundTruthLabels, reconstructionLabels,
                  gtLabel, 0);
      possibleGroundTruthMatches := possibleGroundTruthMatches[gtLabel := matches];
    }

    /** The ground-truth labels recLabel may be matched with; looking up a
        label never registered inserts an empty entry and yields {}. */
    method GetPossibleMatchesByRec(recLabel: Label) returns (matches: set<Label>)
      requires Valid()
      modifies this
      ensures Valid()
      ensures matches == old(Lookup(possibleReconstructionMatches, recLabel))
      ensures recLabel !in old(reconstructionLabels) ==> matches == {}
      ensures possibleReconstructionMatches == old(possibleReconstructionMatches)[recLabel := matches]
      ensures possibleGroundTruthMatches == old(possibleGroundTruthMatches)
      ensures groundTruthLabels == old(groundTruthLabels)
      ensures reconstructionLabels == old(reconstructionLabels)
      ensures cells == old(cells) && cellsByRecToGtLabel == old(cellsByRecToGtLabel)
      ensures resolutionX == old(resolutionX) && resolutionY == old(resolutionY)
      ensures resolutionZ == old(resolutionZ)
    {
      matches := Lookup(possibleReconstructionMatches, recLabel);
      LookupKeeps(possibleGroundTruthMatches, possibleReconstructionMatches, groundTruthLabels, reconstructionLabels,
                  0, recLabel);
      possibleReconstructionMatches := possibleReconstructionMatches[recLabel := matches];
    }
  }
}
