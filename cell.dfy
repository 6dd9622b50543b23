/** A cell: a connected set of volume locations on which ground truth and
    reconstruction are both constant, together with its original
    reconstruction label, its ground-truth label and the alternative
    reconstruction labels a tolerance criterion allows for it. */
module Cells {
  import opened Base

  /** A 3D location in the volume. */
  datatype Location = Location(x: int, y: int, z: int)

  /** Location::operator<: compares z first, then y, then x. */
  predicate Less(a: Location, b: Location) {
    if a.z < b.z then true
    else if a.z > b.z then false
    else if a.y < b.y then true
    else if a.y > b.y then false
    else a.x < b.x
  }

  /** The comparison is the lexicographic order on (z, y, x). */
  lemma LessIsLexicographic(a: Location, b: Location)
    ensures Less(a, b) <==>
      a.z < b.z || (a.z == b.z && (a.y < b.y || (a.y == b.y && a.x < b.x)))
  {
  }

  /** The comparison is a strict total order. */
  lemma LessIsStrictTotalOrder(a: Location, b: Location, c: Location)
    ensures !Less(a, a)
    ensures Less(a, b) && Less(b, c) ==> Less(a, c)
    ensures Less(a, b) || a == b || Less(b, a)
    ensures !(Less(a, b) && Less(b, a))
  {
  }

  class Cell {
    /** The original reconstruction label. */
    var recLabel: Label
    /** The ground-truth label. */
    var groundTruthLabel: Label
    /** Other reconstruction labels the tolerance criterion allows. */
    var alternativeLabels: set<Label>
    /** The volume locations of the cell, in insertion order. */
    var content: seq<Location>
    /** The locations forming the cell's boundary. */
    var boundary: seq<Location>

    /** A fresh cell has no locations and no alternatives; its labels are
        not initialised. */
    constructor ()
      ensures alternativeLabels == {} && content == [] && boundary == []
    {
      alternativeLabels := {};
      content := [];
      boundary := [];
    }

    /** All labels the cell may take: its own and the alternatives. */
    function PossibleLabels(): set<Label>
      reads this
    {
      {recLabel} + alternativeLabels
    }

    /** The number of locations in the cell. */
    function Size(): nat
      reads this
    {
      |content|
    }

    method SetReconstructionLabel(k: Label)
      modifies this
      ensures recLabel == k
      ensures groundTruthLabel == old(groundTruthLabel)
      ensures alternativeLabels == old(alternativeLabels)
      ensures content == old(content) && boundary == old(boundary)
    {
      recLabel := k;
    }

    method SetGroundTruthLabel(k: Label)
      modifies this
      ensures groundTruthLabel == k
      ensures recLabel == old(recLabel)
      ensures alternativeLabels == old(alternativeLabels)
      ensures content == old(content) && boundary == old(boundary)
    {
      groundTruthLabel := k;
    }

    /** Adds k as an alternative, unless it is the cell's own reconstruction label. */
    method AddAlternativeLabel(k: Label)
      modifies this
      ensures alternativeLabels == if k == recLabel then old(alternativeLabels) else old(alternativeLabels) + {k}
      ensures recLabel !in old(alternativeLabels) ==> recLabel !in alternativeLabels
      ensures k in old(PossibleLabels()) ==> alternativeLabels == old(alternativeLabels)
      ensures k in PossibleLabels() && PossibleLabels() == old(PossibleLabels()) + {k}
      ensures recLabel == old(recLabel) && groundTruthLabel == old(groundTruthLabel)
      ensures content == old(content) && boundary == old(boundary)
    {
      if recLabel == k {
        return;
      }
      alternativeLabels := alternativeLabels + {k};
    }

    /** Appends a location to the cell's content. */
    method Add(l: Location)
      modifies this
      ensures content == old(content) + [l]
      ensures Size() == old(Size()) + 1
      ensures boundary == old(boundary)
      ensures recLabel == old(recLabel) && groundTruthLabel == old(groundTruthLabel)
      ensures alternativeLabels == old(alternativeLabels)
    {
      content := content + [l];
    }

    /** Appends a location to the cell's boundary list. */
    method AddBoundary(l: Location)
      modifies this
      ensures boundary == old(boundary) + [l]
      ensures content == old(content) && Size() == old(Size())
      ensures recLabel == old(recLabel) && groundTruthLabel == old(groundTruthLabel)
      ensures alternativeLabels == old(alternativeLabels)
    {
      boundary := boundary + [l];
    }
  }

  /** The sizes of the cells, by cell index. */
  function Sizes(cs: seq<Cell>): (r: seq<nat>)
    reads set i | 0 <= i < |cs| :: cs[i]
    ensures |r| == |cs| && forall i | 0 <= i < |cs| :: r[i] == cs[i].Size()
  {
    if cs == [] then [] else Sizes(cs[..|cs| - 1]) + [cs[|cs| - 1].Size()]
  }
}
