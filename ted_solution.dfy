/** Reading a solution of the tolerant edit distance program back: the
    mappings findErrors records for the set indicators, and the labels
    correctReconstruction writes into the corrected volume. A solver value
    counts as set when it is not zero. */
module TedSolution {
  import opened Base
  import opened Cells
  import opened CellMaps
  import opened TedIlp

  /** The ground-truth-to-reconstruction map after addMapping for each of
      the first n indicators that x sets, in order. */
  function ChosenGtToRec(lab: seq<Indicator>, x: seq<int>, n: nat): CellMap
    requires n <= |lab| && n <= |x|
  {
    if n == 0 then map[]
    else if x[n - 1] != 0 then AddEntry(ChosenGtToRec(lab, x, n - 1), lab[n - 1].gtLabel, lab[n - 1].recLabel, lab[n - 1].cell)
    else ChosenGtToRec(lab, x, n - 1)
  }

  /** The reconstruction-to-ground-truth map after the same calls. */
  function ChosenRecToGt(lab: seq<Indicator>, x: seq<int>, n: nat): CellMap
    requires n <= |lab| && n <= |x|
  {
    if n == 0 then map[]
    else if x[n - 1] != 0 then AddEntry(ChosenRecToGt(lab, x, n - 1), lab[n - 1].recLabel, lab[n - 1].gtLabel, lab[n - 1].cell)
    else ChosenRecToGt(lab, x, n - 1)
  }

  /** Indicator i is among the first n, x sets it, and it gives label r to
      cell c of ground-truth label g. */
  predicate ChosenAs(lab: seq<Indicator>, x: seq<int>, n: nat, i: nat, c: nat, g: Label, r: Label) {
    i < n && i < |lab| && i < |x| && x[i] != 0 && lab[i].cell == c && lab[i].gtLabel == g && lab[i].recLabel == r
  }

  /** A cell is mapped between g and r exactly when a set indicator gives
      it label r and has ground-truth label g, in both maps. */
  lemma ChosenCells(lab: seq<Indicator>, x: seq<int>, n: nat, g: Label, r: Label, c: nat)
    requires n <= |lab| && n <= |x|
    ensures c in CellsAt(ChosenGtToRec(lab, x, n), g, r) <==> exists i: nat :: ChosenAs(lab, x, n, i, c, g, r)
    ensures c in CellsAt(ChosenRecToGt(lab, x, n), r, g) <==> exists i: nat :: ChosenAs(lab, x, n, i, c, g, r)
  {
    ChosenGtToRecCells(lab, x, n, g, r, c);
    ChosenRecToGtCells(lab, x, n, g, r, c);
  }

  lemma {:induction false} ChosenGtToRecCells(lab: seq<Indicator>, x: seq<int>, n: nat, g: Label, r: Label, c: nat)
    requires n <= |lab| && n <= |x|
    ensures c in CellsAt(ChosenGtToRec(lab, x, n), g, r) <==> exists i: nat :: ChosenAs(lab, x, n, i, c, g, r)
  {
    if n > 0 {
      ChosenGtToRecCells(lab, x, n - 1, g, r, c);
      ChosenStep(lab, x, n, n - 1, g, r, c);
      if x[n - 1] != 0 {
        AddEntryCells(ChosenGtToRec(lab, x, n - 1), lab[n - 1].gtLabel, lab[n - 1].recLabel, lab[n - 1].cell);
      }
    }
  }

  lemma {:induction false} ChosenRecToGtCells(lab: seq<Indicator>, x: seq<int>, n: nat, g: Label, r: Label, c: nat)
    requires n <= |lab| && n <= |x|
    ensures c in CellsAt(ChosenRecToGt(lab, x, n), r, g) <==> exists i: nat :: ChosenAs(lab, x, n, i, c, g, r)
  {
    if n > 0 {
      ChosenRecToGtCells(lab, x, n - 1, g, r, c);
      ChosenStep(lab, x, n, n - 1, g, r, c);
      if x[n - 1] != 0 {
        AddEntryCells(ChosenRecToGt(lab, x, n - 1), lab[n - 1].recLabel, lab[n - 1].gtLabel, lab[n - 1].cell);
      }
    }
  }

  /** The set indicators among the first n are those among the first n - 1
      and possibly indicator n - 1. */
  lemma ChosenStep(lab: seq<Indicator>, x: seq<int>, n: nat, m: nat, g: Label, r: Label, c: nat)
    requires n == m + 1 && n <= |lab| && n <= |x|
    ensures (exists i: nat :: ChosenAs(lab, x, n, i, c, g, r)) <==>
            (exists i: nat :: ChosenAs(lab, x, m, i, c, g, r)) || ChosenAs(lab, x, n, m, c, g, r)
  {
    if i: nat :| ChosenAs(lab, x, n, i, c, g, r) {
      if i < m {
        assert ChosenAs(lab, x, m, i, c, g, r);
      }
    }
    if i: nat :| ChosenAs(lab, x, m, i, c, g, r) {
      assert ChosenAs(lab, x, n, i, c, g, r);
    }
  }

  /** The two maps findErrors builds are transposes of each other. */
  lemma ChosenTransposed(lab: seq<Indicator>, x: seq<int>, n: nat)
    requires n <= |lab| && n <= |x|
    ensures Transposed(ChosenGtToRec(lab, x, n), ChosenRecToGt(lab, x, n))
  {
    forall a, b ensures CellsAt(ChosenGtToRec(lab, x, n), a, b) == CellsAt(ChosenRecToGt(lab, x, n), b, a) {
      forall c ensures c in CellsAt(ChosenGtToRec(lab, x, n), a, b) <==> c in CellsAt(ChosenRecToGt(lab, x, n), b, a) {
        ChosenCells(lab, x, n, a, b, c);
      }
    }
  }

  /** The label correctReconstruction leaves at location l after the first
      n indicators: that of the last indicator x sets whose cell contains
      l, and 0 where there is none. */
  function CorrectedAt(contents: seq<seq<Location>>, lab: seq<Indicator>, x: seq<int>, n: nat, l: Location): Label
    requires n <= |lab| && n <= |x|
  {
    if n == 0 then 0
    else if x[n - 1] != 0 && lab[n - 1].cell < |contents| && l in contents[lab[n - 1].cell] then lab[n - 1].recLabel
    else CorrectedAt(contents, lab, x, n - 1, l)
  }

  /** When v is the only set indicator whose cell contains l, l gets its
      label. */
  lemma {:induction false} CorrectedOnly(contents: seq<seq<Location>>, lab: seq<Indicator>, x: seq<int>, n: nat,
                                         l: Location, v: nat)
    requires n <= |lab| && n <= |x| && v < n && x[v] != 0
    requires lab[v].cell < |contents| && l in contents[lab[v].cell]
    requires forall i | 0 <= i < n && x[i] != 0 && lab[i].cell < |contents| && l in contents[lab[i].cell] :: i == v
    ensures CorrectedAt(contents, lab, x, n, l) == lab[v].recLabel
  {
    if v < n - 1 {
      CorrectedOnly(contents, lab, x, n - 1, l, v);
    }
  }

  /** A location that no set indicator's cell contains stays 0. */
  lemma {:induction false} CorrectedNone(contents: seq<seq<Location>>, lab: seq<Indicator>, x: seq<int>, n: nat,
                                         l: Location)
    requires n <= |lab| && n <= |x|
    requires forall i | 0 <= i < n && x[i] != 0 && lab[i].cell < |contents| :: l !in contents[lab[i].cell]
    ensures CorrectedAt(contents, lab, x, n, l) == 0
  {
    if n > 0 {
      CorrectedNone(contents, lab, x, n - 1, l);
    }
  }

  /** No location belongs to two cells. */
  ghost predicate Disjoint(contents: seq<seq<Location>>) {
    forall c1, c2, l | 0 <= c1 < |contents| && 0 <= c2 < |contents| && l in contents[c1] && l in contents[c2] :: c1 == c2
  }

  lemma SingletonMember<T>(s: set<T>, v: T, w: T)
    requires |s| == 1 && v in s && w in s
    ensures v == w
  {
    var t := s - {v};
    assert |t| == 0;
    assert w !in t;
  }

  /** When the cell constraint of c holds over binary indicators, exactly
      one indicator of cell c is set, and it gives c its own label or one
      of its alternatives. */
  lemma SelectedOfCell(views: seq<CellView>, lab: seq<Indicator>, x: seq<int>, c: nat) returns (v: nat)
    requires lab == Labeling(views) && c < |views|
    requires Binary(x, Interval(BlockStart(views, c), BlockStart(views, c + 1)))
    requires Holds(CellConstraint(views, c), x)
    ensures v < |lab| && ValueAt(x, v) != 0 && lab[v].cell == c && lab[v].gtLabel == views[c].gtLabel
    ensures lab[v].recLabel == views[c].recLabel || lab[v].recLabel in views[c].alternatives
    ensures forall i | 0 <= i < |lab| && ValueAt(x, i) != 0 && lab[i].cell == c :: i == v
  {
    var block := Interval(BlockStart(views, c), BlockStart(views, c + 1));
    CellConstraintMeaning(views, c, x);
    v :| v in Selected(x, block);
    BlockMember(views, c, v);
    forall i | 0 <= i < |lab| && ValueAt(x, i) != 0 && lab[i].cell == c ensures i == v {
      IndicatorInBlock(views, i);
      assert i in Selected(x, block);
      SingletonMember(Selected(x, block), i, v);
    }
  }

  /** Over disjoint cells and a solution that gives cell c exactly one of
      its labels (its cell constraint holds over binary indicators), the
      corrected reconstruction and the error mappings agree: every
      location of c gets one of c's possible labels, and c is mapped
      between its ground-truth label and that label and nothing else. */
  lemma CorrectionAgreesWithErrors(views: seq<CellView>, lab: seq<Indicator>, contents: seq<seq<Location>>,
                                   x: seq<int>, c: nat, l: Location)
    requires lab == Labeling(views) && |lab| <= |x|
    requires |contents| == |views| && Disjoint(contents) && c < |views| && l in contents[c]
    requires Binary(x, Interval(BlockStart(views, c), BlockStart(views, c + 1)))
    requires Holds(CellConstraint(views, c), x)
    ensures var chosen := CorrectedAt(contents, lab, x, |lab|, l);
      (chosen == views[c].recLabel || chosen in views[c].alternatives) &&
      c in CellsAt(ChosenGtToRec(lab, x, |lab|), views[c].gtLabel, chosen)
    ensures forall g, r | c in CellsAt(ChosenGtToRec(lab, x, |lab|), g, r) ::
      g == views[c].gtLabel && r == CorrectedAt(contents, lab, x, |lab|, l)
  {
    var n := |lab|;
    var v := SelectedOfCell(views, lab, x, c);
    forall i | 0 <= i < n && x[i] != 0 && lab[i].cell < |contents| && l in contents[lab[i].cell] ensures i == v {
      assert ValueAt(x, i) != 0;
    }
    CorrectedOnly(contents, lab, x, n, l, v);
    ChosenCells(lab, x, n, views[c].gtLabel, lab[v].recLabel, c);
    assert ChosenAs(lab, x, n, v, c, views[c].gtLabel, lab[v].recLabel);
    forall g, r | c in CellsAt(ChosenGtToRec(lab, x, n), g, r)
      ensures g == views[c].gtLabel && r == CorrectedAt(contents, lab, x, n, l)
    {
      ChosenCells(lab, x, n, g, r, c);
      var i: nat :| ChosenAs(lab, x, n, i, c, g, r);
      assert ValueAt(x, i) != 0;
    }
  }
}
