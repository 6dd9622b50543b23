/** The integer linear program of the tolerant edit distance: one binary
    indicator per cell and possible label, one match variable per possible
    (ground truth, reconstruction) pair, and split and merge counters; and
    the read-back of a solution into error mappings and a corrected
    reconstruction. The solver itself is not part of the model: a solution
    is any vector of values. */
module TedIlp {
  import opened Base
  import opened Cells
  import opened Ordered
  import opened LocalTolerance
  import opened Sums

  // ---------------------------------------------------------------------
  // Linear programs

  datatype Relation = LessEqual | Equal | GreaterEqual

  /** A linear constraint: the sum of coefficient * variable, related to
      value. */
  datatype Constraint = Constraint(coefficients: map<nat, int>, relation: Relation, value: int)

  /** A linear objective over the variables 0 .. size - 1. */
  datatype Objective = Objective(size: nat, coefficients: map<nat, real>, minimize: bool)

  /** The variables begin .. end - 1. */
  function Interval(begin: nat, end: nat): (r: set<nat>)
    ensures forall v :: v in r <==> begin <= v < end
    decreases end
  {
    if end <= begin then {} else Interval(begin, end - 1) + {end - 1}
  }

  /** Coefficient c on every variable of vars. */
  function OnSet(vars: set<nat>, c: int): map<nat, int> {
    map v | v in vars :: c
  }

  /** Setting coefficient c on one more variable after base. */
  lemma OnSetInsert(base: map<nat, int>, vars: set<nat>, v: nat, c: int)
    ensures (base + OnSet(vars, c))[v := c] == base + OnSet(vars + {v}, c)
  {
  }

  /** The value a solution gives variable v; a solution is a vector of
      values, one per variable, and variables beyond it read as 0. */
  function ValueAt(x: seq<int>, v: nat): int {
    if v < |x| then x[v] else 0
  }

  function ValueFn(x: seq<int>): nat -> int {
    (v: nat) => ValueAt(x, v)
  }

  function TermFn(coefficients: map<nat, int>, x: seq<int>): nat -> int {
    (v: nat) => if v in coefficients then coefficients[v] * ValueAt(x, v) else 0
  }

  /** The sum of the values of vars. */
  ghost function Total(x: seq<int>, vars: set<nat>): int {
    SumSet(vars, ValueFn(x))
  }

  /** The left-hand side of a constraint under solution x. */
  ghost function Lhs(coefficients: map<nat, int>, x: seq<int>): int {
    SumSet(coefficients.Keys, TermFn(coefficients, x))
  }

  ghost predicate Holds(constraint: Constraint, x: seq<int>) {
    var lhs := Lhs(constraint.coefficients, x);
    match constraint.relation
    case LessEqual => lhs <= constraint.value
    case Equal => lhs == constraint.value
    case GreaterEqual => lhs >= constraint.value
  }

  /** x gives every variable of vars the value 0 or 1. */
  ghost predicate Binary(x: seq<int>, vars: set<nat>) {
    forall v | v in vars :: ValueAt(x, v) == 0 || ValueAt(x, v) == 1
  }

  /** The variables of vars that x sets. */
  function Selected(x: seq<int>, vars: set<nat>): set<nat> {
    set v | v in vars && ValueAt(x, v) != 0
  }

  lemma LhsEmpty(x: seq<int>)
    ensures Lhs(map[], x) == 0
  {
  }

  /** Adding a coefficient for a new variable adds its term. */
  lemma LhsUpdate(coefficients: map<nat, int>, k: nat, c: int, x: seq<int>)
    requires k !in coefficients
    ensures Lhs(coefficients[k := c], x) == Lhs(coefficients, x) + c * ValueAt(x, k)
  {
    var m := coefficients[k := c];
    assert m.Keys == coefficients.Keys + {k};
    SumSetAdd(coefficients.Keys, TermFn(m, x), k);
    SumSetCongruent(coefficients.Keys, TermFn(m, x), TermFn(coefficients, x));
  }

  /** The same coefficient on every variable of vars scales their total. */
  lemma {:induction false} LhsOnSet(vars: set<nat>, c: int, x: seq<int>)
    ensures Lhs(OnSet(vars, c), x) == c * Total(x, vars)
    decreases |vars|
  {
    if vars != {} {
      var k :| k in vars;
      var rest := vars - {k};
      assert OnSet(vars, c) == OnSet(rest, c)[k := c] by {
        assert OnSet(vars, c).Keys == OnSet(rest, c)[k := c].Keys;
      }
      LhsOnSet(rest, c, x);
      LhsUpdate(OnSet(rest, c), k, c, x);
      SumSetRemove(vars, ValueFn(x), k);
      MulDistributes(c, Total(x, vars), ValueAt(x, k), Total(x, rest));
    } else {
      assert OnSet(vars, c).Keys == {};
      assert Total(x, vars) == 0;
    }
  }

  lemma MulDistributes(c: int, s: int, a: int, b: int)
    requires s == a + b
    ensures c * s == c * a + c * b
  {
  }

  /** Over binary variables, the total counts the variables set. */
  lemma {:induction false} TotalBinary(x: seq<int>, vars: set<nat>)
    requires Binary(x, vars)
    ensures Total(x, vars) == |Selected(x, vars)|
    decreases |vars|
  {
    if vars != {} {
      var k :| k in vars;
      var rest := vars - {k};
      TotalBinary(x, rest);
      SumSetRemove(vars, ValueFn(x), k);
      if ValueAt(x, k) != 0 {
        assert Selected(x, vars) == Selected(x, rest) + {k};
      } else {
        assert Selected(x, vars) == Selected(x, rest);
      }
    }
  }

  // ---------------------------------------------------------------------
  // Indicator variables

  /** What findBestCellLabels reads of a cell: its labels, its alternative
      labels in increasing order, and its size. */
  datatype CellView = CellView(gtLabel: Label, recLabel: Label, alternatives: seq<Label>, size: nat)

  /** The view of a cell. */
  ghost predicate ViewOf(view: CellView, cell: Cell)
    reads cell
  {
    view.gtLabel == cell.groundTruthLabel && view.recLabel == cell.recLabel &&
    StrictlyIncreasing(view.alternatives) && Elems(view.alternatives) == cell.alternativeLabels &&
    view.size == |cell.content|
  }

  /** An indicator variable: assigning label to cell, either the cell's own
      label or one of its alternatives. */
  datatype Indicator = Indicator(cell: nat, gtLabel: Label, recLabel: Label, alternative: bool, size: nat)

  /** The indicators of cell c: its own label first, then one per
      alternative. */
  function Block(view: CellView, c: nat): (r: seq<Indicator>) {
    [Indicator(c, view.gtLabel, view.recLabel, false, view.size)] +
    seq(|view.alternatives|, j requires 0 <= j < |view.alternatives| =>
      Indicator(c, view.gtLabel, view.alternatives[j], true, view.size))
  }

  /** The block grows by one alternative at a time. */
  lemma BlockGrows(view: CellView, c: nat, j: nat)
    requires j < |view.alternatives|
    ensures Block(view, c)[..j + 2] ==
            Block(view, c)[..j + 1] + [Indicator(c, view.gtLabel, view.alternatives[j], true, view.size)]
  {
  }

  /** The indicators of all cells, block after block. */
  function Labeling(views: seq<CellView>): seq<Indicator>
    decreases |views|
  {
    if views == [] then [] else Labeling(views[..|views| - 1]) + Block(views[|views| - 1], |views| - 1)
  }

  /** The first indicator of cell c. */
  function BlockStart(views: seq<CellView>, c: nat): nat
    requires c <= |views|
  {
    |Labeling(views[..c])|
  }

  /** The number of indicators: one per cell and one per alternative. */
  function NumIndicators(views: seq<CellView>): nat
    decreases |views|
  {
    if views == [] then 0 else NumIndicators(views[..|views| - 1]) + 1 + |views[|views| - 1].alternatives|
  }

  /** The labeling of a prefix of the cells is a prefix of the labeling. */
  lemma {:induction false} LabelingPrefix(views: seq<CellView>, c: nat)
    requires c <= |views|
    ensures |Labeling(views[..c])| <= |Labeling(views)|
    ensures Labeling(views)[..|Labeling(views[..c])|] == Labeling(views[..c])
    decreases |views|
  {
    if c < |views| {
      var init := views[..|views| - 1];
      assert init[..c] == views[..c];
      LabelingPrefix(init, c);
    } else {
      assert views[..c] == views;
    }
  }

  /** The labeling of one more cell appends its block, and its cell
      constraint covers that block. */
  lemma LabelingStep(views: seq<CellView>, c: nat)
    requires c < |views|
    ensures Labeling(views[..c + 1]) == Labeling(views[..c]) + Block(views[c], c)
    ensures CellConstraint(views, c) ==
      Constraint(OnSet(Interval(|Labeling(views[..c])|, |Labeling(views[..c + 1])|), 1), Equal, 1)
  {
    assert views[..c + 1][..c] == views[..c];
  }

  /** The indicators of cell c form the contiguous block BlockStart(c) ..
      BlockStart(c + 1) - 1, of size one plus the number of alternatives;
      there are NumIndicators indicators in all. */
  lemma {:induction false} BlockAt(views: seq<CellView>, c: nat)
    requires c < |views|
    ensures BlockStart(views, c + 1) == BlockStart(views, c) + 1 + |views[c].alternatives|
    ensures BlockStart(views, c + 1) <= |Labeling(views)| == NumIndicators(views)
    ensures Labeling(views)[BlockStart(views, c)..BlockStart(views, c + 1)] == Block(views[c], c)
    decreases |views|
  {
    var init := views[..|views| - 1];
    assert views[..c + 1][..c] == views[..c];
    LabelingPrefix(views, c + 1);
    if c + 1 < |views| {
      assert init[..c] == views[..c] && init[..c + 1] == views[..c + 1];
      BlockAt(init, c);
    } else {
      assert views[..c + 1] == views && init == views[..c];
      NumIndicatorsIsLength(views);
    }
  }

  lemma {:induction false} NumIndicatorsIsLength(views: seq<CellView>)
    ensures |Labeling(views)| == NumIndicators(views)
    decreases |views|
  {
    if views != [] {
      NumIndicatorsIsLength(views[..|views| - 1]);
    }
  }

  /** Every indicator names a cell, and lies in that cell's block. */
  lemma {:induction false} IndicatorInBlock(views: seq<CellView>, v: nat)
    requires v < |Labeling(views)|
    ensures Labeling(views)[v].cell < |views|
    ensures BlockStart(views, Labeling(views)[v].cell) <= v < BlockStart(views, Labeling(views)[v].cell + 1)
    decreases |views|
  {
    var last := |views| - 1;
    var init := views[..last];
    assert views[..last] == init;
    if v < |Labeling(init)| {
      IndicatorInBlock(init, v);
      var c := Labeling(init)[v].cell;
      assert init[..c] == views[..c] && init[..c + 1] == views[..c + 1];
    } else {
      assert views[..last + 1] == views;
    }
  }

  /** Every indicator names one of the cells and carries its ground-truth
      label. */
  lemma IndicatorCells(views: seq<CellView>)
    ensures forall v | 0 <= v < |Labeling(views)| ::
      Labeling(views)[v].cell < |views| && Labeling(views)[v].gtLabel == views[Labeling(views)[v].cell].gtLabel
  {
    forall v | 0 <= v < |Labeling(views)|
      ensures Labeling(views)[v].cell < |views| && Labeling(views)[v].gtLabel == views[Labeling(views)[v].cell].gtLabel
    {
      IndicatorGtLabel(views, v);
    }
  }

  /** Every indicator carries the ground-truth label of its cell. */
  lemma IndicatorGtLabel(views: seq<CellView>, v: nat)
    requires v < |Labeling(views)|
    ensures Labeling(views)[v].cell < |views|
    ensures Labeling(views)[v].gtLabel == views[Labeling(views)[v].cell].gtLabel
  {
    IndicatorInBlock(views, v);
    BlockMember(views, Labeling(views)[v].cell, v);
  }

  /** An indicator in the block of cell c names c, its ground-truth label,
      and its own label or one of its alternatives. */
  lemma BlockMember(views: seq<CellView>, c: nat, v: nat)
    requires c < |views| && BlockStart(views, c) <= v < BlockStart(views, c + 1)
    ensures v < |Labeling(views)| && Labeling(views)[v].cell == c && Labeling(views)[v].gtLabel == views[c].gtLabel
    ensures Labeling(views)[v].recLabel == views[c].recLabel || Labeling(views)[v].recLabel in views[c].alternatives
  {
    BlockAt(views, c);
    var lab, start, end := Labeling(views), BlockStart(views, c), BlockStart(views, c + 1);
    SliceAt(lab, start, end, v);
    BlockEntry(views[c], c, v - start);
  }

  lemma SliceAt<T>(s: seq<T>, begin: nat, end: nat, i: nat)
    requires begin <= i < end <= |s|
    ensures s[begin..end][i - begin] == s[i]
  {
  }

  /** Entry k of the block of a cell: the cell, its ground-truth label, and
      its own label (k == 0) or an alternative. */
  lemma BlockEntry(view: CellView, c: nat, k: nat)
    requires k < 1 + |view.alternatives|
    ensures k < |Block(view, c)| && Block(view, c)[k].cell == c && Block(view, c)[k].gtLabel == view.gtLabel
    ensures Block(view, c)[k].recLabel == view.recLabel || Block(view, c)[k].recLabel in view.alternatives
  {
    if k > 0 {
      assert Block(view, c)[k] == Indicator(c, view.gtLabel, view.alternatives[k - 1], true, view.size);
    }
  }

  /** The lookups of the indicator maps; a label never assigned has no
      indicators. */
  function ByRec(byRec: map<Label, seq<nat>>, r: Label): seq<nat> {
    if r in byRec then byRec[r] else []
  }

  function GtRow(byGtToRec: map<Label, map<Label, seq<nat>>>, g: Label): map<Label, seq<nat>> {
    if g in byGtToRec then byGtToRec[g] else map[]
  }

  function ByGtToRec(byGtToRec: map<Label, map<Label, seq<nat>>>, g: Label, r: Label): seq<nat> {
    ByRec(GtRow(byGtToRec, g), r)
  }

  /** The indicators of reconstruction label r. */
  function IndicesOf(lab: seq<Indicator>, r: Label): set<nat> {
    set v: nat | v < |lab| && lab[v].recLabel == r
  }

  /** The indicators of reconstruction label r in cells of ground-truth
      label g. */
  function IndicesOfPair(lab: seq<Indicator>, g: Label, r: Label): set<nat> {
    set v: nat | v < |lab| && lab[v].recLabel == r && lab[v].gtLabel == g
  }

  /** The alternative indicators, each with the size of its cell. */
  function AlternativesOf(lab: seq<Indicator>): set<(nat, nat)> {
    set v: nat | v < |lab| && lab[v].alternative :: (v, lab[v].size)
  }

  function PairElems(ps: seq<(nat, nat)>): set<(nat, nat)> {
    set p | p in ps
  }

  /** The labeling maps each indicator to its cell and label. */
  ghost predicate LabelingDescribes(lab: seq<Indicator>, labelingByVar: map<nat, (nat, Label)>) {
    (forall v: nat :: v in labelingByVar <==> v < |lab|) &&
    (forall v | 0 <= v < |lab| :: labelingByVar[v] == (lab[v].cell, lab[v].recLabel))
  }

  /** The by-label map lists exactly the indicators of each label. */
  ghost predicate ByRecDescribes(lab: seq<Indicator>, byRec: map<Label, seq<nat>>) {
    forall r :: Elems(ByRec(byRec, r)) == IndicesOf(lab, r)
  }

  /** The by-pair map lists exactly the indicators of each (ground truth,
      reconstruction) pair, in ascending order. */
  ghost predicate ByGtToRecDescribes(lab: seq<Indicator>, byGtToRec: map<Label, map<Label, seq<nat>>>) {
    forall g, r :: StrictlyIncreasing(ByGtToRec(byGtToRec, g, r)) && Elems(ByGtToRec(byGtToRec, g, r)) == IndicesOfPair(lab, g, r)
  }

  /** The indicator maps describe the indicators lab; the alternative list
      holds each alternative indicator with its cell's size. */
  ghost predicate AssignedMaps(lab: seq<Indicator>, byRec: map<Label, seq<nat>>,
                               byGtToRec: map<Label, map<Label, seq<nat>>>, labelingByVar: map<nat, (nat, Label)>,
                               alternativeIndicators: seq<(nat, nat)>)
  {
    LabelingDescribes(lab, labelingByVar) && ByRecDescribes(lab, byRec) &&
    ByGtToRecDescribes(lab, byGtToRec) && PairElems(alternativeIndicators) == AlternativesOf(lab)
  }

  lemma IndicesAppend(lab: seq<Indicator>, ind: Indicator)
    ensures forall r ::
      IndicesOf(lab + [ind], r) == IndicesOf(lab, r) + (if ind.recLabel == r then {|lab|} else {})
    ensures forall g, r ::
      IndicesOfPair(lab + [ind], g, r) ==
      IndicesOfPair(lab, g, r) + (if ind.recLabel == r && ind.gtLabel == g then {|lab|} else {})
    ensures AlternativesOf(lab + [ind]) ==
      AlternativesOf(lab) + (if ind.alternative then {(|lab|, ind.size)} else {})
  {
    var lab' := lab + [ind];
    assert forall v | 0 <= v < |lab| :: lab'[v] == lab[v];
    assert lab'[|lab|] == ind;
  }

  /** Appending v to a list under a key. */
  function Push(m: map<Label, seq<nat>>, k: Label, v: nat): map<Label, seq<nat>> {
    m[k := ByRec(m, k) + [v]]
  }

  function PushGtToRec(m: map<Label, map<Label, seq<nat>>>, g: Label, r: Label, v: nat)
    : map<Label, map<Label, seq<nat>>>
  {
    m[g := Push(GtRow(m, g), r, v)]
  }

  lemma PushLookup(m: map<Label, seq<nat>>, k: Label, v: nat)
    ensures forall j :: ByRec(Push(m, k, v), j) == if j == k then ByRec(m, k) + [v] else ByRec(m, j)
  {
  }

  lemma PushGtToRecLookup(m: map<Label, map<Label, seq<nat>>>, g: Label, r: Label, v: nat)
    ensures forall g', r' | g' != g || r' != r :: ByGtToRec(PushGtToRec(m, g, r, v), g', r') == ByGtToRec(m, g', r')
    ensures ByGtToRec(PushGtToRec(m, g, r, v), g, r) == ByGtToRec(m, g, r) + [v]
  {
    PushLookup(GtRow(m, g), r, v);
  }

  lemma ByRecStep(lab: seq<Indicator>, byRec: map<Label, seq<nat>>, ind: Indicator)
    requires ByRecDescribes(lab, byRec)
    ensures ByRecDescribes(lab + [ind], Push(byRec, ind.recLabel, |lab|))
  {
    IndicesAppend(lab, ind);
    PushLookup(byRec, ind.recLabel, |lab|);
    forall r ensures Elems(ByRec(Push(byRec, ind.recLabel, |lab|), r)) == IndicesOf(lab + [ind], r) {
      assert Elems(ByRec(byRec, r) + [|lab|]) == Elems(ByRec(byRec, r)) + {|lab|};
    }
  }

  lemma ByGtToRecStep(lab: seq<Indicator>, byGtToRec: map<Label, map<Label, seq<nat>>>, ind: Indicator)
    requires ByGtToRecDescribes(lab, byGtToRec)
    ensures ByGtToRecDescribes(lab + [ind], PushGtToRec(byGtToRec, ind.gtLabel, ind.recLabel, |lab|))
  {
    var m := PushGtToRec(byGtToRec, ind.gtLabel, ind.recLabel, |lab|);
    forall g, r ensures StrictlyIncreasing(ByGtToRec(m, g, r)) && Elems(ByGtToRec(m, g, r)) == IndicesOfPair(lab + [ind], g, r) {
      ByGtToRecPairStep(lab, byGtToRec, ind, g, r);
    }
  }

  /** ByGtToRecStep for the list of one pair (g, r). */
  lemma ByGtToRecPairStep(lab: seq<Indicator>, byGtToRec: map<Label, map<Label, seq<nat>>>, ind: Indicator,
                          g: Label, r: Label)
    requires StrictlyIncreasing(ByGtToRec(byGtToRec, g, r)) && Elems(ByGtToRec(byGtToRec, g, r)) == IndicesOfPair(lab, g, r)
    ensures var m := PushGtToRec(byGtToRec, ind.gtLabel, ind.recLabel, |lab|);
      StrictlyIncreasing(ByGtToRec(m, g, r)) && Elems(ByGtToRec(m, g, r)) == IndicesOfPair(lab + [ind], g, r)
  {
    IndicesAppend(lab, ind);
    PushGtToRecLookup(byGtToRec, ind.gtLabel, ind.recLabel, |lab|);
    if g == ind.gtLabel && r == ind.recLabel {
      var vs := ByGtToRec(byGtToRec, g, r);
      assert Elems(vs + [|lab|]) == Elems(vs) + {|lab|};
      assert forall i | 0 <= i < |vs| :: vs[i] in Elems(vs);
    }
  }

  /** Assigning the next variable to an indicator keeps the maps describing
      the indicators. */
  lemma AssignStep(lab: seq<Indicator>, byRec: map<Label, seq<nat>>, byGtToRec: map<Label, map<Label, seq<nat>>>,
                   labelingByVar: map<nat, (nat, Label)>, alternativeIndicators: seq<(nat, nat)>, ind: Indicator)
    requires AssignedMaps(lab, byRec, byGtToRec, labelingByVar, alternativeIndicators)
    ensures AssignedMaps(lab + [ind], Push(byRec, ind.recLabel, |lab|),
                         PushGtToRec(byGtToRec, ind.gtLabel, ind.recLabel, |lab|),
                         labelingByVar[|lab| := (ind.cell, ind.recLabel)],
                         if ind.alternative then alternativeIndicators + [(|lab|, ind.size)] else alternativeIndicators)
  {
    var lab' := lab + [ind];
    assert forall v | 0 <= v < |lab| :: lab'[v] == lab[v];
    assert LabelingDescribes(lab', labelingByVar[|lab| := (ind.cell, ind.recLabel)]);
    ByRecStep(lab, byRec, ind);
    ByGtToRecStep(lab, byGtToRec, ind);
    IndicesAppend(lab, ind);
    if ind.alternative {
      assert PairElems(alternativeIndicators + [(|lab|, ind.size)]) == PairElems(alternativeIndicators) + {(|lab|, ind.size)};
    }
  }

  // ---------------------------------------------------------------------
  // Match variables

  /** The match variable of (g, r), if one was assigned. */
  predicate HasMatchVar(matchVars: map<Label, map<Label, nat>>, g: Label, r: Label) {
    g in matchVars && r in matchVars[g]
  }

  function MatchVar(matchVars: map<Label, map<Label, nat>>, g: Label, r: Label): nat {
    if HasMatchVar(matchVars, g, r) then matchVars[g][r] else 0
  }

  /** The pairs (g, r) for the labels rs, in order. */
  function PairsOf(g: Label, rs: seq<Label>): (r: seq<(Label, Label)>)
    ensures |r| == |rs|
  {
    seq(|rs|, j requires 0 <= j < |rs| => (g, rs[j]))
  }

  lemma PairsOfMembers(g: Label, rs: seq<Label>)
    ensures forall g', r' :: (g', r') in PairsOf(g, rs) <==> g' == g && r' in rs
  {
    forall g', r' ensures (g', r') in PairsOf(g, rs) <==> g' == g && r' in rs {
      if g' == g && r' in rs {
        var j :| 0 <= j < |rs| && rs[j] == r';
        assert PairsOf(g, rs)[j] == (g', r');
      }
    }
  }

  /** The pairs that get a match variable, in allocation order: every
      ground-truth label of gts in turn, with each of its possible matches in
      ascending order. */
  ghost function MatchPairs(gts: seq<Label>, byGt: map<Label, set<Label>>): seq<(Label, Label)>
    decreases |gts|
  {
    if gts == [] then [] else
      MatchPairs(gts[..|gts| - 1], byGt) + PairsOf(gts[|gts| - 1], Sorted(Lookup(byGt, gts[|gts| - 1])))
  }

  lemma MatchPairsSnoc(gts: seq<Label>, i: nat, byGt: map<Label, set<Label>>)
    requires i < |gts|
    ensures MatchPairs(gts[..i + 1], byGt) == MatchPairs(gts[..i], byGt) + PairsOf(gts[i], Sorted(Lookup(byGt, gts[i])))
  {
    assert gts[..i + 1][..i] == gts[..i];
  }

  lemma PairsOfSnoc(g: Label, rs: seq<Label>, j: nat)
    requires j < |rs|
    ensures PairsOf(g, rs[..j + 1]) == PairsOf(g, rs[..j]) + [(g, rs[j])]
  {
  }

  /** The pairs are exactly those of a listed ground-truth label and one of
      its possible matches. */
  lemma {:induction false} MatchPairsMembers(gts: seq<Label>, byGt: map<Label, set<Label>>)
    ensures forall g, r :: (g, r) in MatchPairs(gts, byGt) <==> g in gts && r in Lookup(byGt, g)
    decreases |gts|
  {
    if gts != [] {
      var init, g := gts[..|gts| - 1], gts[|gts| - 1];
      MatchPairsMembers(init, byGt);
      var rs := Sorted(Lookup(byGt, g));
      PairsOfMembers(g, rs);
      forall g', r' ensures (g', r') in MatchPairs(gts, byGt) <==> g' in gts && r' in Lookup(byGt, g') {
        assert g' in gts <==> g' in init || g' == g by {
          assert gts == init + [g];
        }
      }
    }
  }

  /** The match variables are numbered from start in the order of pairs, and
      no other pair has one. */
  ghost predicate MatchVarsDescribe(matchVars: map<Label, map<Label, nat>>, pairs: seq<(Label, Label)>, start: nat) {
    (forall g: Label, r: Label :: HasMatchVar(matchVars, g, r) <==> (g, r) in pairs) &&
    (forall i | 0 <= i < |pairs| :: MatchVar(matchVars, pairs[i].0, pairs[i].1) == start + i)
  }

  /** The row of ground-truth label g of the match variables. */
  function MatchRow(matchVars: map<Label, map<Label, nat>>, g: Label): map<Label, nat> {
    if g in matchVars then matchVars[g] else map[]
  }

  /** The match variables after (g, r) is given variable v. */
  function AssignMatch(matchVars: map<Label, map<Label, nat>>, g: Label, r: Label, v: nat)
    : map<Label, map<Label, nat>>
  {
    matchVars[g := MatchRow(matchVars, g)[r := v]]
  }

  /** Numbering a pair not numbered before with the next variable keeps the
      numbering in the order of the pairs. */
  lemma MatchStep(matchVars: map<Label, map<Label, nat>>, pairs: seq<(Label, Label)>, start: nat, g: Label, r: Label)
    requires MatchVarsDescribe(matchVars, pairs, start) && (g, r) !in pairs
    ensures MatchVarsDescribe(AssignMatch(matchVars, g, r, start + |pairs|), pairs + [(g, r)], start)
  {
    var after := AssignMatch(matchVars, g, r, start + |pairs|);
    forall g': Label, r': Label
      ensures HasMatchVar(after, g', r') == (HasMatchVar(matchVars, g', r') || (g', r') == (g, r))
      ensures HasMatchVar(after, g', r') && (g', r') != (g, r) ==> MatchVar(after, g', r') == MatchVar(matchVars, g', r')
    {
    }
    var pairs' := pairs + [(g, r)];
    forall i | 0 <= i < |pairs'| ensures MatchVar(after, pairs'[i].0, pairs'[i].1) == start + i {
      if i < |pairs| {
        assert pairs'[i] == pairs[i] && pairs[i] in pairs;
      }
    }
  }

  /** Numbering the pairs of g with its partners rs one after the other,
      after pairs that do not involve g. */
  lemma MatchPartnerStep(matchVars: map<Label, map<Label, nat>>, pairs: seq<(Label, Label)>, start: nat,
                         g: Label, rs: seq<Label>, j: nat)
    requires j < |rs| && StrictlyIncreasing(rs) && forall r :: (g, r) !in pairs
    requires MatchVarsDescribe(matchVars, pairs + PairsOf(g, rs[..j]), start)
    ensures MatchVarsDescribe(AssignMatch(matchVars, g, rs[j], start + |pairs| + j), pairs + PairsOf(g, rs[..j + 1]), start)
  {
    var done := pairs + PairsOf(g, rs[..j]);
    PairsOfMembers(g, rs[..j]);
    assert rs[j] !in rs[..j];
    MatchStep(matchVars, done, start, g, rs[j]);
    PairsOfSnoc(g, rs, j);
    assert pairs + PairsOf(g, rs[..j + 1]) == done + [(g, rs[j])];
  }

  /** The match variable linking label l to its partner p: for a
      ground-truth label l the pair (l, p), for a reconstruction label the
      pair (p, l). */
  function PartnerVar(matchVars: map<Label, map<Label, nat>>, l: Label, p: Label, fromGt: bool): nat {
    if fromGt then MatchVar(matchVars, l, p) else MatchVar(matchVars, p, l)
  }

  /** The match variables of the partners of l. */
  function PartnerVars(matchVars: map<Label, map<Label, nat>>, l: Label, partners: set<Label>, fromGt: bool): set<nat> {
    set p | p in partners :: PartnerVar(matchVars, l, p, fromGt)
  }

  lemma PartnerVarsInsert(matchVars: map<Label, map<Label, nat>>, l: Label, partners: set<Label>, p: Label, fromGt: bool)
    ensures PartnerVars(matchVars, l, partners + {p}, fromGt) ==
            PartnerVars(matchVars, l, partners, fromGt) + {PartnerVar(matchVars, l, p, fromGt)}
  {
  }

  /** The match variables of the partners of each of labels. */
  function PartnerVarSets(matchVars: map<Label, map<Label, nat>>, labels: seq<Label>, partners: map<Label, set<Label>>,
                          fromGt: bool): (r: seq<set<nat>>)
    ensures |r| == |labels|
  {
    seq(|labels|, k requires 0 <= k < |labels| => PartnerVars(matchVars, labels[k], Lookup(partners, labels[k]), fromGt))
  }

  // ---------------------------------------------------------------------
  // The constraints of findBestCellLabels

  /** Every cell takes exactly one of its labels: the indicators of its
      block sum to 1. */
  function CellConstraint(views: seq<CellView>, c: nat): Constraint
    requires c < |views|
  {
    Constraint(OnSet(Interval(BlockStart(views, c), BlockStart(views, c + 1)), 1), Equal, 1)
  }

  function CellConstraints(views: seq<CellView>): (r: seq<Constraint>)
    ensures |r| == |views|
  {
    seq(|views|, c requires 0 <= c < |views| => CellConstraint(views, c))
  }

  /** A reconstruction label cannot disappear: at least one of its
      indicators is set. */
  ghost function LabelConstraint(lab: seq<Indicator>, r: Label): Constraint {
    Constraint(OnSet(IndicesOf(lab, r), 1), GreaterEqual, 1)
  }

  ghost function LabelConstraints(lab: seq<Indicator>, recLabels: seq<Label>): (r: seq<Constraint>)
    ensures |r| == |recLabels|
  {
    seq(|recLabels|, k requires 0 <= k < |recLabels| => LabelConstraint(lab, recLabels[k]))
  }

  lemma LabelConstraintsSnoc(lab: seq<Indicator>, recLabels: seq<Label>, r: Label)
    ensures LabelConstraints(lab, recLabels + [r]) == LabelConstraints(lab, recLabels) + [LabelConstraint(lab, r)]
  {
  }

  /** Assigning the pair's labels by indicator v activates match m:
      m - v >= 0. */
  function LinkConstraint(m: nat, v: nat): Constraint {
    Constraint(map[m := 1][v := -1], GreaterEqual, 0)
  }

  /** Without an assignment of the pair's labels, m is 0: sum(vars) - m >= 0. */
  function NoMatchConstraint(vars: set<nat>, m: nat): Constraint {
    Constraint(OnSet(vars, 1)[m := -1], GreaterEqual, 0)
  }

  /** The constraints of the pair (g, r) with match variable m: one link per
      indicator of the pair, in ascending order, then the no-match
      constraint. */
  ghost function PairConstraints(lab: seq<Indicator>, g: Label, r: Label, m: nat): seq<Constraint> {
    var vs := Sorted(IndicesOfPair(lab, g, r));
    seq(|vs|, k requires 0 <= k < |vs| => LinkConstraint(m, vs[k])) + [NoMatchConstraint(IndicesOfPair(lab, g, r), m)]
  }

  /** The constraints of the pairs (g, r) for r in rs, in order. */
  ghost function PartnerConstraints(lab: seq<Indicator>, g: Label, rs: seq<Label>,
                                    matchVars: map<Label, map<Label, nat>>): seq<Constraint>
    decreases |rs|
  {
    if rs == [] then [] else
      var r := rs[|rs| - 1];
      PartnerConstraints(lab, g, rs[..|rs| - 1], matchVars) + PairConstraints(lab, g, r, MatchVar(matchVars, g, r))
  }

  lemma PartnerConstraintsSnoc(lab: seq<Indicator>, g: Label, rs: seq<Label>, matchVars: map<Label, map<Label, nat>>,
                               j: nat)
    requires j < |rs|
    ensures PartnerConstraints(lab, g, rs[..j + 1], matchVars) ==
            PartnerConstraints(lab, g, rs[..j], matchVars) + PairConstraints(lab, g, rs[j], MatchVar(matchVars, g, rs[j]))
  {
    assert rs[..j + 1][..j] == rs[..j];
  }

  /** The constraints of all pairs, ground-truth label after ground-truth
      label of gts, each with the possible matches in ascending order. */
  ghost function MatchConstraints(lab: seq<Indicator>, gts: seq<Label>, byGt: map<Label, set<Label>>,
                                  matchVars: map<Label, map<Label, nat>>): seq<Constraint>
    decreases |gts|
  {
    if gts == [] then [] else
      var g := gts[|gts| - 1];
      MatchConstraints(lab, gts[..|gts| - 1], byGt, matchVars) +
        PartnerConstraints(lab, g, Sorted(Lookup(byGt, g)), matchVars)
  }

  lemma MatchConstraintsSnoc(lab: seq<Indicator>, gts: seq<Label>, byGt: map<Label, set<Label>>,
                             matchVars: map<Label, map<Label, nat>>, i: nat)
    requires i < |gts|
    ensures MatchConstraints(lab, gts[..i + 1], byGt, matchVars) ==
            MatchConstraints(lab, gts[..i], byGt, matchVars) +
            PartnerConstraints(lab, gts[i], Sorted(Lookup(byGt, gts[i])), matchVars)
  {
    assert gts[..i + 1][..i] == gts[..i];
  }

  /** A counter variable s is not negative. */
  function PositiveConstraint(s: nat): Constraint {
    Constraint(map[s := 1], GreaterEqual, 0)
  }

  /** A counter variable s is one less than the number of partners:
      s - sum(vars) = -1 (a partner that were s itself would win). */
  function CountConstraint(vars: set<nat>, s: nat): Constraint {
    Constraint(map[s := 1] + OnSet(vars, -1), Equal, -1)
  }

  /** The counters for the partner sets varSets, numbered from begin: each
      is not negative and one less than its number of partners. */
  function CountConstraints(varSets: seq<set<nat>>, begin: nat): seq<Constraint>
    decreases |varSets|
  {
    if varSets == [] then [] else
      var last := |varSets| - 1;
      CountConstraints(varSets[..last], begin) +
        [PositiveConstraint(begin + last), CountConstraint(varSets[last], begin + last)]
  }

  /** The counter constraints of the first k + 1 variable sets, from those
      of the first k. */
  lemma CountConstraintsStep(varSets: seq<set<nat>>, k: nat, begin: nat, count: Constraint)
    requires k < |varSets| && count == CountConstraint(varSets[k], begin + k)
    ensures CountConstraints(varSets[..k + 1], begin) ==
            CountConstraints(varSets[..k], begin) + [PositiveConstraint(begin + k), count]
  {
    assert varSets[..k + 1][..k] == varSets[..k];
  }

  /** The total counter is the sum of the counters begin .. end - 1. */
  function TotalConstraint(begin: nat, end: nat, total: nat): Constraint {
    Constraint(map[total := 1] + OnSet(Interval(begin, end), -1), Equal, 0)
  }

  /** The first split counter: after the indicators and the match
      variables. */
  ghost function SplitBegin(views: seq<CellView>, gts: seq<Label>, byGt: map<Label, set<Label>>): nat {
    NumIndicators(views) + |MatchPairs(gts, byGt)|
  }

  /** The counters of labels numbered from begin, each at least 0 and equal
      to the number of matches of its label minus one, then their total at
      begin + |labels|. */
  ghost function CounterPart(matchVars: map<Label, map<Label, nat>>, labels: seq<Label>,
                             partners: map<Label, set<Label>>, fromGt: bool, begin: nat): seq<Constraint>
  {
    CountConstraints(PartnerVarSets(matchVars, labels, partners, fromGt), begin) +
      [TotalConstraint(begin, begin + |labels|, begin + |labels|)]
  }

  /** The constraints after the cell constraints, phase after phase: the
      reconstruction labels, the matches, the split counters numbered from
      splitBegin and their total, the merge counters and their total. */
  ghost function TailConstraints(lab: seq<Indicator>, gts: seq<Label>, recs: seq<Label>,
                                 byGt: map<Label, set<Label>>, byRec: map<Label, set<Label>>,
                                 matchVars: map<Label, map<Label, nat>>, splitBegin: nat): seq<Constraint>
  {
    LabelConstraints(lab, recs) + MatchConstraints(lab, gts, byGt, matchVars) +
      CounterPart(matchVars, gts, byGt, true, splitBegin) +
      CounterPart(matchVars, recs, byRec, false, splitBegin + |gts| + 1)
  }

  /** The constraints of findBestCellLabels: the cell constraints, then the
      rest with the split counters after the indicators and the match
      variables. */
  ghost function ProgramConstraints(views: seq<CellView>, gts: seq<Label>, recs: seq<Label>,
                                    byGt: map<Label, set<Label>>, byRec: map<Label, set<Label>>,
                                    matchVars: map<Label, map<Label, nat>>): seq<Constraint>
  {
    CellConstraints(views) + TailConstraints(Labeling(views), gts, recs, byGt, byRec, matchVars, SplitBegin(views, gts, byGt))
  }

  /** What findBestCellLabels builds after the indicators of views: the
      match variables of the ground-truth labels gtSet in ascending order,
      the constraints, the split and merge totals, the integer variables
      (the counters and their totals) and the objective. */
  ghost predicate ProgramOf(views: seq<CellView>, gtSet: set<Label>, recSet: set<Label>,
                            byGt: map<Label, set<Label>>, byRec: map<Label, set<Label>>, volume: nat,
                            matchVars: map<Label, map<Label, nat>>, splits: nat, merges: nat,
                            constraints: seq<Constraint>, integerVariables: set<nat>, objective: Objective)
  {
    var gts := Sorted(gtSet);
    var recs := Sorted(recSet);
    MatchVarsDescribe(matchVars, MatchPairs(gts, byGt), NumIndicators(views)) &&
    splits == SplitBegin(views, gts, byGt) + |gts| && merges == splits + 1 + |recs| &&
    constraints == ProgramConstraints(views, gts, recs, byGt, byRec, matchVars) &&
    integerVariables == Interval(SplitBegin(views, gts, byGt), merges + 1) &&
    objective == ObjectiveOf(merges + 1, splits, merges, Labeling(views), volume)
  }

  /** ProgramOf from its parts, with the sorted labels and the first
      split counter named. */
  lemma ProgramOfParts(views: seq<CellView>, gtSet: set<Label>, recSet: set<Label>,
                       byGt: map<Label, set<Label>>, byRec: map<Label, set<Label>>, volume: nat,
                       matchVars: map<Label, map<Label, nat>>, splits: nat, merges: nat,
                       constraints: seq<Constraint>, integerVariables: set<nat>, objective: Objective,
                       gts: seq<Label>, recs: seq<Label>, splitBegin: nat)
    requires gts == Sorted(gtSet) && recs == Sorted(recSet) && splitBegin == SplitBegin(views, gts, byGt)
    requires MatchVarsDescribe(matchVars, MatchPairs(gts, byGt), NumIndicators(views))
    requires splits == splitBegin + |gts| && merges == splits + 1 + |recs|
    requires constraints == CellConstraints(views) + TailConstraints(Labeling(views), gts, recs, byGt, byRec, matchVars, splitBegin)
    requires integerVariables == Interval(splitBegin, merges + 1)
    requires objective == ObjectiveOf(merges + 1, splits, merges, Labeling(views), volume)
    ensures ProgramOf(views, gtSet, recSet, byGt, byRec, volume, matchVars, splits, merges, constraints,
                      integerVariables, objective)
  {
    assert constraints == ProgramConstraints(views, gts, recs, byGt, byRec, matchVars);
  }

  // ---------------------------------------------------------------------
  // What the constraints mean for a solution

  /** Over binary indicators, the cell constraint holds exactly when one
      indicator of the cell's block is set. */
  lemma CellConstraintMeaning(views: seq<CellView>, c: nat, x: seq<int>)
    requires c < |views|
    requires Binary(x, Interval(BlockStart(views, c), BlockStart(views, c + 1)))
    ensures Holds(CellConstraint(views, c), x) <==>
            |Selected(x, Interval(BlockStart(views, c), BlockStart(views, c + 1)))| == 1
  {
    var block := Interval(BlockStart(views, c), BlockStart(views, c + 1));
    LhsOnSet(block, 1, x);
    TotalBinary(x, block);
  }

  /** Over binary indicators, the label constraint holds exactly when some
      indicator of the label is set. */
  lemma LabelConstraintMeaning(lab: seq<Indicator>, r: Label, x: seq<int>)
    requires Binary(x, IndicesOf(lab, r))
    ensures Holds(LabelConstraint(lab, r), x) <==> Selected(x, IndicesOf(lab, r)) != {}
  {
    LhsOnSet(IndicesOf(lab, r), 1, x);
    TotalBinary(x, IndicesOf(lab, r));
  }

  lemma LinkValue(m: nat, v: nat, x: seq<int>)
    requires m != v
    ensures Lhs(LinkConstraint(m, v).coefficients, x) == ValueAt(x, m) - ValueAt(x, v)
  {
    LhsEmpty(x);
    LhsUpdate(map[], m, 1, x);
    LhsUpdate(map[m := 1], v, -1, x);
  }

  /** Over binary variables, the link and no-match constraints of a pair
      hold exactly when its match variable is 1 if some indicator of the
      pair is set and 0 otherwise. */
  lemma MatchConstraintsMeaning(vars: set<nat>, m: nat, x: seq<int>)
    requires m !in vars && Binary(x, vars + {m})
    ensures (forall v | v in vars :: Holds(LinkConstraint(m, v), x)) && Holds(NoMatchConstraint(vars, m), x) <==>
            ValueAt(x, m) == if Selected(x, vars) != {} then 1 else 0
  {
    var links := forall v | v in vars :: Holds(LinkConstraint(m, v), x);
    NoMatchValue(vars, m, x);
    forall v | v in vars ensures Holds(LinkConstraint(m, v), x) <==> ValueAt(x, m) >= ValueAt(x, v) {
      LinkValue(m, v, x);
    }
    if Selected(x, vars) != {} {
      var v :| v in Selected(x, vars);
      assert links ==> ValueAt(x, m) >= 1;
    } else {
      assert links;
    }
  }

  lemma NoMatchValue(vars: set<nat>, m: nat, x: seq<int>)
    requires m !in vars && Binary(x, vars)
    ensures Holds(NoMatchConstraint(vars, m), x) <==> |Selected(x, vars)| >= ValueAt(x, m)
  {
    LhsOnSet(vars, 1, x);
    TotalBinary(x, vars);
    LhsUpdate(OnSet(vars, 1), m, -1, x);
  }

  /** The counter constraints of s hold exactly when s is one less than the
      total of its partners and that total is positive; over binary
      partners, one less than the number of partners set. */
  lemma CountConstraintsMeaning(vars: set<nat>, s: nat, x: seq<int>)
    requires s !in vars
    ensures Holds(PositiveConstraint(s), x) && Holds(CountConstraint(vars, s), x) <==>
            ValueAt(x, s) == Total(x, vars) - 1 >= 0
    ensures Binary(x, vars) ==>
            (Holds(PositiveConstraint(s), x) && Holds(CountConstraint(vars, s), x) <==>
             ValueAt(x, s) == |Selected(x, vars)| - 1 >= 0)
  {
    LhsEmpty(x);
    LhsUpdate(map[], s, 1, x);
    assert map[][s := 1] == map[s := 1];
    assert map[s := 1] + OnSet(vars, -1) == OnSet(vars, -1)[s := 1];
    LhsOnSet(vars, -1, x);
    LhsUpdate(OnSet(vars, -1), s, 1, x);
    if Binary(x, vars) {
      TotalBinary(x, vars);
    }
  }

  /** The total constraint holds exactly when the total is the sum of the
      counters. */
  lemma TotalConstraintMeaning(begin: nat, end: nat, total: nat, x: seq<int>)
    requires !(begin <= total < end)
    ensures Holds(TotalConstraint(begin, end, total), x) <==> ValueAt(x, total) == Total(x, Interval(begin, end))
  {
    assert map[total := 1] + OnSet(Interval(begin, end), -1) == OnSet(Interval(begin, end), -1)[total := 1];
    LhsOnSet(Interval(begin, end), -1, x);
    LhsUpdate(OnSet(Interval(begin, end), -1), total, 1, x);
  }

  // ---------------------------------------------------------------------
  // The objective

  /** The objective coefficient of an alternative indicator of a cell of
      the given size in a volume of the given number of voxels. */
  function TieBreak(size: nat, volume: nat): real {
    size as real / (volume as real + 1.0)
  }

  /** The indicators recorded in a list of (indicator, size) pairs. */
  function Keys(ps: seq<(nat, nat)>): set<nat> {
    set p | p in ps :: p.0
  }

  /** The tie-breaking coefficients of the indicators of keys. */
  ghost function AlternativeCoefficientsOn(lab: seq<Indicator>, keys: set<nat>, volume: nat): map<nat, real> {
    map v | v in keys && v < |lab| :: TieBreak(lab[v].size, volume)
  }

  /** Setting the tie-breaking coefficient of one more indicator. */
  lemma AlternativeInsert(base: map<nat, real>, lab: seq<Indicator>, keys: set<nat>, v: nat, volume: nat)
    requires v < |lab|
    ensures (base + AlternativeCoefficientsOn(lab, keys, volume))[v := TieBreak(lab[v].size, volume)] ==
            base + AlternativeCoefficientsOn(lab, keys + {v}, volume)
  {
  }

  /** A list recording each alternative indicator with its cell's size
      gives every alternative indicator its tie-breaking coefficient. */
  lemma AlternativeKeys(lab: seq<Indicator>, alternatives: seq<(nat, nat)>, volume: nat)
    requires PairElems(alternatives) == AlternativesOf(lab)
    ensures forall k | 0 <= k < |alternatives| ::
      alternatives[k].0 < |lab| && alternatives[k].1 == lab[alternatives[k].0].size
    ensures AlternativeCoefficientsOn(lab, Keys(alternatives), volume) == AlternativeCoefficients(lab, volume)
  {
    forall k | 0 <= k < |alternatives|
      ensures alternatives[k].0 < |lab| && alternatives[k].1 == lab[alternatives[k].0].size
    {
      assert alternatives[k] in PairElems(alternatives);
    }
    forall v: nat ensures v in Keys(alternatives) && v < |lab| <==> v < |lab| && lab[v].alternative {
      if v < |lab| && lab[v].alternative {
        assert (v, lab[v].size) in AlternativesOf(lab);
        assert (v, lab[v].size) in PairElems(alternatives);
      }
      if v in Keys(alternatives) {
        var p :| p in alternatives && p.0 == v;
        assert p in PairElems(alternatives);
      }
    }
  }

  /** One tie-breaking coefficient per alternative indicator. */
  ghost function AlternativeCoefficients(lab: seq<Indicator>, volume: nat): map<nat, real> {
    map v: nat | v < |lab| && lab[v].alternative :: TieBreak(lab[v].size, volume)
  }

  /** Coefficient 1 on the total splits and merges, and the tie-breaking
      coefficient on every alternative indicator; minimised. */
  ghost function ObjectiveOf(numVars: nat, splits: nat, merges: nat, lab: seq<Indicator>, volume: nat): Objective {
    Objective(numVars, map[splits := 1.0][merges := 1.0] + AlternativeCoefficients(lab, volume), true)
  }

  function SumSizes(sizes: seq<nat>): nat {
    if sizes == [] then 0 else SumSizes(sizes[..|sizes| - 1]) + sizes[|sizes| - 1]
  }

  function SumTieBreaks(sizes: seq<nat>, volume: nat): real {
    if sizes == [] then 0.0 else SumTieBreaks(sizes[..|sizes| - 1], volume) + TieBreak(sizes[|sizes| - 1], volume)
  }

  lemma {:induction false} SumTieBreaksScaled(sizes: seq<nat>, volume: nat)
    ensures SumTieBreaks(sizes, volume) == SumSizes(sizes) as real / (volume as real + 1.0)
    decreases |sizes|
  {
    if sizes != [] {
      SumTieBreaksScaled(sizes[..|sizes| - 1], volume);
    }
  }

  /** Cells whose sizes add up to at most the volume (the cells of a volume
      are disjoint) have tie-breaking coefficients that add up to less than
      one: changing labels never outweighs one split or merge. */
  lemma TieBreaksBelowOne(sizes: seq<nat>, volume: nat)
    requires SumSizes(sizes) <= volume
    ensures 0.0 <= SumTieBreaks(sizes, volume) < 1.0
  {
    SumTieBreaksScaled(sizes, volume);
    FractionBelowOne(SumSizes(sizes) as real, volume as real + 1.0);
  }

  lemma FractionBelowOne(a: real, b: real)
    requires 0.0 <= a < b
    ensures 0.0 <= a / b < 1.0
  {
    assert a / b * b == a;
  }

  /** The number of voxels of a volume of the given extents. */
  function Volume(width: nat, height: nat, depth: nat): nat {
    var area: nat := width * height;
    area * depth
  }

  /** The volume as the engine computes it: the product of three unsigned
      32-bit extents, in unsigned 32-bit arithmetic. */
  function VolumeAsWritten(width: nat, height: nat, depth: nat): nat {
    Wrap32(Wrap32(width * height) * depth)
  }

  /** A volume of 2^32 voxels wraps to 0, and a single one-voxel cell then
      has a tie-breaking coefficient of 1, as large as a split. */
  lemma VolumeWraps()
    ensures VolumeAsWritten(65536, 65536, 1) == 0
    ensures SumSizes([1]) <= 65536 * 65536 * 1
    ensures SumTieBreaks([1], VolumeAsWritten(65536, 65536, 1)) == 1.0
  {
    assert Wrap32(65536 * 65536) == 0 by {
      assert Wrap32(U32) == Wrap32(U32 - U32);
    }
    assert SumSizes([1]) == SumSizes([]) + 1;
  }
}
