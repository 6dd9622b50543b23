/** The tolerant edit distance: the cells of a ground truth and a
    reconstruction are given labels by an integer linear program that
    minimises splits and merges among the labelings the tolerance function
    allows; the chosen labeling is read back into error counts and a
    corrected reconstruction. */
module Ted {
  import opened Base
  import opened Cells
  import opened Ordered
  import opened LocalTolerance
  import opened TedIlp
  import opened CellMaps
  import opened TedErrors
  import opened TedSolution

  /** The view of a cell: its labels, its alternatives in the order a
      std::set visits them, and its size. */
  ghost function ViewOfCell(cell: Cell): CellView
    reads cell
  {
    CellView(cell.groundTruthLabel, cell.recLabel, Sorted(cell.alternativeLabels), |cell.content|)
  }

  ghost function Views(cells: seq<Cell>): (r: seq<CellView>)
    reads cells
    ensures |r| == |cells|
    ensures forall i | 0 <= i < |cells| :: r[i] == ViewOfCell(cells[i])
  {
    if cells == [] then [] else Views(cells[..|cells| - 1]) + [ViewOfCell(cells[|cells| - 1])]
  }

  /** The same coefficient c on every variable of vars, set one variable
      at a time in list order. */
  method Coefficients(vars: seq<nat>, c: int) returns (coefficients: map<nat, int>)
    ensures coefficients == OnSet(Elems(vars), c)
  {
    coefficients := map[];
    for j := 0 to |vars|
      invariant coefficients == OnSet(Elems(vars[..j]), c)
    {
      assert Elems(vars[..j + 1]) == Elems(vars[..j]) + {vars[j]} by {
        assert vars[..j + 1] == vars[..j] + [vars[j]];
      }
      coefficients := coefficients[vars[j] := c];
    }
    assert vars[..|vars|] == vars;
  }

  /** Coefficient c on each of the variables begin .. end - 1, set after
      those of base. */
  method OnInterval(base: map<nat, int>, begin: nat, end: nat, c: int) returns (coefficients: map<nat, int>)
    requires begin <= end
    ensures coefficients == base + OnSet(Interval(begin, end), c)
  {
    coefficients := base;
    for i := begin to end
      invariant coefficients == base + OnSet(Interval(begin, i), c)
    {
      assert Interval(begin, i + 1) == Interval(begin, i) + {i};
      OnSetInsert(base, Interval(begin, i), i, c);
      coefficients := coefficients[i := c];
    }
  }

  /** The constraints of a pair with match variable matchVar and
      indicators vs: a link per indicator, in the order of vs, then the
      no-match constraint. */
  method LinkConstraints(matchVar: nat, vs: seq<nat>) returns (cs: seq<Constraint>)
    ensures cs == seq(|vs|, i requires 0 <= i < |vs| => LinkConstraint(matchVar, vs[i])) +
                  [NoMatchConstraint(Elems(vs), matchVar)]
  {
    var noMatch := map[];
    cs := [];
    for k := 0 to |vs|
      invariant noMatch == OnSet(Elems(vs[..k]), 1)
      invariant cs == seq(k, i requires 0 <= i < k => LinkConstraint(matchVar, vs[i]))
    {
      assert Elems(vs[..k + 1]) == Elems(vs[..k]) + {vs[k]} by {
        assert vs[..k + 1] == vs[..k] + [vs[k]];
      }
      noMatch := noMatch[vs[k] := 1];
      cs := cs + [Constraint(map[matchVar := 1][vs[k] := -1], GreaterEqual, 0)];
    }
    assert vs[..|vs|] == vs;
    cs := cs + [Constraint(noMatch[matchVar := -1], GreaterEqual, 0)];
  }

  /** The constraint that a cell takes exactly one of the labels begin ..
      end - 1. */
  method CellConstraintFor(begin: nat, end: nat) returns (constraint: Constraint)
    requires begin <= end
    ensures constraint == Constraint(OnSet(Interval(begin, end), 1), Equal, 1)
  {
    var coefficients := OnInterval(map[], begin, end, 1);
    assert map[] + OnSet(Interval(begin, end), 1) == OnSet(Interval(begin, end), 1);
    constraint := Constraint(coefficients, Equal, 1);
  }

  /** cs holds the cell constraints of the first n cells. */
  predicate CellConstraintsUpTo(cs: seq<Constraint>, views: seq<CellView>, n: nat) {
    n <= |views| && |cs| == n && forall c | 0 <= c < n :: cs[c] == CellConstraint(views, c)
  }

  lemma CellConstraintsStep(cs: seq<Constraint>, views: seq<CellView>, n: nat, constraint: Constraint)
    requires CellConstraintsUpTo(cs, views, n) && n < |views| && constraint == CellConstraint(views, n)
    ensures CellConstraintsUpTo(cs + [constraint], views, n + 1)
  {
  }

  lemma CellConstraintsAll(cs: seq<Constraint>, views: seq<CellView>)
    requires CellConstraintsUpTo(cs, views, |views|)
    ensures cs == CellConstraints(views)
  {
  }

  /** The second phase: no reconstruction label disappears; for each
      label, in ascending order, at least one of its indicators is set. */
  method LabelConstraintsFor(byRec: map<Label, seq<nat>>, recLabels: seq<Label>, ghost lab: seq<Indicator>)
    returns (cs: seq<Constraint>)
    requires ByRecDescribes(lab, byRec)
    ensures cs == LabelConstraints(lab, recLabels)
  {
    cs := [];
    for k := 0 to |recLabels|
      invariant cs == LabelConstraints(lab, recLabels[..k])
    {
      var coefficients := Coefficients(ByRec(byRec, recLabels[k]), 1);
      LabelConstraintsSnoc(lab, recLabels[..k], recLabels[k]);
      assert recLabels[..k + 1] == recLabels[..k] + [recLabels[k]];
      cs := cs + [Constraint(coefficients, GreaterEqual, 1)];
    }
    assert recLabels[..|recLabels|] == recLabels;
  }

  /** The constraints of the pair (g, r): one link per indicator of the
      pair, then the no-match constraint. */
  method PairConstraintsFor(byGtToRec: map<Label, map<Label, seq<nat>>>, matchVars: map<Label, map<Label, nat>>,
                            g: Label, r: Label, ghost lab: seq<Indicator>) returns (cs: seq<Constraint>)
    requires ByGtToRecDescribes(lab, byGtToRec)
    ensures cs == PairConstraints(lab, g, r, MatchVar(matchVars, g, r))
  {
    var matchVar := MatchVar(matchVars, g, r);
    var vs := ByGtToRec(byGtToRec, g, r);
    assert StrictlyIncreasing(vs) && Elems(vs) == IndicesOfPair(lab, g, r);
    SortedUnique(IndicesOfPair(lab, g, r), vs);
    cs := LinkConstraints(matchVar, vs);
  }

  /** The constraints of the pairs (g, r) for r in rs. */
  method PartnerMatchConstraints(byGtToRec: map<Label, map<Label, seq<nat>>>, matchVars: map<Label, map<Label, nat>>,
                                 g: Label, rs: seq<Label>, ghost lab: seq<Indicator>)
    returns (cs: seq<Constraint>)
    requires ByGtToRecDescribes(lab, byGtToRec)
    ensures cs == PartnerConstraints(lab, g, rs, matchVars)
  {
    cs := [];
    for j := 0 to |rs|
      invariant cs == PartnerConstraints(lab, g, rs[..j], matchVars)
    {
      var pairConstraints := PairConstraintsFor(byGtToRec, matchVars, g, rs[j], lab);
      PartnerConstraintsSnoc(lab, g, rs, matchVars, j);
      cs := cs + pairConstraints;
    }
    assert rs[..|rs|] == rs;
  }

  /** The fourth phase: for every pair in the order of its match
      variable, the constraints tying the match to the indicators. */
  method MatchConstraintsFor(byGtToRec: map<Label, map<Label, seq<nat>>>, matchVars: map<Label, map<Label, nat>>,
                             gtLabels: seq<Label>, byGt: map<Label, set<Label>>, ghost lab: seq<Indicator>)
    returns (cs: seq<Constraint>)
    requires ByGtToRecDescribes(lab, byGtToRec)
    ensures cs == MatchConstraints(lab, gtLabels, byGt, matchVars)
  {
    cs := [];
    for i := 0 to |gtLabels|
      invariant cs == MatchConstraints(lab, gtLabels[..i], byGt, matchVars)
    {
      var rs := Elements(Lookup(byGt, gtLabels[i]));
      SortedUnique(Lookup(byGt, gtLabels[i]), rs);
      var pairConstraints := PartnerMatchConstraints(byGtToRec, matchVars, gtLabels[i], rs, lab);
      MatchConstraintsSnoc(lab, gtLabels, byGt, matchVars, i);
      cs := cs + pairConstraints;
    }
    assert gtLabels[..|gtLabels|] == gtLabels;
  }

  /** The coefficients of the counter s of label l: 1 on s, then -1 on the
      match variable of each partner. */
  method CountCoefficients(matchVars: map<Label, map<Label, nat>>, s: nat, l: Label, partners: seq<Label>, fromGt: bool)
    returns (coefficients: map<nat, int>)
    ensures coefficients == map[s := 1] + OnSet(PartnerVars(matchVars, l, Elems(partners), fromGt), -1)
  {
    coefficients := map[s := 1];
    for j := 0 to |partners|
      invariant coefficients == map[s := 1] + OnSet(PartnerVars(matchVars, l, Elems(partners[..j]), fromGt), -1)
    {
      var m := PartnerVar(matchVars, l, partners[j], fromGt);
      assert coefficients[m := -1] ==
             map[s := 1] + OnSet(PartnerVars(matchVars, l, Elems(partners[..j + 1]), fromGt), -1) by {
        ElemsSnoc(partners, j);
        PartnerVarsInsert(matchVars, l, Elems(partners[..j]), partners[j], fromGt);
        OnSetInsert(map[s := 1], PartnerVars(matchVars, l, Elems(partners[..j]), fromGt), m, -1);
      }
      coefficients := coefficients[m := -1];
    }
    assert partners[..|partners|] == partners;
  }

  /** The two constraints of the counter s of label l: not negative, and
      one less than the number of l's matches. */
  method CounterOf(matchVars: map<Label, map<Label, nat>>, l: Label, partners: map<Label, set<Label>>, fromGt: bool,
                   s: nat)
    returns (positive: Constraint, count: Constraint)
    ensures positive == PositiveConstraint(s)
    ensures count == CountConstraint(PartnerVars(matchVars, l, Lookup(partners, l), fromGt), s)
  {
    var ps := Elements(Lookup(partners, l));
    var coefficients := CountCoefficients(matchVars, s, l, ps, fromGt);
    positive, count := Constraint(map[s := 1], GreaterEqual, 0), Constraint(coefficients, Equal, -1);
  }

  /** The fifth phase, for the splits (fromGt, the partners of a
      ground-truth label are its possible matches) or the merges: one
      counter per label numbered from begin, not negative and one less
      than the label's matches; then the total counter, their sum. */
  method CounterConstraints(matchVars: map<Label, map<Label, nat>>, labels: seq<Label>, partners: map<Label, set<Label>>, fromGt: bool, begin: nat)
    returns (cs: seq<Constraint>, total: nat)
    ensures total == begin + |labels|
    ensures cs == CounterPart(matchVars, labels, partners, fromGt, begin)
  {
    var v := begin;
    cs := [];
    ghost var sets := PartnerVarSets(matchVars, labels, partners, fromGt);
    for k := 0 to |labels|
      invariant v == begin + k
      invariant cs == CountConstraints(sets[..k], begin)
    {
      var positive, count := CounterOf(matchVars, labels[k], partners, fromGt, v);
      v := v + 1;
      CountConstraintsStep(sets, k, begin, count);
      cs := cs + [positive, count];
    }
    assert sets[..|labels|] == sets;
    total := v;
    var sum := OnInterval(map[total := 1], begin, total, -1);
    cs := cs + [Constraint(sum, Equal, 0)];
  }

  /** The sixth phase: the objective over numVars variables, 1 on the
      total splits and merges and the tie-breaking coefficient on every
      alternative indicator. */
  method ObjectiveFor(numVars: nat, splits: nat, merges: nat, alternativeIndicators: seq<(nat, nat)>, volume: nat,
                      ghost lab: seq<Indicator>) returns (objective: Objective)
    requires PairElems(alternativeIndicators) == AlternativesOf(lab)
    ensures objective == ObjectiveOf(numVars, splits, merges, lab, volume)
  {
    var coefficients := map[splits := 1.0][merges := 1.0];
    AlternativeKeys(lab, alternativeIndicators, volume);
    for k := 0 to |alternativeIndicators|
      invariant coefficients == map[splits := 1.0][merges := 1.0] +
                                AlternativeCoefficientsOn(lab, Keys(alternativeIndicators[..k]), volume)
    {
      var (ind, cellSize) := alternativeIndicators[k];
      assert Keys(alternativeIndicators[..k + 1]) == Keys(alternativeIndicators[..k]) + {ind} by {
        assert alternativeIndicators[..k + 1] == alternativeIndicators[..k] + [alternativeIndicators[k]];
      }
      AlternativeInsert(map[splits := 1.0][merges := 1.0], lab, Keys(alternativeIndicators[..k]), ind, volume);
      coefficients := coefficients[ind := cellSize as real / (volume as real + 1.0)];
    }
    assert alternativeIndicators[..|alternativeIndicators|] == alternativeIndicators;
    objective := Objective(numVars, coefficients, true);
  }

  /** The constraints that follow the cell constraints: one per
      reconstruction label, the match constraints, then the split counters
      and their total, then the merge counters and their total. */
  method ProgramTail(byRec: map<Label, seq<nat>>, byGtToRec: map<Label, map<Label, seq<nat>>>,
                     matchVars: map<Label, map<Label, nat>>, gtLabels: seq<Label>, recLabels: seq<Label>,
                     byGt: map<Label, set<Label>>, byRecMatches: map<Label, set<Label>>, splitBegin: nat,
                     ghost lab: seq<Indicator>)
    returns (cs: seq<Constraint>, splits: nat, merges: nat)
    requires ByRecDescribes(lab, byRec) && ByGtToRecDescribes(lab, byGtToRec)
    ensures splits == splitBegin + |gtLabels| && merges == splits + 1 + |recLabels|
    ensures cs == TailConstraints(lab, gtLabels, recLabels, byGt, byRecMatches, matchVars, splitBegin)
  {
    var labelConstraints := LabelConstraintsFor(byRec, recLabels, lab);
    var matchConstraints := MatchConstraintsFor(byGtToRec, matchVars, gtLabels, byGt, lab);
    var splitConstraints, mergeConstraints;
    splitConstraints, splits := CounterConstraints(matchVars, gtLabels, byGt, true, splitBegin);
    mergeConstraints, merges := CounterConstraints(matchVars, recLabels, byRecMatches, false, splits + 1);
    cs := labelConstraints + matchConstraints + splitConstraints + mergeConstraints;
  }

  /** The match variables of the pairs (g, r) for r in rs, numbered on
      from v after those of pairs; each is stored as assignMatchVariable
      stores it. */
  method PartnerMatchVariables(matchVars: map<Label, map<Label, nat>>, g: Label, rs: seq<Label>, v: nat,
                               ghost start: nat, ghost pairs: seq<(Label, Label)>)
    returns (numbered: map<Label, map<Label, nat>>, end: nat)
    requires MatchVarsDescribe(matchVars, pairs, start) && v == start + |pairs|
    requires StrictlyIncreasing(rs) && forall r :: (g, r) !in pairs
    ensures MatchVarsDescribe(numbered, pairs + PairsOf(g, rs), start) && end == v + |rs|
  {
    numbered, end := matchVars, v;
    for j := 0 to |rs|
      invariant MatchVarsDescribe(numbered, pairs + PairsOf(g, rs[..j]), start)
      invariant end == start + |pairs| + j
    {
      MatchPartnerStep(numbered, pairs, start, g, rs, j);
      numbered := AssignMatch(numbered, g, rs[j], end);
      end := end + 1;
    }
    assert rs[..|rs|] == rs;
  }

  /** The match variables: one per ground-truth label and possible match,
      numbered from start in ascending order of both. */
  method MatchVariables(gtLabels: seq<Label>, byGt: map<Label, set<Label>>, start: nat)
    returns (matchVars: map<Label, map<Label, nat>>, end: nat)
    requires StrictlyIncreasing(gtLabels)
    ensures MatchVarsDescribe(matchVars, MatchPairs(gtLabels, byGt), start)
    ensures end == start + |MatchPairs(gtLabels, byGt)|
  {
    matchVars, end := map[], start;
    for i := 0 to |gtLabels|
      invariant MatchVarsDescribe(matchVars, MatchPairs(gtLabels[..i], byGt), start)
      invariant end == start + |MatchPairs(gtLabels[..i], byGt)|
    {
      var g := gtLabels[i];
      var rs := Elements(Lookup(byGt, g));
      SortedUnique(Lookup(byGt, g), rs);
      MatchPairsMembers(gtLabels[..i], byGt);
      assert g !in gtLabels[..i];
      matchVars, end := PartnerMatchVariables(matchVars, g, rs, end, start, MatchPairs(gtLabels[..i], byGt));
      MatchPairsSnoc(gtLabels, i, byGt);
    }
    assert gtLabels[..|gtLabels|] == gtLabels;
  }

  /** Everything findBestCellLabels builds once the indicators are
      numbered: the match variables, the constraints after the cell
      constraints, the split and merge totals, the integer variables and
      the objective. */
  method BuildProgram(cellConstraints: seq<Constraint>, byRec: map<Label, seq<nat>>,
                      byGtToRec: map<Label, map<Label, seq<nat>>>, alternativeIndicators: seq<(nat, nat)>,
                      numIndicatorVars: nat, gtSet: set<Label>, recSet: set<Label>,
                      byGt: map<Label, set<Label>>, byRecMatches: map<Label, set<Label>>, volume: nat,
                      ghost views: seq<CellView>)
    returns (matchVars: map<Label, map<Label, nat>>, cs: seq<Constraint>, splits: nat, merges: nat,
             integerVariables: set<nat>, objective: Objective)
    requires cellConstraints == CellConstraints(views) && numIndicatorVars == NumIndicators(views)
    requires ByRecDescribes(Labeling(views), byRec) && ByGtToRecDescribes(Labeling(views), byGtToRec)
    requires PairElems(alternativeIndicators) == AlternativesOf(Labeling(views))
    ensures ProgramOf(views, gtSet, recSet, byGt, byRecMatches, volume, matchVars, splits, merges, cs,
                      integerVariables, objective)
  {
    ghost var lab := Labeling(views);
    var recLabels := Elements(recSet);
    var gtLabels := Elements(gtSet);
    SortedUnique(recSet, recLabels);
    SortedUnique(gtSet, gtLabels);
    var splitBegin;
    matchVars, splitBegin := MatchVariables(gtLabels, byGt, numIndicatorVars);
    assert splitBegin == SplitBegin(views, gtLabels, byGt);
    var tail;
    tail, splits, merges := ProgramTail(byRec, byGtToRec, matchVars, gtLabels, recLabels, byGt, byRecMatches,
                                        splitBegin, lab);
    cs := cellConstraints + tail;
    integerVariables := Interval(splitBegin, merges + 1);
    objective := ObjectiveFor(merges + 1, splits, merges, alternativeIndicators, volume, lab);
    ProgramOfParts(views, gtSet, recSet, byGt, byRecMatches, volume, matchVars, splits, merges, cs,
                   integerVariables, objective, gtLabels, recLabels, splitBegin);
  }

  /** The locations of each cell. */
  ghost function Contents(cells: seq<Cell>): (r: seq<seq<Location>>)
    reads cells
    ensures |r| == |cells|
    ensures forall i | 0 <= i < |cells| :: r[i] == cells[i].content
  {
    if cells == [] then [] else Contents(cells[..|cells| - 1]) + [cells[|cells| - 1].content]
  }

  /** Every location of every cell lies inside the volume. */
  predicate InVolume(cells: seq<Cell>, width: nat, height: nat, depth: nat)
    reads cells
  {
    forall c, l | 0 <= c < |cells| && l in cells[c].content :: 0 <= l.x < width && 0 <= l.y < height && 0 <= l.z < depth
  }

  /** Writes label at every location of content. */
  method Paint(volume: ImageStack, content: seq<Location>, recLabel: Label) returns (painted: ImageStack)
    requires volume.Valid() && forall l | l in content :: volume.InBounds(l.x, l.y, l.z)
    ensures painted.Valid() && painted.width == volume.width && painted.height == volume.height
    ensures painted.Size() == volume.Size()
    ensures forall x, y, z | volume.InBounds(x, y, z) ::
      painted.At(x, y, z) == if Location(x, y, z) in content then recLabel else volume.At(x, y, z)
  {
    painted := volume;
    for j := 0 to |content|
      invariant painted.Valid() && painted.width == volume.width && painted.height == volume.height
      invariant painted.Size() == volume.Size()
      invariant forall x, y, z | volume.InBounds(x, y, z) ::
        painted.At(x, y, z) == if Location(x, y, z) in content[..j] then recLabel else volume.At(x, y, z)
    {
      var l := content[j];
      assert content[..j + 1] == content[..j] + [l];
      painted := painted.Set(l.x, l.y, l.z, recLabel);
    }
    assert content[..|content|] == content;
  }

  /** The corrected reconstruction: a volume of zeros, then for each of
      the first n indicators the solution sets, in order, its label at
      every location of its cell. */
  method CorrectedVolume(cells: seq<Cell>, labelingByVar: map<nat, (nat, Label)>, solution: seq<int>, n: nat,
                         width: nat, height: nat, depth: nat, ghost lab: seq<Indicator>)
    returns (volume: ImageStack)
    requires n <= |lab| && n <= |solution| && LabelingDescribes(lab, labelingByVar)
    requires (forall i | 0 <= i < n :: lab[i].cell < |cells|) && InVolume(cells, width, height, depth)
    ensures volume.Valid() && volume.width == width && volume.height == height && volume.Size() == depth
    ensures forall x, y, z | volume.InBounds(x, y, z) ::
      volume.At(x, y, z) == CorrectedAt(Contents(cells), lab, solution, n, Location(x, y, z))
  {
    ghost var contents := Contents(cells);
    volume := Blank(width, height, depth);
    for i := 0 to n
      invariant volume.Valid() && volume.width == width && volume.height == height && volume.Size() == depth
      invariant forall x, y, z | volume.InBounds(x, y, z) ::
        volume.At(x, y, z) == CorrectedAt(contents, lab, solution, i, Location(x, y, z))
    {
      if solution[i] != 0 {
        var (cellIndex, recLabel) := labelingByVar[i];
        volume := Paint(volume, cells[cellIndex].content, recLabel);
      }
    }
  }

  /** Each of the first n indicators names one of the cells and carries its
      ground-truth label. */
  ghost predicate OfCells(lab: seq<Indicator>, cells: seq<Cell>, n: nat)
    reads cells
  {
    n <= |lab| && forall i | 0 <= i < n :: lab[i].cell < |cells| && lab[i].gtLabel == cells[lab[i].cell].groundTruthLabel
  }

  /** One addMapping per indicator the solution sets among the first n,
      in order, into errors that hold the cells and no mappings. */
  method AddChosenMappings(errors: TolerantEditDistanceErrors, cells: seq<Cell>,
                           labelingByVar: map<nat, (nat, Label)>, solution: seq<int>, n: nat, ghost lab: seq<Indicator>)
    requires errors.Valid() && errors.cells == Some(cells)
    requires errors.cellsByGtToRecLabel == map[] && errors.cellsByRecToGtLabel == map[]
    requires n <= |lab| && n <= |solution| && LabelingDescribes(lab, labelingByVar)
    requires OfCells(lab, cells, n)
    modifies errors
    ensures errors.Valid() && errors.cells == Some(cells)
    ensures errors.cellsByGtToRecLabel == ChosenGtToRec(lab, solution, n)
    ensures errors.cellsByRecToGtLabel == ChosenRecToGt(lab, solution, n)
  {
    for i := 0 to n
      invariant OfCells(lab, cells, n) && Filled(errors, cells, lab, solution, i)
    {
      MapIndicator(errors, cells, labelingByVar, solution, i, lab, n);
    }
  }

  /** The errors hold the cells and the mappings of the indicators among
      the first n that the solution sets. */
  ghost predicate Filled(errors: TolerantEditDistanceErrors, cells: seq<Cell>, lab: seq<Indicator>,
                         solution: seq<int>, n: nat)
    reads errors
  {
    errors.Valid() && errors.cells == Some(cells) && n <= |lab| && n <= |solution| &&
    errors.cellsByGtToRecLabel == ChosenGtToRec(lab, solution, n) &&
    errors.cellsByRecToGtLabel == ChosenRecToGt(lab, solution, n)
  }

  /** The errors get the cells, the mappings the solution chooses, the
      solver's time and the number of variables. */
  method FillErrors(errors: TolerantEditDistanceErrors, cells: seq<Cell>, labelingByVar: map<nat, (nat, Label)>,
                    solution: seq<int>, n: nat, ghost lab: seq<Indicator>, inferenceTime: real)
    requires errors.Valid() && n <= |lab| && n <= |solution| && LabelingDescribes(lab, labelingByVar)
    requires OfCells(lab, cells, n)
    modifies errors
    ensures errors.Valid() && errors.cells == Some(cells)
    ensures errors.cellsByGtToRecLabel == ChosenGtToRec(lab, solution, n)
    ensures errors.cellsByRecToGtLabel == ChosenRecToGt(lab, solution, n)
    ensures errors.GetInferenceTime() == inferenceTime && errors.GetNumVariables() == |solution|
  {
    errors.SetCells(cells);
    AddChosenMappings(errors, cells, labelingByVar, solution, n, lab);
    errors.SetInferenceTime(inferenceTime);
    errors.SetNumVariables(|solution|);
  }

  /** The addMapping of indicator i, if the solution sets it. */
  method MapIndicator(errors: TolerantEditDistanceErrors, cells: seq<Cell>,
                      labelingByVar: map<nat, (nat, Label)>, solution: seq<int>, i: nat, ghost lab: seq<Indicator>,
                      ghost n: nat)
    requires i < n <= |solution| && LabelingDescribes(lab, labelingByVar)
    requires OfCells(lab, cells, n) && Filled(errors, cells, lab, solution, i)
    modifies errors
    ensures Filled(errors, cells, lab, solution, i + 1)
  {
    if solution[i] != 0 {
      var (cellIndex, recLabel) := labelingByVar[i];
      var outcome := errors.AddMapping(cellIndex, recLabel);
    }
  }

  class TolerantEditDistance {
    /** Whether the volumes have background labels, and which. */
    const haveBackgroundLabel: bool
    const gtBackgroundLabel: Label
    const recBackgroundLabel: Label
    /** The cells and the registry of possible matches, as the tolerance
        function left them. */
    const tolerance: LocalToleranceFunction
    /** The error bookkeeping filled from the solution. */
    const errors: TolerantEditDistanceErrors

    /** The extents of the volumes. */
    var width: nat
    var height: nat
    var depth: nat

    /** Indicator variables by reconstruction label, and by ground-truth and
        reconstruction label. */
    var indicatorVarsByRecLabel: map<Label, seq<nat>>
    var indicatorVarsByGtToRecLabel: map<Label, map<Label, seq<nat>>>
    /** (cell index, label) by indicator variable. */
    var labelingByVar: map<nat, (nat, Label)>
    /** The match variable of each (ground truth, reconstruction) pair. */
    var matchVars: map<Label, map<Label, nat>>
    var numIndicatorVars: nat
    /** The alternative indicators, each with its cell's size. */
    var alternativeIndicators: seq<(nat, nat)>
    /** The variables of the total number of splits and of merges. */
    var splits: nat
    var merges: nat

    /** The linear program handed to the solver: its constraints, the
        variables that are integer rather than binary, and its objective. */
    var constraints: seq<Constraint>
    var integerVariables: set<nat>
    var objective: Objective
    /** The solver's answer: one value per variable. */
    var solution: seq<int>
    /** The reconstruction relabelled as the solution says. */
    var correctedReconstruction: ImageStack

    /** The indicators the maps describe. */
    ghost var indicators: seq<Indicator>

    /** The errors have the background labels exactly when the volumes
        have; all bookkeeping starts empty. */
    constructor (haveBackgroundLabel: bool, gtBackgroundLabel: Label, recBackgroundLabel: Label)
      ensures this.haveBackgroundLabel == haveBackgroundLabel
      ensures this.gtBackgroundLabel == gtBackgroundLabel && this.recBackgroundLabel == recBackgroundLabel
      ensures fresh(tolerance) && tolerance.Empty() && tolerance.Valid()
      ensures fresh(errors) && errors.Valid() && errors.cells.None?
      ensures errors.HasBackgroundLabel() == haveBackgroundLabel
      ensures haveBackgroundLabel ==>
        errors.gtBackgroundLabel == gtBackgroundLabel && errors.recBackgroundLabel == recBackgroundLabel
      ensures Cleared()
    {
      this.haveBackgroundLabel := haveBackgroundLabel;
      this.gtBackgroundLabel := gtBackgroundLabel;
      this.recBackgroundLabel := recBackgroundLabel;
      tolerance := new LocalToleranceFunction();
      if haveBackgroundLabel {
        errors := new TolerantEditDistanceErrors.WithBackground(gtBackgroundLabel, recBackgroundLabel);
      } else {
        errors := new TolerantEditDistanceErrors.WithoutBackground();
      }
      indicatorVarsByRecLabel, indicatorVarsByGtToRecLabel := map[], map[];
      labelingByVar, matchVars := map[], map[];
      alternativeIndicators := [];
      indicators := [];
      correctedReconstruction := Blank(0, 0, 0);
    }

    /** The program bookkeeping is empty. */
    ghost predicate Cleared()
      reads this
    {
      indicatorVarsByRecLabel == map[] && indicatorVarsByGtToRecLabel == map[] && labelingByVar == map[] &&
      matchVars == map[] && alternativeIndicators == [] && indicators == []
    }

    /** An empty bookkeeping describes no indicators. */
    lemma ClearedValid()
      requires Cleared()
      ensures IndicatorsValid()
    {
      assert forall r :: ByRec(indicatorVarsByRecLabel, r) == [];
      assert forall g, r :: ByGtToRec(indicatorVarsByGtToRecLabel, g, r) == [];
    }

    /** assignIndicatorVariable: indicator var assigns recLabel to cell
        cellIndex of ground-truth label gtLabel. */
    method AssignIndicatorVariable(v: nat, cellIndex: nat, gtLabel: Label, recLabel: Label)
      modifies this`indicatorVarsByRecLabel, this`indicatorVarsByGtToRecLabel, this`labelingByVar
      ensures indicatorVarsByRecLabel == Push(old(indicatorVarsByRecLabel), recLabel, v)
      ensures indicatorVarsByGtToRecLabel == PushGtToRec(old(indicatorVarsByGtToRecLabel), gtLabel, recLabel, v)
      ensures labelingByVar == old(labelingByVar)[v := (cellIndex, recLabel)]
    {
      indicatorVarsByRecLabel := Push(indicatorVarsByRecLabel, recLabel, v);
      indicatorVarsByGtToRecLabel := PushGtToRec(indicatorVarsByGtToRecLabel, gtLabel, recLabel, v);
      labelingByVar := labelingByVar[v := (cellIndex, recLabel)];
    }

    /** The indicator maps describe the indicators. */
    ghost predicate IndicatorsValid()
      reads this`indicators, this`indicatorVarsByRecLabel, this`indicatorVarsByGtToRecLabel, this`labelingByVar,
            this`alternativeIndicators
    {
      AssignedMaps(indicators, indicatorVarsByRecLabel, indicatorVarsByGtToRecLabel, labelingByVar,
                   alternativeIndicators)
    }

    /** The indicator var of a cell's own label. */
    method AddOwnIndicator(v: nat, cellIndex: nat, gtLabel: Label, recLabel: Label, ghost size: nat)
      requires v == |indicators| && IndicatorsValid()
      modifies this`indicatorVarsByRecLabel, this`indicatorVarsByGtToRecLabel, this`labelingByVar, this`indicators
      ensures indicators == old(indicators) + [Indicator(cellIndex, gtLabel, recLabel, false, size)]
      ensures IndicatorsValid()
    {
      AssignStep(indicators, indicatorVarsByRecLabel, indicatorVarsByGtToRecLabel, labelingByVar,
                 alternativeIndicators, Indicator(cellIndex, gtLabel, recLabel, false, size));
      AssignIndicatorVariable(v, cellIndex, gtLabel, recLabel);
      indicators := indicators + [Indicator(cellIndex, gtLabel, recLabel, false, size)];
    }

    /** The indicator var of an alternative label of a cell of the given
        size; it is recorded among the alternative indicators. */
    method AddAlternativeIndicator(ind: nat, cellIndex: nat, gtLabel: Label, l: Label, size: nat)
      requires ind == |indicators| && IndicatorsValid()
      modifies this`indicatorVarsByRecLabel, this`indicatorVarsByGtToRecLabel, this`labelingByVar,
               this`alternativeIndicators, this`indicators
      ensures indicators == old(indicators) + [Indicator(cellIndex, gtLabel, l, true, size)]
      ensures IndicatorsValid()
    {
      AssignStep(indicators, indicatorVarsByRecLabel, indicatorVarsByGtToRecLabel, labelingByVar,
                 alternativeIndicators, Indicator(cellIndex, gtLabel, l, true, size));
      alternativeIndicators := alternativeIndicators + [(ind, size)];
      AssignIndicatorVariable(ind, cellIndex, gtLabel, l);
      indicators := indicators + [Indicator(cellIndex, gtLabel, l, true, size)];
    }

    /** The indicators of the alternatives of a cell, in ascending order,
        after the one of its own label. */
    method AddAlternativeIndicators(cellIndex: nat, gtLabel: Label, alternatives: seq<Label>, size: nat, begin: nat,
                                    ghost view: CellView, ghost before: seq<Indicator>) returns (end: nat)
      requires view.gtLabel == gtLabel && view.alternatives == alternatives && view.size == size
      requires indicators == before + Block(view, cellIndex)[..1] && begin == |indicators| && IndicatorsValid()
      modifies this`indicatorVarsByRecLabel, this`indicatorVarsByGtToRecLabel, this`labelingByVar,
               this`alternativeIndicators, this`indicators
      ensures indicators == before + Block(view, cellIndex) && IndicatorsValid()
      ensures end == |indicators|
    {
      ghost var block := Block(view, cellIndex);
      end := begin;
      for j := 0 to |alternatives|
        invariant indicators == before + block[..1 + j] && end == |indicators|
        invariant IndicatorsValid()
      {
        AddAlternativeIndicator(end, cellIndex, gtLabel, alternatives[j], size);
        end := end + 1;
        BlockGrows(view, cellIndex, j);
      }
      assert block[..1 + |alternatives|] == block;
    }

    /** The indicators of one cell: its own label first, then one per
        alternative in ascending order. */
    method AddCellIndicators(cell: Cell, cellIndex: nat, begin: nat, ghost view: CellView) returns (end: nat)
      requires view == ViewOfCell(cell) && begin == |indicators| && IndicatorsValid()
      modifies this`indicatorVarsByRecLabel, this`indicatorVarsByGtToRecLabel, this`labelingByVar,
               this`alternativeIndicators, this`indicators
      ensures indicators == old(indicators) + Block(view, cellIndex) && IndicatorsValid()
      ensures end == |indicators|
    {
      AddOwnIndicator(begin, cellIndex, cell.groundTruthLabel, cell.recLabel, |cell.content|);
      var alternatives := Elements(cell.alternativeLabels);
      assert alternatives == view.alternatives by {
        SortedUnique(cell.alternativeLabels, alternatives);
      }
      assert indicators == old(indicators) + Block(view, cellIndex)[..1];
      end := AddAlternativeIndicators(cellIndex, cell.groundTruthLabel, alternatives, |cell.content|, begin + 1,
                                      view, old(indicators));
    }

    /** The first phase of findBestCellLabels: one indicator per cell and
        possible label, numbered block after block, and the constraint that
        every cell takes exactly one label. */
    method AddIndicators(cells: seq<Cell>, ghost views: seq<CellView>) returns (cellConstraints: seq<Constraint>)
      requires views == Views(cells) && indicators == [] && IndicatorsValid()
      modifies this`indicatorVarsByRecLabel, this`indicatorVarsByGtToRecLabel, this`labelingByVar,
               this`alternativeIndicators, this`numIndicatorVars, this`indicators
      ensures indicators == Labeling(views) && IndicatorsValid()
      ensures numIndicatorVars == |indicators| == NumIndicators(views)
      ensures cellConstraints == CellConstraints(views)
    {
      var v := 0;
      cellConstraints := [];
      for cellIndex := 0 to |cells|
        invariant indicators == Labeling(views[..cellIndex]) && v == |indicators|
        invariant IndicatorsValid()
        invariant CellConstraintsUpTo(cellConstraints, views, cellIndex)
      {
        var begin := v;
        v := AddCellIndicators(cells[cellIndex], cellIndex, v, views[cellIndex]);
        LabelingStep(views, cellIndex);
        var constraint := CellConstraintFor(begin, v);
        CellConstraintsStep(cellConstraints, views, cellIndex, constraint);
        cellConstraints := cellConstraints + [constraint];
      }
      numIndicatorVars := v;
      assert views[..|cells|] == views;
      CellConstraintsAll(cellConstraints, views);
      NumIndicatorsIsLength(views);
    }

    /** Keeps the match variables, the program and the solver's answer. */
    method StoreProgram(mv: map<Label, map<Label, nat>>, s: nat, m: nat, cs: seq<Constraint>, iv: set<nat>,
                        obj: Objective, sol: seq<int>)
      modifies this`matchVars, this`splits, this`merges, this`constraints, this`integerVariables, this`objective,
               this`solution
      ensures matchVars == mv && splits == s && merges == m && constraints == cs
      ensures integerVariables == iv && objective == obj && solution == sol
    {
      matchVars, splits, merges, constraints, integerVariables, objective, solution := mv, s, m, cs, iv, obj, sol;
    }

    /** findBestCellLabels: builds the linear program over the cells and
        possible matches of the tolerance function and keeps the solver's
        answer, given here as solverOutput. Indicators come first, then the
        match variables, the split counters and their total, the merge
        counters and their total; the counters are integer, all other
        variables binary. */
    method FindBestCellLabels(solverOutput: seq<int>)
      requires Cleared() && tolerance.Valid()
      modifies this`indicatorVarsByRecLabel, this`indicatorVarsByGtToRecLabel, this`labelingByVar, this`matchVars,
               this`numIndicatorVars, this`alternativeIndicators, this`splits, this`merges, this`constraints,
               this`integerVariables, this`objective, this`solution, this`indicators
      ensures IndicatorsValid()
      ensures indicators == Labeling(old(Views(tolerance.cells)))
      ensures numIndicatorVars == |indicators| == NumIndicators(old(Views(tolerance.cells)))
      ensures ProgramOf(old(Views(tolerance.cells)), old(tolerance.groundTruthLabels),
                        old(tolerance.reconstructionLabels), old(tolerance.possibleGroundTruthMatches),
                        old(tolerance.possibleReconstructionMatches), old(Volume(width, height, depth)),
                        matchVars, splits, merges, constraints, integerVariables, objective)
      ensures solution == solverOutput
    {
      var cells, gtSet, recSet := tolerance.cells, tolerance.groundTruthLabels, tolerance.reconstructionLabels;
      var byGt, byRec := tolerance.possibleGroundTruthMatches, tolerance.possibleReconstructionMatches;
      var volume := Volume(width, height, depth);
      ghost var views := Views(cells);
      ClearedValid();
      var cellConstraints := AddIndicators(cells, views);
      var mv, cs, totalSplits, totalMerges, iv, obj :=
        BuildProgram(cellConstraints, indicatorVarsByRecLabel, indicatorVarsByGtToRecLabel, alternativeIndicators,
                     numIndicatorVars, gtSet, recSet, byGt, byRec, volume, views);
      StoreProgram(mv, totalSplits, totalMerges, cs, iv, obj, solverOutput);
    }

    /** clear: forgets the cells and matches of the tolerance function, the
        indicator and match bookkeeping, the error mappings and the
        sections of the corrected reconstruction. */
    method Clear()
      requires errors.Valid()
      modifies tolerance, errors, this`indicatorVarsByRecLabel, this`indicatorVarsByGtToRecLabel, this`matchVars,
               this`labelingByVar, this`alternativeIndicators, this`indicators, this`correctedReconstruction
      ensures Cleared() && tolerance.Empty() && tolerance.Valid()
      ensures errors.Valid() && errors.dirty && errors.cells == old(errors.cells)
      ensures errors.cellsByGtToRecLabel == map[] && errors.cellsByRecToGtLabel == map[]
      ensures correctedReconstruction.sections == []
    {
      tolerance.Clear();
      indicatorVarsByRecLabel, indicatorVarsByGtToRecLabel := map[], map[];
      matchVars, labelingByVar := map[], map[];
      alternativeIndicators := [];
      indicators := [];
      errors.Clear();
      correctedReconstruction := correctedReconstruction.(sections := []);
    }

    /** extractCells, up to the cell extraction itself: the two volumes
        must have the same number of sections and the same width and
        height; their extents are kept and the tolerance function takes the
        resolution of the reconstruction. */
    method ExtractCells(groundTruth: ImageStack, reconstruction: ImageStack) returns (outcome: Outcome)
      modifies this`width, this`height, this`depth, tolerance
      ensures outcome.Pass? <==>
        groundTruth.Size() == reconstruction.Size() &&
        groundTruth.width == reconstruction.width && groundTruth.height == reconstruction.height
      ensures outcome.Fail? ==> outcome.error == SizeMismatchError && unchanged(this) && unchanged(tolerance)
      ensures outcome.Pass? ==>
        depth == groundTruth.Size() && width == groundTruth.width && height == groundTruth.height &&
        tolerance.resolutionX == reconstruction.resolutionX && tolerance.resolutionY == reconstruction.resolutionY &&
        tolerance.resolutionZ == reconstruction.resolutionZ &&
        tolerance.cells == old(tolerance.cells) && tolerance.Valid() == old(tolerance.Valid())
    {
      if groundTruth.Size() != reconstruction.Size() {
        return Fail(SizeMismatchError);
      }
      if groundTruth.height != reconstruction.height || groundTruth.width != reconstruction.width {
        return Fail(SizeMismatchError);
      }
      depth, width, height := groundTruth.Size(), groundTruth.width, groundTruth.height;
      tolerance.SetResolution(reconstruction.resolutionX, reconstruction.resolutionY, reconstruction.resolutionZ);
      outcome := Pass;
    }

    /** correctReconstruction: depth sections of zeros, then for each
        indicator the solution sets, its label at every location of its
        cell. */
    method CorrectReconstruction()
      requires LabelingDescribes(indicators, labelingByVar) && numIndicatorVars == |indicators| <= |solution|
      requires forall i | 0 <= i < |indicators| :: indicators[i].cell < |tolerance.cells|
      requires InVolume(tolerance.cells, width, height, depth) && correctedReconstruction.sections == []
      modifies this`correctedReconstruction
      ensures correctedReconstruction.Valid() && correctedReconstruction.Size() == depth
      ensures correctedReconstruction.width == width && correctedReconstruction.height == height
      ensures forall x, y, z | correctedReconstruction.InBounds(x, y, z) ::
        correctedReconstruction.At(x, y, z) ==
        CorrectedAt(old(Contents(tolerance.cells)), indicators, solution, numIndicatorVars, Location(x, y, z))
    {
      correctedReconstruction := CorrectedVolume(tolerance.cells, labelingByVar, solution, numIndicatorVars,
                                                 width, height, depth, indicators);
    }

    /** findErrors: the errors get the cells, then one addMapping per
        indicator the solution sets, in order; then the solver's time and
        the number of variables. */
    method FindErrors(inferenceTime: real)
      requires errors.Valid() && LabelingDescribes(indicators, labelingByVar)
      requires indicators == Labeling(Views(tolerance.cells))
      requires numIndicatorVars == |indicators| <= |solution|
      modifies errors
      ensures errors.Valid() && errors.cells == Some(tolerance.cells)
      ensures errors.cellsByGtToRecLabel == ChosenGtToRec(indicators, solution, numIndicatorVars)
      ensures errors.cellsByRecToGtLabel == ChosenRecToGt(indicators, solution, numIndicatorVars)
      ensures errors.GetInferenceTime() == inferenceTime && errors.GetNumVariables() == |solution|
    {
      var cells := tolerance.cells;
      IndicatorCells(Views(cells));
      assert forall i | 0 <= i < numIndicatorVars ::
        indicators[i].cell < |cells| && indicators[i].gtLabel == cells[indicators[i].cell].groundTruthLabel;
      FillErrors(errors, cells, labelingByVar, solution, numIndicatorVars, indicators, inferenceTime);
    }
  }
}
