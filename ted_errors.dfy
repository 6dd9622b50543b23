/** The error bookkeeping object of the tolerant edit distance: the cells,
    the two confusion maps, and the split, merge, false-positive and
    false-negative counts recomputed from them on demand. */
module TedErrors {
  import opened Base
  import opened Sums
  import opened Ordered
  import opened Text
  import opened Cells
  import opened CellMaps

  /** What updateErrorCounts computes: the split and merge entries and the
      four counters, replaced together by each recount. */
  datatype ErrorCounts = ErrorCounts(
    splits: CellMap,
    merges: CellMap,
    numSplits: nat,
    numMerges: nat,
    numFalsePositives: nat,
    numFalseNegatives: nat)

  /** The size of cell c, 0 for an index without a cell. */
  function SizeOf(sizes: seq<nat>, c: nat): nat {
    if c < |sizes| then sizes[c] else 0
  }

  /** The size of each cell index, as a function to sum over. */
  function SizeFn(sizes: seq<nat>): nat -> int {
    (c: nat) => SizeOf(sizes, c)
  }

  /** The column names of the error report. */
  const ErrorNames: seq<string> := ["TED_FP", "TED_FN", "TED_FS", "TED_FM", "TED_SUM"]

  /** The names of the human-readable report. */
  const ReadableNames: seq<string> := ["TED FP", "TED FN", "TED FS", "TED FM", "TED Total"]

  /** errorHeader: the five column names, tab-separated. */
  function ErrorHeader(): (line: string)
    ensures Split(line, '\t') == ["TED_FP", "TED_FN", "TED_FS", "TED_FM", "TED_SUM"]
  {
    Header(ErrorNames, '\t')
  }

  /** errorString for the values FP, FN, FS, FM and total, in that order. */
  function ErrorLine(values: seq<nat>): string {
    Join(NatStrings(values), "\t")
  }

  /** The fields of humanReadableErrorString: each value after its name. */
  function Named(values: seq<nat>): (r: seq<string>)
    requires |values| == 5
    ensures |r| == 5 && forall i | 0 <= i < 5 :: r[i] == ReadableNames[i] + ": " + NatToString(values[i])
  {
    seq(5, i requires 0 <= i < 5 => ReadableNames[i] + ": " + NatToString(values[i]))
  }

  /** humanReadableErrorString for the same values. */
  function ReadableLine(values: seq<nat>): string
    requires |values| == 5
  {
    Join(Named(values), ", ")
  }

  /** The report line has one field per value, under the header's column of
      the same position, and each field reads back as its value. */
  lemma ErrorLineFields(values: seq<nat>)
    requires |values| == 5
    ensures |Split(ErrorLine(values), '\t')| == |Split(ErrorHeader(), '\t')| == 5
    ensures forall i | 0 <= i < 5 :: AllDigits(Split(ErrorLine(values), '\t')[i])
    ensures forall i | 0 <= i < 5 :: ParseNat(Split(ErrorLine(values), '\t')[i]) == values[i]
  {
    ReadBack(values, '\t');
    assert ['\t'] == "\t";
  }

  lemma NamesHaveNoComma(values: seq<nat>)
    requires |values| == 5
    ensures forall i | 0 <= i < 5 :: ',' !in Named(values)[i]
  {
    forall i | 0 <= i < 5 ensures ',' !in Named(values)[i] {
      DigitsHaveNoSeparator(NatToString(values[i]), ',');
      assert ',' !in ReadableNames[i];
    }
  }

  lemma ReadableFields(values: seq<nat>)
    requires |values| == 5
    ensures Split(ReadableLine(values), ',') == Padded(Named(values), " ")
  {
    NamesHaveNoComma(values);
    assert ", " == [','] + " ";
    SplitJoin(Named(values), ',', " ");
  }

  lemma ErrorColumns(values: seq<nat>)
    requires |values| == 5
    ensures Split(ErrorLine(values), '\t') == NatStrings(values)
  {
    ReadBack(values, '\t');
    assert ['\t'] == "\t";
  }

  /** The i-th field of the human-readable line, split at the commas. */
  lemma ReadableFieldAt(values: seq<nat>, i: nat)
    requires |values| == 5 && i < 5
    ensures Padded(Named(values), " ")[i] ==
      (if i == 0 then "" else " ") + ReadableNames[i] + ": " + NatStrings(values)[i]
  {
    var text := ReadableNames[i] + ": " + NatToString(values[i]);
    assert Named(values)[i] == text;
    if i == 0 {
      assert "" + text == text;
    }
  }

  /** The human-readable line reports the same five values in the same
      order as the report line, each after its name. */
  lemma ReadableLineAgrees(values: seq<nat>)
    requires |values| == 5
    ensures var fields := Split(ReadableLine(values), ',');
      var columns := Split(ErrorLine(values), '\t');
      |fields| == |columns| == 5 &&
      forall i | 0 <= i < 5 :: fields[i] == (if i == 0 then "" else " ") + ReadableNames[i] + ": " + columns[i]
  {
    ReadableFields(values);
    ErrorColumns(values);
    forall i | 0 <= i < 5
      ensures Padded(Named(values), " ")[i] ==
        (if i == 0 then "" else " ") + ReadableNames[i] + ": " + NatStrings(values)[i]
    {
      ReadableFieldAt(values, i);
    }
  }

  /** The number of locations in the cells with the given indices,
      accumulated in ascending index order in unsigned 32-bit arithmetic. */
  method TotalSize(cs: seq<Cell>, indices: set<nat>) returns (total: nat)
    requires forall c | c in indices :: c < |cs|
    ensures total < U32
    ensures total == Wrap32(SumSet(indices, SizeFn(Sizes(cs))))
  {
    ghost var f := SizeFn(Sizes(cs));
    var ordered := Elements(indices);
    forall k | 0 <= k < |ordered| ensures ordered[k] < |cs| {
      assert ordered[k] in Elems(ordered);
    }
    total := 0;
    ghost var visited: seq<nat> := [];
    for i := 0 to |ordered|
      invariant visited == ordered[..i]
      invariant total == Wrap32(SumSeq(visited, f))
    {
      var c := ordered[i];
      var size := cs[c].Size();
      SumSeqStep(visited, f, c, total, size);
      total := Wrap32(total + size);
      visited := visited + [c];
    }
    assert visited == ordered;
    SumSeqDistinct(ordered, f);
  }

  class TolerantEditDistanceErrors {
    const haveBackgroundLabel: bool
    const gtBackgroundLabel: Label
    const recBackgroundLabel: Label

    /** The cells; None until setCells. */
    var cells: Option<seq<Cell>>
    var cellsByGtToRecLabel: CellMap
    var cellsByRecToGtLabel: CellMap
    /** The cached counts are stale. */
    var dirty: bool
    /** The split and merge entries and the counters of the last recount
        (_splits, _merges, _numSplits, _numMerges, _numFalsePositives,
        _numFalseNegatives). */
    var counts: ErrorCounts
    var inferenceTime: real
    var numVariables: int

    /** The confusion maps as they were at the last recount. */
    ghost var countedGtToRec: CellMap
    ghost var countedRecToGt: CellMap

    /** The number of cells set, 0 before setCells. */
    function NumCells(): nat
      reads this`cells
    {
      if cells.Some? then |cells.value| else 0
    }

    /** The confusion maps are transposes of each other and name only set
        cells. */
    ghost predicate MapsValid()
      reads this`cells, this`cellsByGtToRecLabel, this`cellsByRecToGtLabel
    {
      ConfusionMaps(cellsByGtToRecLabel, cellsByRecToGtLabel, NumCells())
    }

    ghost predicate Valid()
      reads this
    {
      MapsValid() &&
      counts.numSplits < U32 && counts.numMerges < U32 &&
      counts.numFalsePositives < U32 && counts.numFalseNegatives < U32 &&
      (!dirty ==> Cached())
    }

    /** The cached counts and split/merge entries are those of the confusion
        maps at the last recount, which differ from the current ones at most
        in labels whose entry is empty. */
    ghost predicate Cached()
      reads this
    {
      CountedFrom(countedGtToRec, cellsByGtToRecLabel, counts.splits, counts.numSplits,
                  counts.numFalsePositives, haveBackgroundLabel, gtBackgroundLabel) &&
      CountedFrom(countedRecToGt, cellsByRecToGtLabel, counts.merges, counts.numMerges, counts.numFalseNegatives,
                  haveBackgroundLabel, recBackgroundLabel)
    }

    /** No lookup has left an empty entry behind (the background entries of
        the split and merge maps excepted, which no label query reports). */
    ghost predicate Proper()
      reads this
    {
      NoEmptyEntries(cellsByGtToRecLabel) && NoEmptyEntries(cellsByRecToGtLabel) &&
      NoEmptyEntriesBut(counts.splits, haveBackgroundLabel, gtBackgroundLabel) &&
      NoEmptyEntriesBut(counts.merges, haveBackgroundLabel, recBackgroundLabel)
    }

    /** With no empty entries, the maps counted last are the current ones. */
    lemma CountedIsCurrent()
      requires Valid() && !dirty && Proper()
      ensures countedGtToRec == cellsByGtToRecLabel && countedRecToGt == cellsByRecToGtLabel
    {
      SameEntriesEqual(countedGtToRec, cellsByGtToRecLabel);
      SameEntriesEqual(countedRecToGt, cellsByRecToGtLabel);
    }

    /** The split map as updateErrorCounts leaves it: recomputed if it was
        stale, kept otherwise. */
    twostate function UpdatedSplits(): CellMap
      reads this
    {
      if old(dirty) then SplitMap(old(cellsByGtToRecLabel)) else old(counts.splits)
    }

    /** The merge map as updateErrorCounts leaves it. */
    twostate function UpdatedMerges(): CellMap
      reads this
    {
      if old(dirty) then SplitMap(old(cellsByRecToGtLabel)) else old(counts.merges)
    }

    /** The counts are up to date, with the given split and merge maps; the
        counters were recomputed if they were stale and kept otherwise; the
        cells and the mappings did not change. */
    twostate predicate Refreshed(splits: CellMap, merges: CellMap)
      reads this
    {
      Valid() && !dirty && counts.splits == splits && counts.merges == merges &&
      cells == old(cells) &&
      cellsByGtToRecLabel == old(cellsByGtToRecLabel) && cellsByRecToGtLabel == old(cellsByRecToGtLabel) &&
      inferenceTime == old(inferenceTime) && numVariables == old(numVariables) &&
      (old(!dirty) ==>
        countedGtToRec == old(countedGtToRec) && countedRecToGt == old(countedRecToGt) &&
        counts.numSplits == old(counts.numSplits) && counts.numMerges == old(counts.numMerges) &&
        counts.numFalsePositives == old(counts.numFalsePositives) &&
        counts.numFalseNegatives == old(counts.numFalseNegatives)) &&
      (old(dirty) ==> countedGtToRec == cellsByGtToRecLabel && countedRecToGt == cellsByRecToGtLabel)
    }

    /** The effect of updateErrorCounts. */
    twostate predicate Updated()
      reads this
    {
      Refreshed(UpdatedSplits(), UpdatedMerges()) && (old(Proper()) ==> Proper())
    }

    /** The effect of updateErrorCounts followed by _splits[gtLabel]. */
    twostate predicate SplitLookedUp(gtLabel: Label)
      reads this
    {
      Refreshed(Touch(UpdatedSplits(), gtLabel), UpdatedMerges())
    }

    /** The effect of updateErrorCounts followed by _merges[recLabel]. */
    twostate predicate MergeLookedUp(recLabel: Label)
      reads this
    {
      Refreshed(UpdatedSplits(), Touch(UpdatedMerges(), recLabel))
    }

    /** hasBackgroundLabel */
    function HasBackgroundLabel(): bool {
      haveBackgroundLabel
    }

    /** An errors data structure without background label, hence without
        false positives and false negatives. */
    constructor WithoutBackground()
      ensures !HasBackgroundLabel()
      ensures cells.None? && cellsByGtToRecLabel == map[] && cellsByRecToGtLabel == map[] && dirty
      ensures Valid() && Proper()
    {
      haveBackgroundLabel := false;
      gtBackgroundLabel, recBackgroundLabel := 0, 0;
      cells := None;
      cellsByGtToRecLabel, cellsByRecToGtLabel := map[], map[];
      dirty := true;
      counts := ErrorCounts(map[], map[], 0, 0, 0, 0);
      inferenceTime, numVariables := 0.0, 0;
      countedGtToRec, countedRecToGt := map[], map[];
    }

    /** An errors data structure for the given background labels. */
    constructor WithBackground(gtBackground: Label, recBackground: Label)
      ensures HasBackgroundLabel() && gtBackgroundLabel == gtBackground && recBackgroundLabel == recBackground
      ensures cells.None? && cellsByGtToRecLabel == map[] && cellsByRecToGtLabel == map[] && dirty
      ensures Valid() && Proper()
    {
      haveBackgroundLabel := true;
      gtBackgroundLabel, recBackgroundLabel := gtBackground, recBackground;
      cells := None;
      cellsByGtToRecLabel, cellsByRecToGtLabel := map[], map[];
      dirty := true;
      counts := ErrorCounts(map[], map[], 0, 0, 0, 0);
      inferenceTime, numVariables := 0.0, 0;
      countedGtToRec, countedRecToGt := map[], map[];
    }

    /** Sets the cells and forgets all mappings. */
    method SetCells(cs: seq<Cell>)
      requires Valid()
      modifies this
      ensures Valid() && cells == Some(cs) && dirty
      ensures cellsByGtToRecLabel == map[] && cellsByRecToGtLabel == map[]
      ensures old(Proper()) ==> Proper()
    {
      cells := Some(cs);
      cellsByGtToRecLabel := map[];
      cellsByRecToGtLabel := map[];
      dirty := true;
    }

    /** Forgets all mappings; the counts are recomputed on the next query. */
    method Clear()
      requires Valid()
      modifies this
      ensures Valid() && dirty && cells == old(cells)
      ensures cellsByGtToRecLabel == map[] && cellsByRecToGtLabel == map[]
      ensures old(Proper()) ==> Proper()
    {
      cellsByGtToRecLabel := map[];
      cellsByRecToGtLabel := map[];
      dirty := true;
    }

    /** Maps cell cellIndex to recLabel; fails before setCells. */
    method AddMapping(cellIndex: nat, recLabel: Label) returns (outcome: Outcome)
      requires Valid()
      requires cells.Some? ==> cellIndex < |cells.value|
      modifies this
      ensures Valid()
      ensures old(cells).None? ==> outcome == Fail(UsageError) && unchanged(this)
      ensures old(cells).Some? ==>
        var gtLabel := old(cells.value[cellIndex].groundTruthLabel);
        outcome == Pass && dirty && cells == old(cells) &&
        cellsByGtToRecLabel == AddEntry(old(cellsByGtToRecLabel), gtLabel, recLabel, cellIndex) &&
        cellsByRecToGtLabel == AddEntry(old(cellsByRecToGtLabel), recLabel, gtLabel, cellIndex)
      ensures old(Proper()) ==> Proper()
    {
      if cells.None? {
        return Fail(UsageError);
      }
      var gtLabel := cells.value[cellIndex].groundTruthLabel;
      AddMappingKeeps(cellsByGtToRecLabel, cellsByRecToGtLabel, gtLabel, recLabel, cellIndex, NumCells());
      cellsByRecToGtLabel := AddEntry(cellsByRecToGtLabel, recLabel, gtLabel, cellIndex);
      cellsByGtToRecLabel := AddEntry(cellsByGtToRecLabel, gtLabel, recLabel, cellIndex);
      dirty := true;
      outcome := Pass;
    }

    /** Recounts from the current confusion maps if they changed since the
        last count. */
    method UpdateErrorCounts()
      requires Valid()
      modifies this
      ensures Updated()
      ensures old(!dirty) ==> unchanged(this)
    {
      if dirty {
        Recount();
      }
    }

    /** The recount of updateErrorCounts: findSplits on both confusion
        maps, from an empty split (merge) map and zeroed counters. */
    method Recount()
      requires Valid()
      modifies this
      ensures Valid() && !dirty
      ensures counts.splits == SplitMap(cellsByGtToRecLabel) && counts.merges == SplitMap(cellsByRecToGtLabel)
      ensures cells == old(cells) && inferenceTime == old(inferenceTime) && numVariables == old(numVariables)
      ensures cellsByGtToRecLabel == old(cellsByGtToRecLabel) && cellsByRecToGtLabel == old(cellsByRecToGtLabel)
      ensures countedGtToRec == cellsByGtToRecLabel && countedRecToGt == cellsByRecToGtLabel
      ensures old(Proper()) ==> Proper()
    {
      var newSplits, newNumSplits, newNumFalsePositives :=
        CountSplits(haveBackgroundLabel, cellsByGtToRecLabel, gtBackgroundLabel);
      var newMerges, newNumMerges, newNumFalseNegatives :=
        CountSplits(haveBackgroundLabel, cellsByRecToGtLabel, recBackgroundLabel);
      dirty := false;
      counts := ErrorCounts(newSplits, newMerges, newNumSplits, newNumMerges,
                            newNumFalsePositives, newNumFalseNegatives);
      countedGtToRec, countedRecToGt := cellsByGtToRecLabel, cellsByRecToGtLabel;
    }

    /** getNumSplits: the split counter, recounted first if stale. */
    method GetNumSplits() returns (n: nat)
      requires Valid()
      modifies this
      ensures Updated() && Valid() && !dirty
      ensures old(!dirty) ==> unchanged(this)
      ensures n == counts.numSplits && n < U32
      ensures old(dirty) || old(Proper()) ==> SplitCounted(cellsByGtToRecLabel, haveBackgroundLabel, gtBackgroundLabel, n)
    {
      UpdateErrorCounts();
      n := counts.numSplits;
      if !old(dirty) && old(Proper()) {
        CountedIsCurrent();
      }
    }

    /** getNumMerges: the merge counter, recounted first if stale. */
    method GetNumMerges() returns (n: nat)
      requires Valid()
      modifies this
      ensures Updated() && Valid() && !dirty
      ensures old(!dirty) ==> unchanged(this)
      ensures n == counts.numMerges && n < U32
      ensures old(dirty) || old(Proper()) ==> SplitCounted(cellsByRecToGtLabel, haveBackgroundLabel, recBackgroundLabel, n)
    {
      UpdateErrorCounts();
      n := counts.numMerges;
      if !old(dirty) && old(Proper()) {
        CountedIsCurrent();
      }
    }

    /** getNumFalsePositives: the charge of the ground-truth background. */
    method GetNumFalsePositives() returns (n: nat)
      requires Valid()
      modifies this
      ensures Updated() && Valid() && !dirty
      ensures old(!dirty) ==> unchanged(this)
      ensures n == counts.numFalsePositives && n < U32
      ensures old(dirty) || old(Proper()) ==>
        n == BackgroundCount(cellsByGtToRecLabel, haveBackgroundLabel, gtBackgroundLabel)
      ensures !haveBackgroundLabel ==> n == 0
    {
      UpdateErrorCounts();
      n := counts.numFalsePositives;
      if !old(dirty) && old(Proper()) {
        CountedIsCurrent();
      }
    }

    /** getNumFalseNegatives: the charge of the reconstruction background. */
    method GetNumFalseNegatives() returns (n: nat)
      requires Valid()
      modifies this
      ensures Updated() && Valid() && !dirty
      ensures old(!dirty) ==> unchanged(this)
      ensures n == counts.numFalseNegatives && n < U32
      ensures old(dirty) || old(Proper()) ==>
        n == BackgroundCount(cellsByRecToGtLabel, haveBackgroundLabel, recBackgroundLabel)
      ensures !haveBackgroundLabel ==> n == 0
    {
      UpdateErrorCounts();
      n := counts.numFalseNegatives;
      if !old(dirty) && old(Proper()) {
        CountedIsCurrent();
      }
    }

    /** getNumErrors: the four counters added as unsigned ints. */
    method GetNumErrors() returns (n: nat)
      requires Valid()
      modifies this
      ensures Updated()
      ensures n == Wrap32(counts.numSplits + counts.numMerges + counts.numFalsePositives + counts.numFalseNegatives)
    {
      var numSplits := GetNumSplits();
      var numMerges := GetNumMerges();
      var numFalsePositives := GetNumFalsePositives();
      var numFalseNegatives := GetNumFalseNegatives();
      assert numSplits == counts.numSplits && numMerges == counts.numMerges;
      assert numFalsePositives == counts.numFalsePositives && numFalseNegatives == counts.numFalseNegatives;
      n := Wrap32(numSplits + numMerges + numFalsePositives + numFalseNegatives);
    }

    /** The values of the error report: FP, FN, FS, FM and their sum. */
    function ErrorValues(): (values: seq<nat>)
      reads this
      ensures |values| == 5
    {
      [counts.numFalsePositives, counts.numFalseNegatives, counts.numSplits, counts.numMerges,
       Wrap32(counts.numSplits + counts.numMerges + counts.numFalsePositives + counts.numFalseNegatives)]
    }

    /** errorString: the report values, tab-separated. */
    method ErrorString() returns (line: string)
      requires Valid()
      modifies this
      ensures Updated()
      ensures line == ErrorLine(ErrorValues())
      ensures Split(line, '\t') == NatStrings(ErrorValues())
    {
      var numFalsePositives := GetNumFalsePositives();
      var numFalseNegatives := GetNumFalseNegatives();
      var numSplits := GetNumSplits();
      var numMerges := GetNumMerges();
      var numErrors := GetNumErrors();
      line := ErrorLine([numFalsePositives, numFalseNegatives, numSplits, numMerges, numErrors]);
      ErrorColumns(ErrorValues());
    }

    /** humanReadableErrorString: the same values, each after its name. */
    method HumanReadableErrorString() returns (line: string)
      requires Valid()
      modifies this
      ensures Updated()
      ensures line == ReadableLine(ErrorValues())
    {
      var numFalsePositives := GetNumFalsePositives();
      var numFalseNegatives := GetNumFalseNegatives();
      var numSplits := GetNumSplits();
      var numMerges := GetNumMerges();
      var numErrors := GetNumErrors();
      line := ReadableLine([numFalsePositives, numFalseNegatives, numSplits, numMerges, numErrors]);
    }

    /** getSplitLabels: the labels of the split map, without the
        ground-truth background. */
    method GetSplitLabels() returns (labels: set<Label>)
      requires Valid()
      modifies this
      ensures Updated()
      ensures forall a :: a in labels <==> a in counts.splits && !(haveBackgroundLabel && a == gtBackgroundLabel)
      ensures old(Proper()) ==> forall a :: a in labels <==>
        a in cellsByGtToRecLabel && |cellsByGtToRecLabel[a]| >= 2 && !(haveBackgroundLabel && a == gtBackgroundLabel)
    {
      UpdateErrorCounts();
      labels := KeysWithout(counts.splits.Keys, haveBackgroundLabel, gtBackgroundLabel);
      if old(Proper()) {
        CountedIsCurrent();
        SplitLabelsExact(counts.splits, countedGtToRec, cellsByGtToRecLabel, haveBackgroundLabel, gtBackgroundLabel);
      }
    }

    /** getMergeLabels: the labels of the merge map, without the
        reconstruction background. */
    method GetMergeLabels() returns (labels: set<Label>)
      requires Valid()
      modifies this
      ensures Updated()
      ensures forall a :: a in labels <==> a in counts.merges && !(haveBackgroundLabel && a == recBackgroundLabel)
      ensures old(Proper()) ==> forall a :: a in labels <==>
        a in cellsByRecToGtLabel && |cellsByRecToGtLabel[a]| >= 2 && !(haveBackgroundLabel && a == recBackgroundLabel)
    {
      UpdateErrorCounts();
      labels := KeysWithout(counts.merges.Keys, haveBackgroundLabel, recBackgroundLabel);
      if old(Proper()) {
        CountedIsCurrent();
        SplitLabelsExact(counts.merges, countedRecToGt, cellsByRecToGtLabel, haveBackgroundLabel, recBackgroundLabel);
      }
    }

    /** _splits[gtLabel] on up-to-date counts: the label's entry in the
        split map, inserting an empty one for a label without. */
    method LookUpSplit(gtLabel: Label) returns (partners: map<Label, set<nat>>)
      requires Valid() && !dirty
      modifies this
      ensures Valid() && !dirty
      ensures partners == old(Partners(counts.splits, gtLabel))
      ensures partners == if |Partners(cellsByGtToRecLabel, gtLabel)| >= 2 then Partners(cellsByGtToRecLabel, gtLabel) else map[]
      ensures counts == old(counts).(splits := Touch(old(counts.splits), gtLabel))
      ensures cells == old(cells) && inferenceTime == old(inferenceTime) && numVariables == old(numVariables)
      ensures cellsByGtToRecLabel == old(cellsByGtToRecLabel) && cellsByRecToGtLabel == old(cellsByRecToGtLabel)
      ensures countedGtToRec == old(countedGtToRec) && countedRecToGt == old(countedRecToGt)
      ensures NoEmptyEntriesBut(old(counts.splits), haveBackgroundLabel, gtBackgroundLabel) ==>
        (NoEmptyEntriesBut(counts.splits, haveBackgroundLabel, gtBackgroundLabel) <==>
         |Partners(cellsByGtToRecLabel, gtLabel)| >= 2 || (haveBackgroundLabel && gtLabel == gtBackgroundLabel))
    {
      TouchFound(countedGtToRec, cellsByGtToRecLabel, counts.splits, counts.numSplits, counts.numFalsePositives,
                 haveBackgroundLabel, gtBackgroundLabel, gtLabel);
      partners := Partners(counts.splits, gtLabel);
      counts := counts.(splits := Touch(counts.splits, gtLabel));
    }

    /** _merges[recLabel] on up-to-date counts. */
    method LookUpMerge(recLabel: Label) returns (partners: map<Label, set<nat>>)
      requires Valid() && !dirty
      modifies this
      ensures Valid() && !dirty
      ensures partners == old(Partners(counts.merges, recLabel))
      ensures partners == if |Partners(cellsByRecToGtLabel, recLabel)| >= 2 then Partners(cellsByRecToGtLabel, recLabel) else map[]
      ensures counts == old(counts).(merges := Touch(old(counts.merges), recLabel))
      ensures cells == old(cells) && inferenceTime == old(inferenceTime) && numVariables == old(numVariables)
      ensures cellsByGtToRecLabel == old(cellsByGtToRecLabel) && cellsByRecToGtLabel == old(cellsByRecToGtLabel)
      ensures countedGtToRec == old(countedGtToRec) && countedRecToGt == old(countedRecToGt)
      ensures NoEmptyEntriesBut(old(counts.merges), haveBackgroundLabel, recBackgroundLabel) ==>
        (NoEmptyEntriesBut(counts.merges, haveBackgroundLabel, recBackgroundLabel) <==>
         |Partners(cellsByRecToGtLabel, recLabel)| >= 2 || (haveBackgroundLabel && recLabel == recBackgroundLabel))
    {
      TouchFound(countedRecToGt, cellsByRecToGtLabel, counts.merges, counts.numMerges, counts.numFalseNegatives,
                 haveBackgroundLabel, recBackgroundLabel, recLabel);
      partners := Partners(counts.merges, recLabel);
      counts := counts.(merges := Touch(counts.merges, recLabel));
    }

    /** getSplitCells: _splits[gtLabel] after updating the counts, which
        leaves an empty entry behind for a label that is not split. */
    method GetSplitCells(gtLabel: Label) returns (partners: map<Label, set<nat>>)
      requires Valid()
      modifies this
      ensures SplitLookedUp(gtLabel)
      ensures partners == Partners(counts.splits, gtLabel)
      ensures partners == if |Partners(cellsByGtToRecLabel, gtLabel)| >= 2 then Partners(cellsByGtToRecLabel, gtLabel) else map[]
      ensures gtLabel in counts.splits
      ensures old(Proper()) ==> (Proper() <==>
        |Partners(cellsByGtToRecLabel, gtLabel)| >= 2 || (haveBackgroundLabel && gtLabel == gtBackgroundLabel))
    {
      UpdateErrorCounts();
      partners := LookUpSplit(gtLabel);
    }

    /** getMergeCells: _merges[recLabel] after updating the counts. */
    method GetMergeCells(recLabel: Label) returns (partners: map<Label, set<nat>>)
      requires Valid()
      modifies this
      ensures MergeLookedUp(recLabel)
      ensures partners == Partners(counts.merges, recLabel)
      ensures partners == if |Partners(cellsByRecToGtLabel, recLabel)| >= 2 then Partners(cellsByRecToGtLabel, recLabel) else map[]
      ensures recLabel in counts.merges
      ensures old(Proper()) ==> (Proper() <==>
        |Partners(cellsByRecToGtLabel, recLabel)| >= 2 || (haveBackgroundLabel && recLabel == recBackgroundLabel))
    {
      UpdateErrorCounts();
      partners := LookUpMerge(recLabel);
    }

    /** The split cells of gtLabel, looked up without inserting. */
    method FindSplitCells(gtLabel: Label) returns (partners: map<Label, set<nat>>)
      requires Valid()
      modifies this
      ensures Updated()
      ensures partners == if |Partners(cellsByGtToRecLabel, gtLabel)| >= 2 then Partners(cellsByGtToRecLabel, gtLabel) else map[]
    {
      UpdateErrorCounts();
      FoundPartners(counts.splits, countedGtToRec, cellsByGtToRecLabel, gtLabel);
      partners := Partners(counts.splits, gtLabel);
    }

    /** getSplits: the reconstruction labels that split gtLabel. */
    method GetSplits(gtLabel: Label) returns (labels: set<Label>)
      requires Valid()
      modifies this
      ensures SplitLookedUp(gtLabel)
      ensures labels == if |Partners(cellsByGtToRecLabel, gtLabel)| >= 2 then Partners(cellsByGtToRecLabel, gtLabel).Keys else {}
      ensures old(Proper()) ==> (Proper() <==>
        |Partners(cellsByGtToRecLabel, gtLabel)| >= 2 || (haveBackgroundLabel && gtLabel == gtBackgroundLabel))
    {
      var partners := GetSplitCells(gtLabel);
      labels := KeysWithout(partners.Keys, false, 0);
    }

    /** getMerges: the ground-truth labels that recLabel merges. */
    method GetMerges(recLabel: Label) returns (labels: set<Label>)
      requires Valid()
      modifies this
      ensures MergeLookedUp(recLabel)
      ensures labels == if |Partners(cellsByRecToGtLabel, recLabel)| >= 2 then Partners(cellsByRecToGtLabel, recLabel).Keys else {}
      ensures old(Proper()) ==> (Proper() <==>
        |Partners(cellsByRecToGtLabel, recLabel)| >= 2 || (haveBackgroundLabel && recLabel == recBackgroundLabel))
    {
      var partners := GetMergeCells(recLabel);
      labels := KeysWithout(partners.Keys, false, 0);
    }

    /** getFalsePositives: the reconstruction labels other than the
        background that the ground-truth background splits into; a usage
        error without background label. */
    method GetFalsePositives() returns (r: Result<set<Label>>)
      requires Valid()
      modifies this
      ensures !haveBackgroundLabel ==> r == Err(UsageError) && unchanged(this)
      ensures haveBackgroundLabel ==> SplitLookedUp(gtBackgroundLabel) && (old(Proper()) ==> Proper())
      ensures haveBackgroundLabel ==> r.Ok? && forall a :: a in r.value <==>
        |Partners(cellsByGtToRecLabel, gtBackgroundLabel)| >= 2 &&
        a in Partners(cellsByGtToRecLabel, gtBackgroundLabel) && a != recBackgroundLabel
    {
      if !haveBackgroundLabel {
        return Err(UsageError);
      }
      var partners := GetSplitCells(gtBackgroundLabel);
      var labels := KeysWithout(partners.Keys, true, recBackgroundLabel);
      r := Ok(labels);
    }

    /** getFalseNegatives: the ground-truth labels other than the
        background that the reconstruction background merges; a usage
        error without background label. */
    method GetFalseNegatives() returns (r: Result<set<Label>>)
      requires Valid()
      modifies this
      ensures !haveBackgroundLabel ==> r == Err(UsageError) && unchanged(this)
      ensures haveBackgroundLabel ==> MergeLookedUp(recBackgroundLabel) && (old(Proper()) ==> Proper())
      ensures haveBackgroundLabel ==> r.Ok? && forall a :: a in r.value <==>
        |Partners(cellsByRecToGtLabel, recBackgroundLabel)| >= 2 &&
        a in Partners(cellsByRecToGtLabel, recBackgroundLabel) && a != gtBackgroundLabel
    {
      if !haveBackgroundLabel {
        return Err(UsageError);
      }
      var partners := GetMergeCells(recBackgroundLabel);
      var labels := KeysWithout(partners.Keys, true, gtBackgroundLabel);
      r := Ok(labels);
    }

    /** getFalsePositiveCells: the split cells of the ground-truth
        background; a usage error without background label. */
    method GetFalsePositiveCells() returns (r: Result<map<Label, set<nat>>>)
      requires Valid()
      modifies this
      ensures !haveBackgroundLabel ==> r == Err(UsageError) && unchanged(this)
      ensures haveBackgroundLabel ==> SplitLookedUp(gtBackgroundLabel) && (old(Proper()) ==> Proper())
      ensures haveBackgroundLabel ==> r == Ok(
        if |Partners(cellsByGtToRecLabel, gtBackgroundLabel)| >= 2 then Partners(cellsByGtToRecLabel, gtBackgroundLabel)
        else map[])
    {
      if !haveBackgroundLabel {
        return Err(UsageError);
      }
      var partners := GetSplitCells(gtBackgroundLabel);
      r := Ok(partners);
    }

    /** getFalseNegativeCells: the merge cells of the reconstruction
        background; a usage error without background label. */
    method GetFalseNegativeCells() returns (r: Result<map<Label, set<nat>>>)
      requires Valid()
      modifies this
      ensures !haveBackgroundLabel ==> r == Err(UsageError) && unchanged(this)
      ensures haveBackgroundLabel ==> MergeLookedUp(recBackgroundLabel) && (old(Proper()) ==> Proper())
      ensures haveBackgroundLabel ==> r == Ok(
        if |Partners(cellsByRecToGtLabel, recBackgroundLabel)| >= 2 then Partners(cellsByRecToGtLabel, recBackgroundLabel)
        else map[])
    {
      if !haveBackgroundLabel {
        return Err(UsageError);
      }
      var partners := GetMergeCells(recBackgroundLabel);
      r := Ok(partners);
    }

    /** getReconstructionLabels: the reconstruction labels gtLabel is
        mapped to, in ascending order; the lookup inserts an empty entry for
        a label without one. */
    method GetReconstructionLabels(gtLabel: Label) returns (labels: seq<Label>)
      requires Valid()
      modifies this
      ensures StrictlyIncreasing(labels) && Elems(labels) == Partners(cellsByGtToRecLabel, gtLabel).Keys
      ensures forall r :: r in labels <==> gtLabel in Partners(cellsByRecToGtLabel, r)
      ensures cellsByGtToRecLabel == Touch(old(cellsByGtToRecLabel), gtLabel)
      ensures Valid()
      ensures cellsByRecToGtLabel == old(cellsByRecToGtLabel) && cells == old(cells)
      ensures dirty == old(dirty) && counts == old(counts)
      ensures countedGtToRec == old(countedGtToRec) && countedRecToGt == old(countedRecToGt)
      ensures inferenceTime == old(inferenceTime) && numVariables == old(numVariables)
      ensures old(Proper()) ==> (Proper() <==> gtLabel in old(cellsByGtToRecLabel))
    {
      var partners := Partners(cellsByGtToRecLabel, gtLabel);
      forall r ensures r in partners <==> gtLabel in Partners(cellsByRecToGtLabel, r) {
        TransposedMembers(cellsByGtToRecLabel, cellsByRecToGtLabel, gtLabel, r);
      }
      TouchKeeps(cellsByGtToRecLabel, cellsByRecToGtLabel, gtLabel, NumCells());
      if !dirty {
        TouchCurrent(countedGtToRec, cellsByGtToRecLabel, counts.splits, counts.numSplits, counts.numFalsePositives,
                     haveBackgroundLabel, gtBackgroundLabel, gtLabel);
      }
      cellsByGtToRecLabel := Touch(cellsByGtToRecLabel, gtLabel);
      labels := Elements(partners.Keys);
    }

    /** getGroundTruthLabels: the ground-truth labels recLabel is mapped
        to, in ascending order; the lookup inserts an empty entry for a
        label without one. */
    method GetGroundTruthLabels(recLabel: Label) returns (labels: seq<Label>)
      requires Valid()
      modifies this
      ensures StrictlyIncreasing(labels) && Elems(labels) == Partners(cellsByRecToGtLabel, recLabel).Keys
      ensures forall g :: g in labels <==> recLabel in Partners(cellsByGtToRecLabel, g)
      ensures cellsByRecToGtLabel == Touch(old(cellsByRecToGtLabel), recLabel)
      ensures Valid()
      ensures cellsByGtToRecLabel == old(cellsByGtToRecLabel) && cells == old(cells)
      ensures dirty == old(dirty) && counts == old(counts)
      ensures countedGtToRec == old(countedGtToRec) && countedRecToGt == old(countedRecToGt)
      ensures inferenceTime == old(inferenceTime) && numVariables == old(numVariables)
      ensures old(Proper()) ==> (Proper() <==> recLabel in old(cellsByRecToGtLabel))
    {
      var partners := Partners(cellsByRecToGtLabel, recLabel);
      forall g ensures g in partners <==> recLabel in Partners(cellsByGtToRecLabel, g) {
        TransposedMembers(cellsByGtToRecLabel, cellsByRecToGtLabel, g, recLabel);
      }
      TouchKeeps(cellsByRecToGtLabel, cellsByGtToRecLabel, recLabel, NumCells());
      if !dirty {
        TouchCurrent(countedRecToGt, cellsByRecToGtLabel, counts.merges, counts.numMerges, counts.numFalseNegatives,
                     haveBackgroundLabel, recBackgroundLabel, recLabel);
      }
      cellsByRecToGtLabel := Touch(cellsByRecToGtLabel, recLabel);
      labels := Elements(partners.Keys);
    }

    /** The reconstruction labels of gtLabel, looked up without inserting. */
    method FindReconstructionLabels(gtLabel: Label) returns (labels: seq<Label>)
      requires Valid()
      ensures StrictlyIncreasing(labels) && Elems(labels) == Partners(cellsByGtToRecLabel, gtLabel).Keys
      ensures forall r :: r in labels <==> gtLabel in Partners(cellsByRecToGtLabel, r)
    {
      var partners := Partners(cellsByGtToRecLabel, gtLabel);
      forall r ensures r in partners <==> gtLabel in Partners(cellsByRecToGtLabel, r) {
        TransposedMembers(cellsByGtToRecLabel, cellsByRecToGtLabel, gtLabel, r);
      }
      labels := Elements(partners.Keys);
    }

    /** The ground-truth labels of recLabel, looked up without inserting. */
    method FindGroundTruthLabels(recLabel: Label) returns (labels: seq<Label>)
      requires Valid()
      ensures StrictlyIncreasing(labels) && Elems(labels) == Partners(cellsByRecToGtLabel, recLabel).Keys
      ensures forall g :: g in labels <==> recLabel in Partners(cellsByGtToRecLabel, g)
    {
      var partners := Partners(cellsByRecToGtLabel, recLabel);
      forall g ensures g in partners <==> recLabel in Partners(cellsByGtToRecLabel, g) {
        TransposedMembers(cellsByGtToRecLabel, cellsByRecToGtLabel, g, recLabel);
      }
      labels := Elements(partners.Keys);
    }

    /** getMatches: every (ground truth, reconstruction) label pair that
        shares a cell, ordered by ground-truth label, then reconstruction
        label. */
    method GetMatches() returns (matches: seq<(Label, Label)>)
      requires Valid()
      ensures PairsIncreasing(matches)
      ensures forall p :: p in matches <==> CellsAt(cellsByGtToRecLabel, p.0, p.1) != {}
      ensures forall p :: p in matches <==> CellsAt(cellsByRecToGtLabel, p.1, p.0) != {}
    {
      matches := ListEntries(cellsByGtToRecLabel);
      forall p ensures p in matches <==> CellsAt(cellsByGtToRecLabel, p.0, p.1) != {} {
        assert CellsAt(cellsByGtToRecLabel, p.0, p.1) == CellsAt(cellsByRecToGtLabel, p.1, p.0);
      }
    }

    /** getOverlap: the number of locations in the cells mapped from gtLabel
        to recLabel, summed in unsigned 32-bit arithmetic; a usage error
        before setCells. */
    method GetOverlap(gtLabel: Label, recLabel: Label) returns (r: Result<nat>)
      requires Valid()
      ensures cells.None? ==> r == Err(UsageError)
      ensures cells.Some? ==> r.Ok? && r.value < U32
      ensures cells.Some? ==>
        r == Ok(Wrap32(SumSet(CellsAt(cellsByGtToRecLabel, gtLabel, recLabel), SizeFn(Sizes(cells.value)))))
      ensures cells.Some? && CellsAt(cellsByGtToRecLabel, gtLabel, recLabel) == {} ==> r == Ok(0)
    {
      if cells.None? {
        return Err(UsageError);
      }
      if gtLabel !in cellsByGtToRecLabel || recLabel !in cellsByGtToRecLabel[gtLabel] {
        return Ok(0);
      }
      assert forall c | c in cellsByGtToRecLabel[gtLabel][recLabel] :: c in CellsAt(cellsByGtToRecLabel, gtLabel, recLabel);
      var overlap := TotalSize(cells.value, cellsByGtToRecLabel[gtLabel][recLabel]);
      r := Ok(overlap);
    }

    /** setInferenceTime: records the time the solver took. */
    method SetInferenceTime(time: real)
      modifies this
      ensures inferenceTime == time && GetInferenceTime() == time
      ensures numVariables == old(numVariables) && cells == old(cells) && dirty == old(dirty) && counts == old(counts)
      ensures cellsByGtToRecLabel == old(cellsByGtToRecLabel) && cellsByRecToGtLabel == old(cellsByRecToGtLabel)
      ensures countedGtToRec == old(countedGtToRec) && countedRecToGt == old(countedRecToGt)
      ensures old(Valid()) ==> Valid()
    {
      inferenceTime := time;
    }

    function GetInferenceTime(): real
      reads this
    {
      inferenceTime
    }

    /** setNumVariables: records the size of the solution. */
    method SetNumVariables(num: int)
      modifies this
      ensures numVariables == num && GetNumVariables() == num
      ensures inferenceTime == old(inferenceTime) && cells == old(cells) && dirty == old(dirty) && counts == old(counts)
      ensures cellsByGtToRecLabel == old(cellsByGtToRecLabel) && cellsByRecToGtLabel == old(cellsByRecToGtLabel)
      ensures countedGtToRec == old(countedGtToRec) && countedRecToGt == old(countedRecToGt)
      ensures old(Valid()) ==> Valid()
    {
      numVariables := num;
    }

    function GetNumVariables(): int
      reads this
    {
      numVariables
    }
  }
}
