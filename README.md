# Tolerant edit distance: a verified model

This project models the evaluation core of `ted`, a tool that compares a
volumetric segmentation (the reconstruction) against a ground truth.

The central measure is the tolerant edit distance (TED). The volume is cut
into cells, on each of which both labelings are constant. A tolerance
function (local, distance-based or skeleton-based) decides which other
reconstruction labels each cell may take. An integer linear program then
picks, for every cell, one of its allowed labels so that the number of splits
and merges is smallest. The chosen labeling is read back into:

- error bookkeeping: confusion maps, split, merge, false-positive and
  false-negative counts, and the report strings;
- a corrected reconstruction.

Beside the TED, the model covers:

- the Rand index scores (pairwise agreement, precision, recall and adapted
  Rand error) and the variation of information, both counted from the
  contingency table of the two labelings;
- the detection-overlap error record;
- the report assembler that joins what every kind of errors writes, and the
  default report parameters;
- the pin bookkeeping of the linear-solver front end.

Modules, one per file:

| module | file | models |
|---|---|---|
| `Base` | base.dfy | labels, images and image stacks, the engine's errors, unsigned 32-bit arithmetic |
| `Cells` | cell.dfy | `Cell` and `Location` |
| `LocalTolerance` | local_tolerance.dfy | the possible-match registry shared by all tolerance functions |
| `DistanceTolerance` | distance_tolerance.dfy | boundary map, threshold neighbourhood, relabel candidates, alternative labels |
| `SkeletonTolerance` | skeleton_tolerance.dfy | the skeleton-cell filter |
| `CellMaps` | cell_maps.dfy | confusion maps and `findSplits` |
| `TedErrors` | ted_errors.dfy | `TolerantEditDistanceErrors` |
| `TedIlp` | ted_ilp.dfy | the variables, constraints and objective of the TED program, and what they mean |
| `Ted` | ted.dfy | `TolerantEditDistance`: building the program and reading a solution back |
| `TedSolution` | ted_solution.dfy | agreement between the error mappings and the corrected reconstruction |
| `Contingency` | contingency.dfy | counting label pairs, the contingency table and its sums |
| `Rand` | rand_index.dfy | `RandIndex` |
| `Voi` | voi.dfy | `VariationOfInformation` |
| `DetectionOverlap` | detection_overlap.dfy | `DetectionOverlapErrors` |
| `Report` | report.dfy | `ErrorReport::Parameters` and `ReportAssembler` |
| `Inference` | linear_solver.dfy | `LinearSolver`: pins, dirty flags, variable count |
| `Text`, `Ordered`, `Sums` | text.dfy, ordered.dfy, sums.dfy | decimal formatting, sorted sequences, sums over finite sets |

Objects whose fields the engine updates in place are classes with `modifies`
frames; pure computations are functions and lemmas.

Labels are unbounded naturals. The engine's `unsigned int` counters are
reduced modulo 2^32 wherever the engine wraps (`Base.Wrap32`). The linear
solver itself is not modelled: `FindBestCellLabels` takes its answer as a
parameter, and every proof about the read-back holds for any answer.

## Model

| member | source | states |
|---|---|---|
| Cells.LessIsLexicographic | evaluation/Cell.h:30-47 | Location's `<` is the lexicographic order on (z, y, x) |
| Cells.LessIsStrictTotalOrder | evaluation/Cell.h:30-47 | that order is irreflexive and transitive, and any two distinct locations are comparable |
| Cells.Cell.constructor | evaluation/Cell.h:170-186 | a fresh cell has no content, no boundary and no alternative labels |
| Cells.Cell.SetReconstructionLabel | evaluation/Cell.h:53-56 | only the reconstruction label changes |
| Cells.Cell.SetGroundTruthLabel | evaluation/Cell.h:69-72 | only the ground-truth label changes |
| Cells.Cell.AddAlternativeLabel | evaluation/Cell.h:85-91 | the cell's own label is never added; any other label joins the alternatives; the possible labels become the old ones plus k |
| Cells.Cell.Add | evaluation/Cell.h:104-107 | the location is appended to the content; the size grows by one |
| Cells.Cell.AddBoundary | evaluation/Cell.h:112-115 | the location is appended to the boundary; the content is unchanged |
| Cells.Sizes | evaluation/Cell.h:148-151 | one size per cell, each equal to the length of its content |
| LocalTolerance.RegisterKeeps | evaluation/LocalToleranceFunction.cpp:26-33 | registering a pair in both directions keeps the two match maps transposed and the label sets exact; registering the same pair again changes nothing |
| LocalTolerance.LookupKeeps | evaluation/LocalToleranceFunction.cpp:35-45 | an inserting lookup keeps the registry consistent |
| LocalTolerance.LocalToleranceFunction.constructor | evaluation/LocalToleranceFunction.h:26-29 | resolution 1 on each axis; no cells, labels or matches |
| LocalTolerance.LocalToleranceFunction.SetResolution | evaluation/LocalToleranceFunction.h:36-41 | the three resolutions are set; nothing else changes |
| LocalTolerance.LocalToleranceFunction.Clear | evaluation/LocalToleranceFunction.cpp:3-12 | labels, matches and cells are emptied and the registry is valid; the resolution is kept |
| LocalTolerance.LocalToleranceFunction.RegisterPossibleMatch | evaluation/LocalToleranceFunction.cpp:26-33 | the pair is recorded from both sides and both labels join their label sets; the registry stays valid; a repeat is a no-op |
| LocalTolerance.LocalToleranceFunction.GetPossibleMatchesByGt | evaluation/LocalToleranceFunction.cpp:35-39 | returns the registered partners; an unknown label gets an empty entry and yields {} |
| LocalTolerance.LocalToleranceFunction.GetPossibleMatchesByRec | evaluation/LocalToleranceFunction.cpp:41-45 | the same from the reconstruction side |
| DistanceTolerance.BorderVoxels | evaluation/DistanceToleranceFunction.cpp:170-204 | voxels on the x and y borders are boundary voxels; z-border voxels are boundary voxels exactly when there are several sections |
| DistanceTolerance.InteriorVoxels | evaluation/DistanceToleranceFunction.cpp:170-204 | away from the borders, a voxel is a boundary voxel iff a face neighbour has another label |
| DistanceTolerance.MarkColumn | evaluation/DistanceToleranceFunction.cpp:154-168 | one (x, y) column of the map is set to the boundary test; other entries are untouched |
| DistanceTolerance.CreateBoundaryMap | evaluation/DistanceToleranceFunction.cpp:154-168 | a fresh map of the volume's extents, true exactly on the boundary voxels |
| DistanceTolerance.NeighborhoodAxes | evaluation/DistanceToleranceFunction.cpp:206-248 | the centre is never an offset; every axis offset up to the pixel thresholds is one, whatever the resolution |
| DistanceTolerance.AxisOffsets | evaluation/DistanceToleranceFunction.cpp:214-228 | the z, y and x axis offsets in both directions, without repeats |
| DistanceTolerance.AppendRowOffsets | evaluation/DistanceToleranceFunction.cpp:236-244 | appends exactly the off-axis offsets of one row that lie within the threshold |
| DistanceTolerance.AppendPlaneOffsets | evaluation/DistanceToleranceFunction.cpp:232-245 | the same for one plane |
| DistanceTolerance.CreateNeighborhood | evaluation/DistanceToleranceFunction.cpp:206-248 | an offset is listed iff it is in the threshold neighbourhood; no offset occurs twice |
| DistanceTolerance.ScanOffset | evaluation/DistanceToleranceFunction.cpp:285-316 | after offset t, the labels seen at this location are exactly those other than the cell's own that lie on a boundary within the first t + 1 offsets; the stop flag is set only when every label that covered all earlier locations has been seen again |
| DistanceTolerance.ScanLocation | evaluation/DistanceToleranceFunction.cpp:282-317 | after the k-th location, a label's counter is k iff it was k - 1, is not the cell's own label and lies on a boundary within this location's neighbourhood; the number of such labels is returned |
| DistanceTolerance.AlternativeLabels | evaluation/DistanceToleranceFunction.cpp:250-342 | the result is exactly the labels other than the cell's own that lie on a boundary within the neighbourhood of every location of a non-empty cell, even when the loop stops early |
| DistanceTolerance.NearAlternatives | evaluation/DistanceToleranceFunction.cpp:206-342 | scanning the generated neighbourhood finds the same labels as the declarative distance definition |
| DistanceTolerance.MaxDistanceAtMost | evaluation/DistanceToleranceFunction.cpp:139-144 | the running maximum, started at 0, is at most a bound iff 0 and every location's distance are |
| DistanceTolerance.CellMaxDistance | evaluation/DistanceToleranceFunction.cpp:139-144 | the loop returns the largest squared boundary distance over the cell, starting from 0 |
| DistanceTolerance.FindRelabelCandidates | evaluation/DistanceToleranceFunction.cpp:112-152 | the candidates are the cells whose maximum squared distance is at most the squared threshold, in increasing index order |
| DistanceTolerance.RelabelCandidateIff | evaluation/DistanceToleranceFunction.cpp:147-149 | a cell is a candidate iff every location of it is within the squared threshold |
| DistanceTolerance.AddLabels | evaluation/DistanceToleranceFunction.cpp:88-89 | every given label except the cell's own joins its alternatives; nothing else changes |
| DistanceTolerance.DistanceToleranceFunction.constructor | evaluation/DistanceToleranceFunction.cpp:8-14 | keeps the threshold, the background flag and the background label |
| DistanceTolerance.DistanceToleranceFunction.InitializeCellLabels | evaluation/DistanceToleranceFunction.cpp:104-110 | every cell may keep its own label; no cell changes |
| DistanceTolerance.DistanceToleranceFunction.GainedLabels | evaluation/DistanceToleranceFunction.cpp:76-89 | the alternatives, plus the background when it may appear and the cell is a non-background cell with an alternative, are exactly the labels the cell gains; none is its own label |
| DistanceTolerance.DistanceToleranceFunction.RelabelCell | evaluation/DistanceToleranceFunction.cpp:68-89 | one candidate's possible labels become its old ones plus the labels it gains |
| DistanceTolerance.DistanceToleranceFunction.RelabelCandidates | evaluation/DistanceToleranceFunction.cpp:58-90 | every candidate gains its labels; all other cells are untouched |
| DistanceTolerance.DistanceToleranceFunction.AddPossibleLabels | evaluation/DistanceToleranceFunction.cpp:34-90 | finds the candidates; with none nothing changes, otherwise each candidate gains its labels |
| DistanceTolerance.DistanceToleranceFunction.SetVolume | evaluation/DistanceToleranceFunction.cpp:24-38 | extents and resolution come from the ground truth; the boundary map is that of the reconstruction; each pixel threshold is capped by its extent |
| DistanceTolerance.DistanceToleranceFunction.FindPossibleCellLabels | evaluation/DistanceToleranceFunction.cpp:16-102 | every cell keeps its label; each relabel candidate may in addition take exactly the labels it gains |
| SkeletonTolerance.FilterCells | evaluation/SkeletonToleranceFunction.cpp:11-27 | the candidates are the skeleton cells, ascending; every other cell gets the ignore label on both sides; content, boundary and alternatives stay |
| SkeletonTolerance.SkeletonToleranceFunction.constructor | evaluation/SkeletonToleranceFunction.h:15-21 | a distance tolerance that allows background appearance, with the given threshold and background label |
| SkeletonTolerance.SkeletonToleranceFunction.FindRelabelCandidates | evaluation/SkeletonToleranceFunction.cpp:6-31 | as FilterCells, with earlier candidates discarded and (ignore, ignore) registered as a possible match |
| SkeletonTolerance.RepeatedFilter | evaluation/SkeletonToleranceFunction.cpp:11-38 | a second filtering selects the same cells iff the ignore label is the background or the first filtering replaced nothing |
| SkeletonTolerance.RepeatedFilterIntended | evaluation/SkeletonToleranceFunction.cpp:33-39 | a skeleton test that also refuses the ignore label selects the same cells on every call |
| CellMaps.AddEntryCells | evaluation/TolerantEditDistanceErrors.cpp:308-312 | addEntry adds the cell between a and b and changes nothing else |
| CellMaps.AddMappingKeeps | evaluation/TolerantEditDistanceErrors.cpp:45-57 | recording a cell in both maps keeps them transposed, without empty entries, and naming only existing cells |
| CellMaps.TransposedMembers | evaluation/TolerantEditDistanceErrors.cpp:59-79 | transposed maps hold the same cell between g and r from both sides |
| CellMaps.TouchKeeps | evaluation/TolerantEditDistanceErrors.cpp:59-79 | an inserting lookup changes no cell set and keeps the maps transposed; it leaves an empty entry iff the label was absent |
| CellMaps.FindSplits | evaluation/TolerantEditDistanceErrors.cpp:279-306 | the labels with other than one partner are copied; each is charged its unsigned partners - 1, to the background counter for the background label and to the split counter otherwise |
| CellMaps.VisitLabel | evaluation/TolerantEditDistanceErrors.cpp:285-305 | one pass of that loop: the visited state is extended by one label |
| CellMaps.VisitLabels | evaluation/TolerantEditDistanceErrors.cpp:285-305 | the loop over any order of distinct labels gives the wrapped sums of the charges |
| CellMaps.CountSplits | evaluation/TolerantEditDistanceErrors.cpp:258-277 | findSplits from an empty split map and zeroed counters |
| CellMaps.SplitMapProper | evaluation/TolerantEditDistanceErrors.cpp:279-306 | without empty entries, the labels findSplits copies are exactly those with at least two partners |
| CellMaps.IntendedSplitCount | evaluation/TolerantEditDistanceErrors.cpp:279-306 | without empty entries, the split counter is the sum over labels with k >= 2 partners of k - 1, modulo 2^32 |
| CellMaps.ExcessIncluded | evaluation/TolerantEditDistanceErrors.cpp:291-304 | each label with k >= 2 partners contributes its k - 1 |
| CellMaps.OneToOneCostsNothing | evaluation/TolerantEditDistanceErrors.cpp:279-306 | a one-to-one mapping has no splits and no false positives |
| CellMaps.EmptyEntryWraps | evaluation/TolerantEditDistanceErrors.cpp:291-304 | one empty entry next to a one-to-one mapping gives 4294967295 splits |
| CellMaps.SplitLabelsExact | evaluation/TolerantEditDistanceErrors.cpp:144-166 | without empty entries, the split labels apart from the background are exactly the labels with at least two partners |
| CellMaps.InsertedSplitEntryReported | evaluation/TolerantEditDistanceErrors.cpp:156-178 | an inserting lookup of an unsplit label makes the label query report it |
| CellMaps.KeysWithout | evaluation/TolerantEditDistanceErrors.cpp:144-166 | the keys of the set except the excluded label |
| CellMaps.ListEntries | evaluation/TolerantEditDistanceErrors.cpp:81-98 | every (a, b) entry exactly once, in increasing pair order |
| CellMaps.TouchFound | evaluation/TolerantEditDistanceErrors.cpp:168-190 | a lookup in a counted split map yields the partners of a split label and nothing otherwise; it leaves an empty entry iff the label is neither split nor the background |
| TedErrors.ErrorHeader | evaluation/TolerantEditDistanceErrors.h:155 | split at tabs, the header is TED_FP, TED_FN, TED_FS, TED_FM, TED_SUM |
| TedErrors.ErrorLineFields | evaluation/TolerantEditDistanceErrors.h:157-169 | the report line has one field per value under the header's column; each field reads back as its value |
| TedErrors.ReadableLineAgrees | evaluation/TolerantEditDistanceErrors.h:171-182 | the human-readable line gives the same five values in the same order, each after its name |
| TedErrors.TotalSize | evaluation/TolerantEditDistanceErrors.cpp:100-114 | the sizes of the given cells summed modulo 2^32 |
| TedErrors.TolerantEditDistanceErrors.WithoutBackground | evaluation/TolerantEditDistanceErrors.cpp:9-16 | no cells, empty maps, stale counts, no background labels |
| TedErrors.TolerantEditDistanceErrors.WithBackground | evaluation/TolerantEditDistanceErrors.cpp:18-27 | the same, with the two background labels as given |
| TedErrors.TolerantEditDistanceErrors.SetCells | evaluation/TolerantEditDistanceErrors.cpp:29-34 | the cells are set and all mappings forgotten |
| TedErrors.TolerantEditDistanceErrors.Clear | evaluation/TolerantEditDistanceErrors.cpp:36-43 | both maps are empty and the counts are stale |
| TedErrors.TolerantEditDistanceErrors.AddMapping | evaluation/TolerantEditDistanceErrors.cpp:45-57 | a usage error before setCells; otherwise the cell joins both maps under its ground-truth label and recLabel, and the counts are stale |
| TedErrors.TolerantEditDistanceErrors.UpdateErrorCounts | evaluation/TolerantEditDistanceErrors.cpp:258-277 | stale counts are recomputed by findSplits on both maps; fresh ones are kept, so a second call changes nothing |
| TedErrors.TolerantEditDistanceErrors.Recount | evaluation/TolerantEditDistanceErrors.cpp:266-276 | both split maps are recomputed from the current confusion maps and the counts are fresh; the maps, cells, time and variable count are unchanged |
| TedErrors.TolerantEditDistanceErrors.GetNumSplits | evaluation/TolerantEditDistanceErrors.cpp:116-121 | the split counter of the current maps |
| TedErrors.TolerantEditDistanceErrors.GetNumMerges | evaluation/TolerantEditDistanceErrors.cpp:123-128 | the merge counter of the current maps |
| TedErrors.TolerantEditDistanceErrors.GetNumFalsePositives | evaluation/TolerantEditDistanceErrors.cpp:130-135 | the charge of the ground-truth background |
| TedErrors.TolerantEditDistanceErrors.GetNumFalseNegatives | evaluation/TolerantEditDistanceErrors.cpp:137-142 | the charge of the reconstruction background |
| TedErrors.TolerantEditDistanceErrors.GetNumErrors | evaluation/TolerantEditDistanceErrors.h:91-94 | the four counters added as unsigned ints |
| TedErrors.TolerantEditDistanceErrors.ErrorString | evaluation/TolerantEditDistanceErrors.h:157-169 | FP, FN, FS, FM and their sum, tab-separated |
| TedErrors.TolerantEditDistanceErrors.HumanReadableErrorString | evaluation/TolerantEditDistanceErrors.h:171-182 | the same values, each after its name |
| TedErrors.TolerantEditDistanceErrors.GetSplitLabels | evaluation/TolerantEditDistanceErrors.cpp:156-166 | the split-map labels without the background; without lookup residue, exactly the labels with at least two partners |
| TedErrors.TolerantEditDistanceErrors.GetMergeLabels | evaluation/TolerantEditDistanceErrors.cpp:144-154 | the same for merges |
| TedErrors.TolerantEditDistanceErrors.GetSplitCells | evaluation/TolerantEditDistanceErrors.cpp:224-229 | the partners of a split label, {} otherwise; an empty entry is left behind for an unsplit label |
| TedErrors.TolerantEditDistanceErrors.GetMergeCells | evaluation/TolerantEditDistanceErrors.cpp:231-236 | the same for merges |
| TedErrors.TolerantEditDistanceErrors.LookUpSplit | evaluation/TolerantEditDistanceErrors.cpp:224-229 | on fresh counts, the inserting lookup in the split map returns the partners of a split label and {} otherwise, and touches only that entry |
| TedErrors.TolerantEditDistanceErrors.GetSplits | evaluation/TolerantEditDistanceErrors.cpp:168-178 | the reconstruction labels that split gtLabel |
| TedErrors.TolerantEditDistanceErrors.GetMerges | evaluation/TolerantEditDistanceErrors.cpp:180-190 | the ground-truth labels that recLabel merges |
| TedErrors.TolerantEditDistanceErrors.GetFalsePositives | evaluation/TolerantEditDistanceErrors.cpp:192-206 | a usage error without background label; otherwise the labels the ground-truth background splits into, except the reconstruction background |
| TedErrors.TolerantEditDistanceErrors.GetFalseNegatives | evaluation/TolerantEditDistanceErrors.cpp:208-222 | the same from the reconstruction background |
| TedErrors.TolerantEditDistanceErrors.GetFalsePositiveCells | evaluation/TolerantEditDistanceErrors.cpp:238-246 | a usage error without background label; otherwise the split cells of the ground-truth background |
| TedErrors.TolerantEditDistanceErrors.GetFalseNegativeCells | evaluation/TolerantEditDistanceErrors.cpp:248-256 | the merge cells of the reconstruction background |
| TedErrors.TolerantEditDistanceErrors.GetReconstructionLabels | evaluation/TolerantEditDistanceErrors.cpp:59-68 | the partners of gtLabel in ascending order, which are the labels whose ground-truth partners include gtLabel; the lookup inserts an empty entry |
| TedErrors.TolerantEditDistanceErrors.GetGroundTruthLabels | evaluation/TolerantEditDistanceErrors.cpp:70-79 | the same from the reconstruction side |
| TedErrors.TolerantEditDistanceErrors.FindReconstructionLabels | evaluation/TolerantEditDistanceErrors.cpp:59-68 | the same result as GetReconstructionLabels, without inserting anything |
| TedErrors.TolerantEditDistanceErrors.FindGroundTruthLabels | evaluation/TolerantEditDistanceErrors.cpp:70-79 | the same result as GetGroundTruthLabels, without inserting anything |
| TedErrors.TolerantEditDistanceErrors.GetMatches | evaluation/TolerantEditDistanceErrors.cpp:81-98 | every label pair sharing a cell, ordered by ground-truth and then reconstruction label, read the same from both maps |
| TedErrors.TolerantEditDistanceErrors.GetOverlap | evaluation/TolerantEditDistanceErrors.cpp:100-114 | a usage error before setCells; otherwise the size of the cells between the two labels, modulo 2^32 |
| TedErrors.TolerantEditDistanceErrors.SetInferenceTime | evaluation/TolerantEditDistanceErrors.h:184 | the time is recorded; nothing else changes |
| TedErrors.TolerantEditDistanceErrors.SetNumVariables | evaluation/TolerantEditDistanceErrors.h:188 | the variable count is recorded; nothing else changes |
| TedIlp.TotalBinary | evaluation/TolerantEditDistance.cpp:205-237 | over binary variables, their total is the number of variables set |
| TedIlp.BlockAt | evaluation/TolerantEditDistance.cpp:205-237 | the indicators of cell c form one contiguous block: its own label, then one per alternative |
| TedIlp.CellConstraintMeaning | evaluation/TolerantEditDistance.cpp:222-236 | over binary indicators, a cell constraint holds iff exactly one indicator of the cell is set |
| TedIlp.LabelConstraintMeaning | evaluation/TolerantEditDistance.cpp:242-252 | a label constraint holds iff some indicator of the label is set |
| TedIlp.MatchConstraintsMeaning | evaluation/TolerantEditDistance.cpp:261-292 | the link and no-match constraints hold iff the match variable is 1 when some indicator of the pair is set and 0 otherwise |
| TedIlp.CountConstraintsMeaning | evaluation/TolerantEditDistance.cpp:296-388 | a counter's constraints hold iff it is one less than the number of its label's matches, and that number is positive |
| TedIlp.TotalConstraintMeaning | evaluation/TolerantEditDistance.cpp:318-339 | the total constraint holds iff the total is the sum of the counters |
| TedIlp.TieBreaksBelowOne | evaluation/TolerantEditDistance.cpp:394-408 | for cells that fit in the volume, the tie-breaking coefficients add up to less than one split or merge |
| TedIlp.VolumeWraps | evaluation/TolerantEditDistance.cpp:405 | a volume of 2^32 voxels wraps to 0, and a one-voxel cell then costs as much as a split |
| TedIlp.MatchPairsMembers | evaluation/TolerantEditDistance.cpp:256-258 | the match pairs are exactly a listed ground-truth label with one of its possible matches |
| Ted.Coefficients | evaluation/TolerantEditDistance.cpp:226-233 | coefficient c on exactly the listed variables |
| Ted.LinkConstraints | evaluation/TolerantEditDistance.cpp:266-288 | one link constraint per indicator of the pair, in order, then the no-match constraint |
| Ted.CellConstraintFor | evaluation/TolerantEditDistance.cpp:222-236 | the indicators of one block sum to exactly 1 |
| Ted.LabelConstraintsFor | evaluation/TolerantEditDistance.cpp:242-252 | one at-least-one constraint per reconstruction label, in ascending order |
| Ted.PairConstraintsFor | evaluation/TolerantEditDistance.cpp:264-291 | the constraints of one (g, r) pair |
| Ted.PartnerMatchConstraints | evaluation/TolerantEditDistance.cpp:264-291 | those of g with each of its partners, in order |
| Ted.MatchConstraintsFor | evaluation/TolerantEditDistance.cpp:261-292 | the match constraints of every pair in match-variable order |
| Ted.CountCoefficients | evaluation/TolerantEditDistance.cpp:300-316 | 1 on the counter and -1 on the match variable of each partner |
| Ted.CounterConstraints | evaluation/TolerantEditDistance.cpp:296-388 | per label a non-negative counter one less than its matches, numbered from begin, then the total counter |
| Ted.ObjectiveFor | evaluation/TolerantEditDistance.cpp:394-408 | 1 on the total splits and merges, the tie-breaking coefficient on each alternative indicator, minimised |
| Ted.ProgramTail | evaluation/TolerantEditDistance.cpp:242-388 | the constraints after the cell constraints, phase by phase |
| Ted.PartnerMatchVariables | evaluation/TolerantEditDistance.cpp:256-258 | match variables numbered on for the partners of g, stored as assignMatchVariable stores them |
| Ted.MatchVariables | evaluation/TolerantEditDistance.cpp:256-258 | one match variable per ground-truth label and possible match, numbered from start in ascending order |
| Ted.BuildProgram | evaluation/TolerantEditDistance.cpp:242-408 | everything after the indicators is the program the `ProgramOf` definition describes |
| Ted.Paint | evaluation/TolerantEditDistance.cpp:520-527 | the label is written at every location of the content, and nowhere else |
| Ted.CorrectedVolume | evaluation/TolerantEditDistance.cpp:504-530 | zeros, then the label of every set indicator at the locations of its cell, in order |
| Ted.AddChosenMappings | evaluation/TolerantEditDistance.cpp:443-452 | one addMapping per set indicator, in order |
| Ted.FillErrors | evaluation/TolerantEditDistance.cpp:421-502 | the errors get the cells, the chosen mappings, the solver time and the number of variables |
| Ted.MapIndicator | evaluation/TolerantEditDistance.cpp:443-452 | the addMapping of one indicator, if it is set |
| Ted.TolerantEditDistance.constructor | evaluation/TolerantEditDistance.cpp:52-88 | the errors carry background labels exactly when the volumes have them; all bookkeeping starts empty |
| Ted.TolerantEditDistance.AssignIndicatorVariable | evaluation/TolerantEditDistance.cpp:532-541 | the indicator is recorded under its label, its pair and its variable |
| Ted.TolerantEditDistance.AddOwnIndicator | evaluation/TolerantEditDistance.cpp:211-214 | the indicator of a cell's own label |
| Ted.TolerantEditDistance.AddAlternativeIndicator | evaluation/TolerantEditDistance.cpp:216-220 | the indicator of one alternative, also recorded with its cell's size |
| Ted.TolerantEditDistance.AddAlternativeIndicators | evaluation/TolerantEditDistance.cpp:216-220 | one indicator per alternative, ascending |
| Ted.TolerantEditDistance.AddCellIndicators | evaluation/TolerantEditDistance.cpp:205-221 | a cell's block: own label first, then the alternatives |
| Ted.TolerantEditDistance.AddIndicators | evaluation/TolerantEditDistance.cpp:205-237 | one indicator per cell and possible label, block after block, and the cell constraints |
| Ted.TolerantEditDistance.FindBestCellLabels | evaluation/TolerantEditDistance.cpp:193-419 | the indicators are the labeling of the cells; the program is the one `ProgramOf` defines over the unwrapped volume; the solver's answer is kept |
| Ted.TolerantEditDistance.Clear | evaluation/TolerantEditDistance.cpp:112-127 | tolerance function, bookkeeping, error mappings and corrected sections are emptied |
| Ted.TolerantEditDistance.ExtractCells | evaluation/TolerantEditDistance.cpp:129-145 | a size mismatch in depth, width or height fails with no change; otherwise the extents and the resolution are kept |
| Ted.TolerantEditDistance.CorrectReconstruction | evaluation/TolerantEditDistance.cpp:504-530 | every voxel carries the label of the last set indicator whose cell contains it, else 0 |
| Ted.TolerantEditDistance.FindErrors | evaluation/TolerantEditDistance.cpp:421-502 | the confusion maps are those of the set indicators; the solver time and the variable count are recorded |
| TedSolution.ChosenCells | evaluation/TolerantEditDistance.cpp:443-452 | a cell is mapped between g and r iff a set indicator gives it r and it has ground-truth label g, in both maps |
| TedSolution.ChosenTransposed | evaluation/TolerantEditDistance.cpp:443-452 | the two maps findErrors builds are transposes |
| TedSolution.SelectedOfCell | evaluation/TolerantEditDistance.cpp:222-236 | under its cell constraint, exactly one indicator of a cell is set, and it gives the cell its own label or an alternative |
| TedSolution.CorrectedOnly | evaluation/TolerantEditDistance.cpp:516-527 | a location that only one set indicator's cell contains gets that indicator's label |
| TedSolution.CorrectedNone | evaluation/TolerantEditDistance.cpp:508-527 | a location that no set indicator's cell contains stays 0 |
| TedSolution.CorrectionAgreesWithErrors | evaluation/TolerantEditDistance.cpp:421-530 | for disjoint cells, each location of a cell gets one of its possible labels, and the cell is mapped between its ground-truth label and that label only |
| Contingency.CountsAreMultiplicities | evaluation/RandIndex.cpp:147-149 | each counter is the multiplicity of its key; only occurring keys have one |
| Contingency.Totals | evaluation/RandIndex.cpp:147-149 | the table and both marginals each sum to the number of counted voxels |
| Contingency.Marginals | evaluation/RandIndex.cpp:147-149 | each marginal counter is the sum of its row or column |
| Contingency.SquareSums | evaluation/RandIndex.cpp:163-189 | the squared cells sum to at least the voxel count and at most either squared marginal |
| Contingency.AgreeingPairsFormula | evaluation/RandIndex.cpp:157-191 | twice the pairwise count of agreeing voxel pairs equals the numerator the engine halves |
| Contingency.AgreeingPairsBound | evaluation/RandIndex.cpp:157-191 | at most N(N-1)/2 pairs agree |
| Contingency.IdenticalLabelingsAgree | evaluation/RandIndex.cpp:157-191 | when both labelings coincide, every pair agrees |
| Contingency.AgreeingPairsRelabeled | evaluation/RandIndex.cpp:157-191 | renaming either labeling's labels one-to-one leaves the agreeing pair count unchanged |
| Rand.RandIndexRelabeled | evaluation/RandIndex.cpp:41-103 | the Rand index depends on the two partitions only: a one-to-one renaming of the labels of either stack leaves it unchanged |
| Rand.RandIndexInUnit | evaluation/RandIndex.cpp:44-45 | from two counted voxels on, the index is defined and in [0, 1] |
| Rand.ScoresInUnit | evaluation/RandIndex.cpp:86-103 | over at least one voxel, precision and recall are in (0, 1] and the error in [0, 1) |
| Rand.IdenticalScores | evaluation/RandIndex.cpp:86-103 | a labeling compared with itself scores 1, 1, error 0 and index 1 |
| Rand.CountVoxel | evaluation/RandIndex.cpp:141-149 | a skipped voxel lowers the location count; any other increments its cell and two marginals |
| Rand.CountSection | evaluation/RandIndex.cpp:139-150 | one section in lockstep |
| Rand.CountStacks | evaluation/RandIndex.cpp:130-151 | the table and marginals are the counts of the counted voxels; the location count is the kept voxels |
| Rand.SumTable | evaluation/RandIndex.cpp:163-171 | adds the ordered same-cell pairs to A and the squared cells to B and the joint count |
| Rand.SumMarginal | evaluation/RandIndex.cpp:173-189 | takes the squared counters off B and adds them to that side's count |
| Rand.SameShape | evaluation/RandIndex.cpp:28-31 | stacks of equal depth are walked in lockstep over depth*width*height locations |
| Rand.RandIndex.constructor | evaluation/RandIndex.cpp:7-8 | keeps the ignore-background flag |
| Rand.RandIndex.GetNumAgreeingPairs | evaluation/RandIndex.cpp:108-192 | returns the pairwise agreeing count, the kept voxels and the three same-region counts |
| Rand.RandIndex.Compute | evaluation/RandIndex.cpp:10-106 | a depth mismatch fails; empty stacks score index 1; otherwise the scores of the counted voxels |
| Rand.RandIndex.Scores | evaluation/RandIndex.cpp:41-103 | the scores from the counts |
| Voi.FrequencyIsShare | evaluation/VariationOfInformation.cpp:53-58 | each label frequency is its multiplicity over the counted voxels, in (0, 1] |
| Voi.CountVoxel | evaluation/VariationOfInformation.cpp:37-48 | a skipped voxel lowers n; any other increments its three counters |
| Voi.CountSection | evaluation/VariationOfInformation.cpp:29-48 | n grows by the section size less the skipped voxels |
| Voi.CountStacks | evaluation/VariationOfInformation.cpp:22-49 | counts up to the first pair of sections of different sizes and reports it |
| Voi.Normalize | evaluation/VariationOfInformation.cpp:53-58 | every entry divided by n, keys unchanged |
| Voi.ErrorsFrom | evaluation/VariationOfInformation.cpp:86-103 | split entropy H1 - I and merge entropy H2 - I; their sum is H1 + H2 - 2I |
| Voi.ErrorHeader | evaluation/VariationOfInformationErrors.h:45 | split at tabs, the header is VOI_SPLIT, VOI_MERGE, VOI |
| Voi.VariationOfInformation.constructor | evaluation/VariationOfInformation.cpp:7-8 | keeps the flag; empty maps |
| Voi.VariationOfInformation.Compute | evaluation/VariationOfInformation.cpp:10-110 | a depth mismatch fails with no change; a section-size mismatch fails with the earlier counts kept; otherwise the maps are the frequencies and the scores come from them |
| DetectionOverlap.Ratio | evaluation/DetectionOverlapErrors.h:48-62 | None iff the sum is 0; otherwise a share in [0, 1], 1 iff the other count is 0, and 0 iff tp is 0 |
| DetectionOverlap.Lookup | evaluation/DetectionOverlapErrors.h:72-85 | a recorded score, or out-of-range for an unknown pair |
| DetectionOverlap.HarmonicMeanOfCounts | evaluation/DetectionOverlapErrors.h:64-70 | defined iff tp > 0, and then 2tp/(2tp+fp+fn), in (0, 1], and 1 iff fp = fn = 0 |
| DetectionOverlap.DetectionOverlapErrors.constructor | evaluation/DetectionOverlapErrors.h:194-200 | no false positives, no false negatives, no matches |
| DetectionOverlap.DetectionOverlapErrors.AddFalsePositive | evaluation/DetectionOverlapErrors.h:12-15 | a set insert: a repeat changes nothing, a new label adds one |
| DetectionOverlap.DetectionOverlapErrors.AddFalseNegative | evaluation/DetectionOverlapErrors.h:17-20 | the same for false negatives |
| DetectionOverlap.DetectionOverlapErrors.AddMatch | evaluation/DetectionOverlapErrors.h:25-31 | the pair joins the matches; its three scores replace earlier ones; other pairs keep theirs |
| DetectionOverlap.DetectionOverlapErrors.GetM1 | evaluation/DetectionOverlapErrors.h:72-75 | succeeds iff the pair was matched; otherwise out-of-range |
| DetectionOverlap.DetectionOverlapErrors.GetM2 | evaluation/DetectionOverlapErrors.h:77-80 | the same for the second score |
| DetectionOverlap.DetectionOverlapErrors.GetDice | evaluation/DetectionOverlapErrors.h:82-85 | the same for the Dice score |
| DetectionOverlap.DetectionOverlapErrors.Recall | evaluation/DetectionOverlapErrors.h:48-54 | undefined iff nothing is matched or missed; otherwise in [0, 1], and 1 iff there are no false negatives |
| DetectionOverlap.DetectionOverlapErrors.Precision | evaluation/DetectionOverlapErrors.h:56-62 | the same over the false positives |
| DetectionOverlap.DetectionOverlapErrors.FScoreClosedForm | evaluation/DetectionOverlapErrors.h:64-70 | the F-score is defined iff something is matched, equals 2tp/(2tp+fp+fn), is at most 1, and is 1 iff there are no false positives or negatives |
| DetectionOverlap.DetectionOverlapErrors.Clear | evaluation/DetectionOverlapErrors.h:147-151 | false positives and negatives are emptied, matches kept, so precision and recall become 1 when something is matched |
| Report.DefaultsReportTedOnly | evaluation/ErrorReport.h:18-30 | by default only the TED is reported, with threshold 10 and background label 0 on both sides |
| Report.AppendedJoins | evaluation/ErrorReport.h:131-148 | appending with "separator only after something" joins the parts from the first non-empty one on |
| Report.AppendedAllWritten | evaluation/ErrorReport.h:131-148 | with every part non-empty, the parts are joined with the separator |
| Report.ReportAssembler.constructor | evaluation/ErrorReport.h:110-121 | keeps headerOnly |
| Report.ReportAssembler.UpdateOutputs | evaluation/ErrorReport.h:125-151 | headers joined with tabs; values with tabs and readable forms with "; ", unless headerOnly, in which case both stay empty |
| Inference.GetNumVariables | inference/LinearSolver.cpp:174-197 | at least the objective's size and above every variable of every constraint, and the least such: the objective's size or one past a constraint's variable |
| Inference.RepinnedIsLost | inference/LinearSolver.cpp:128-142 | a variable both pinned and in the unpin list ends up unpinned in the backend |
| Inference.UnpinsFirstSyncs | inference/LinearSolver.cpp:128-142 | unpinning before pinning leaves the backend pins equal to the front end's |
| Inference.OrdersAgreeWhenDisjoint | inference/LinearSolver.cpp:128-142 | both orders agree when no pinned variable awaits unpinning |
| Inference.LinearSolver.constructor | inference/LinearSolver.cpp:10-15 | all inputs dirty; no pins |
| Inference.LinearSolver.PinVariable | inference/LinearSolver.cpp:36-46 | re-pinning to the same value is a no-op; otherwise the pin is set and marked changed |
| Inference.LinearSolver.UnpinVariable | inference/LinearSolver.cpp:48-62 | true iff the variable was pinned; it is then removed, queued for unpinning and marked changed |
| Inference.LinearSolver.OnObjectiveModified | inference/LinearSolver.cpp:64-68 | only the objective flag is set |
| Inference.LinearSolver.OnLinearConstraintsModified | inference/LinearSolver.cpp:70-74 | only the constraints flag is set |
| Inference.LinearSolver.OnParametersModified | inference/LinearSolver.cpp:76-80 | only the parameters flag is set |
| Inference.LinearSolver.UpdateInputs | inference/LinearSolver.cpp:93-127 | each dirty input is pushed and its flag cleared: the backend gets the variable count and types, the objective, the constraints; clean inputs are left as they were |
| Inference.LinearSolver.UpdatePins | inference/LinearSolver.cpp:128-142 | when pins changed, the backend receives every pin and then every unpin, and the unpin list is emptied |
| Inference.LinearSolver.UpdatePinsUnpinsFirst | inference/LinearSolver.cpp:128-142 | the corrected order: the backend pins then equal the front end's, the unpin list is empty |
| Inference.LinearSolver.UpdateLinearProgram | inference/LinearSolver.cpp:90-143 | each dirty input is pushed to the backend and its flag cleared; with dirty parameters the backend gets the least variable count covering the objective and every constraint and the variable types, with clean ones both stay as they were; pins are applied, then unpins |
| Inference.LinearSolver.UpdateLinearProgramUnpinsFirst | inference/LinearSolver.cpp:90-143 | the same inputs, variable count and types as updateLinearProgram, with unpins applied first; the backend pins then equal the front end's |
| Inference.RepinScenario | inference/LinearSolver.cpp:36-142 | pin, sync, unpin, re-pin: the solver pins the variable, the backend as written does not, the corrected order does |
| Text.Header | evaluation/TolerantEditDistanceErrors.h:155 | names joined by a separator none of them contains split back into the names |
| Text.ParseNatToString | evaluation/TolerantEditDistanceErrors.h:157-169 | a decimal counter reads back as itself |
| Text.ReadBack | evaluation/TolerantEditDistanceErrors.h:157-169 | numbers joined with a non-digit separator split back into one field per number, each parsing to that number |

## Left out

- Integer widths. Labels and counts are unbounded naturals except where a wrap matters:
  - unsigned partner charges and counters (`Base.Wrap32`);
  - `getOverlap`;
  - `getNumErrors`;
  - the as-written volume.
- Rand.RandIndex.Compute: does not model the 32-bit product `depth*width*height` (evaluation/RandIndex.cpp:16, 28-31), the uint64 `numLocations--` or the uint64 accumulators A, B and the same-region counts (:143, :157-191). These are exact integers, so uint64 overflow on very large volumes is not captured.
- Rand.RandIndex.Compute: for stacks of equal, non-zero depth, requires each ground-truth section to have at least as many pixels as a reconstruction section (evaluation/RandIndex.cpp:28-29, 134-150 walk both stacks in lockstep from the reconstruction's extents). With fewer, the engine reads past the end of the ground truth, which the model does not represent. Stacks of different depths and empty stacks are accepted and give the size-mismatch error and the empty scores.
- Rand.RandIndexRelabeled: proves the relabelling invariance of the Rand index only; precision, recall and the adapted Rand error depend on the partitions alone as well, but that is not proved here.
- Rand.RandIndex.GetNumAgreeingPairs: requires `numLocations` to be the true number of voxel pairs walked, which is what its one caller passes.
- Voi.VariationOfInformation.Compute: the `unsigned int n` counter (evaluation/VariationOfInformation.cpp:25-43) is an exact integer.
- Voi.VariationOfInformation.Compute: the log2 entropy sums (evaluation/VariationOfInformation.cpp:62-84) are an `Information` parameter. The model proves how the scores follow from the entropies, not the entropies themselves.
- Ted.TolerantEditDistance.FindBestCellLabels: uses the exact `Volume`, not the engine's unsigned 32-bit product (see Findings).
- Floating point. Floats and doubles are exact reals, for:
  - the Rand and detection scores;
  - resolutions, thresholds and tie-break coefficients;
  - label values of the detection errors and report parameters.

  A division the engine evaluates to NaN or infinity is `None`. `Cell::size()` truncation to `unsigned int` is not modelled.
- DistanceTolerance.DistanceToleranceFunction.FindPossibleCellLabels: two inputs are taken as given. The rounded thresholds `round(threshold / resolution)` (evaluation/DistanceToleranceFunction.cpp:36-38) are the parameters `roundedX/Y/Z`. The vigra distance transform (:128) is the function `boundaryDistance2`.
- DistanceTolerance.DistanceToleranceFunction.InitializeCellLabels: `Cell` has no `addPossibleLabel`. The calls at DistanceToleranceFunction.cpp:89 and :109 are read as `addAlternativeLabel`, and a cell's possible labels are its own label plus its alternatives. The initialisation therefore changes nothing and only states that every cell may keep its label.
- Ted.TolerantEditDistance.FindErrors: the four error-location stacks (evaluation/TolerantEditDistance.cpp:428-435, 465-498) are not modelled.
- Ted.TolerantEditDistance.ExtractCells: the cell extraction itself (evaluation/TolerantEditDistance.cpp:146-191) is not modelled. It is connected-component labelling through vigra, delegated to the tolerance function. The cells are inputs to everything after it.
- The composed `updateOutputs` order (evaluation/TolerantEditDistance.cpp:95-110) has no method of its own. Its steps are modelled one by one, each with the precondition it needs from the step before.
- The linear solver backend is not modelled: `solve` (inference/LinearSolver.cpp:145-172), its timer and the solution object. `FindBestCellLabels` takes the solver's answer as a parameter.
- Inference.GetNumVariables: the unsigned `varNum + 1` wrap is not modelled.
- DetectionOverlap: `getMean*`/`getStdDev*` (evaluation/DetectionOverlapErrors.h:87-145) are not modelled; they are floating-point statistics over the scores. Neither are the report strings (:153-190). `getFalsePositives`, `getFalseNegatives` and `getMatches` are the fields themselves.
- `Cell::remove` and `removeBoundary` (evaluation/Cell.h:121-143) are not modelled. They call `find` on a `std::vector`, which has no such member, and nothing instantiates them.
- SkeletonToleranceFunction.cpp uses `_ignoreLabel`, `_gtBackgroundLabel` and `_relabelCandidates`, which its header does not declare. Its `findRelabelCandidates(const std::vector<float>&)` does not override the base class's `findRelabelCandidates(cells, recLabels, gtLabels)`. The model gives the class those three members and models the .cpp as written.
- Pipeline wiring, logging, timers, exceptions' messages, the Python bindings and the command-line driver are not modelled.
- The `ErrorReport` process node (evaluation/ErrorReport.cpp), which wires the measures into the pipeline, is not modelled: it is plumbing between process nodes.

## Findings

| source | as written | input that shows it | evidently intended | confidence | as-written member | corrected member |
|---|---|---|---|---|---|---|
| evaluation/TolerantEditDistanceErrors.cpp:59-79, :291 | `getReconstructionLabels` and `getGroundTruthLabels` look labels up with `operator[]`, which inserts an empty entry; `findSplits` then charges that entry `partners - 1` in unsigned arithmetic | `addMapping` of one cell from ground-truth label 3 to label 1, then `getReconstructionLabels(7)`, then `getNumSplits()`: 4294967295 splits | a lookup that inserts nothing, so the split count stays the sum of k - 1 over labels with k >= 2 partners | not executed; high | CellMaps.EmptyEntryWraps, TedErrors.TolerantEditDistanceErrors.GetReconstructionLabels | TedErrors.TolerantEditDistanceErrors.FindReconstructionLabels, CellMaps.IntendedSplitCount |
| evaluation/TolerantEditDistance.cpp:405 | the tie-break denominator is `_width*_height*_depth` in unsigned 32-bit arithmetic | a 65536 x 65536 x 1 volume: the product wraps to 0, and a one-voxel cell's alternative costs as much as a split | the exact voxel count, so that all tie-breaks together stay below one error | not executed; medium (needs a 2^32-voxel volume) | TedIlp.VolumeAsWritten, TedIlp.VolumeWraps | TedIlp.Volume, TedIlp.TieBreaksBelowOne |
| inference/LinearSolver.cpp:128-142 | pending pins are sent to the backend before pending unpins | `pinVariable(0, 1.0)`, `updateLinearProgram()`, `unpinVariable(0)`, `pinVariable(0, 1.0)`, `updateLinearProgram()`: the front end holds the pin, the backend has dropped it | apply the unpins first, then the pins | not executed; high | Inference.LinearSolver.UpdateLinearProgram, Inference.RepinnedIsLost, Inference.RepinScenario | Inference.LinearSolver.UpdateLinearProgramUnpinsFirst, Inference.UnpinsFirstSyncs |
| evaluation/SkeletonToleranceFunction.cpp:11-38 | the candidate list is cleared, but the skeleton test reads labels that the previous call overwrote with the ignore label | ground-truth labels [0], background 0, ignore 1: the first call lists no cell, the second lists cell 0 | repeated calls give the same list | not executed; low (the pipeline re-extracts cells before every call) | SkeletonTolerance.RepeatedFilter | SkeletonTolerance.RepeatedFilterIntended |
