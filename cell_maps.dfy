/** The confusion maps of the tolerant edit distance and what findSplits
    computes from them. Cells are mapped to reconstruction labels; two
    transposed confusion maps record, for every ground-truth label and
    reconstruction label, the cells mapped between them. A label with k >= 2
    partners costs k - 1 errors: splits for ground-truth labels, merges for
    reconstruction labels, and false positives / false negatives when the
    label is the background. */
module CellMaps {
  import opened Base
  import opened Sums
  import opened Ordered

  /** label -> partner label -> indices of the cells mapped between them
      (cell_map_t). */
  type CellMap = map<Label, map<Label, set<nat>>>

  /** The partners of a, or none for a label without an entry. */
  function Partners(m: CellMap, a: Label): map<Label, set<nat>> {
    if a in m then m[a] else map[]
  }

  /** The cells mapped between a and b. */
  function CellsAt(m: CellMap, a: Label, b: Label): set<nat> {
    var p := Partners(m, a);
    if b in p then p[b] else {}
  }

  /** addEntry: map[a][b].insert(c), creating the entries on the way. */
  function AddEntry(m: CellMap, a: Label, b: Label, c: nat): CellMap {
    m[a := Partners(m, a)[b := CellsAt(m, a, b) + {c}]]
  }

  /** addEntry adds c to the cells between a and b and changes nothing
      else; it creates the entries for a and for b under a if missing. */
  lemma AddEntryCells(m: CellMap, a: Label, b: Label, c: nat)
    ensures CellsAt(AddEntry(m, a, b, c), a, b) == CellsAt(m, a, b) + {c}
    ensures forall x, y | x != a || y != b :: CellsAt(AddEntry(m, a, b, c), x, y) == CellsAt(m, x, y)
    ensures forall x | x != a :: Partners(AddEntry(m, a, b, c), x) == Partners(m, x)
    ensures AddEntry(m, a, b, c).Keys == m.Keys + {a}
    ensures Partners(AddEntry(m, a, b, c), a).Keys == Partners(m, a).Keys + {b}
  {
  }

  /** t holds the same cells as m with the two labels swapped. */
  ghost predicate Transposed(m: CellMap, t: CellMap) {
    forall a, b :: CellsAt(m, a, b) == CellsAt(t, b, a)
  }

  /** Every (label, partner) entry holds at least one cell. */
  ghost predicate NoEmptyCells(m: CellMap) {
    forall a, b | a in m && b in m[a] :: m[a][b] != {}
  }

  /** Every label entry has at least one partner. */
  ghost predicate NoEmptyEntries(m: CellMap) {
    forall a | a in m :: m[a] != map[]
  }

  /** As NoEmptyEntries, except possibly for the background label. */
  ghost predicate NoEmptyEntriesBut(m: CellMap, haveBackground: bool, background: Label) {
    forall a | a in m && !(haveBackground && a == background) :: m[a] != map[]
  }

  /** m and n agree on every label's partners; they may differ only in
      labels whose entry is empty. */
  ghost predicate SameEntries(m: CellMap, n: CellMap) {
    forall a :: Partners(m, a) == Partners(n, a)
  }

  lemma SameEntriesEqual(m: CellMap, n: CellMap)
    requires SameEntries(m, n) && m.Keys <= n.Keys && NoEmptyEntries(n)
    ensures m == n
  {
    forall a | a in n ensures a in m {
      assert Partners(n, a) != map[];
      assert Partners(m, a) == Partners(n, a);
    }
    forall a | a in m ensures m[a] == n[a] {
      assert Partners(m, a) == Partners(n, a);
    }
  }

  /** The entries findSplits copies: labels with other than one partner. */
  function SplitMap(m: CellMap): CellMap {
    map a | a in m && |m[a]| != 1 :: m[a]
  }

  /** partners - 1, computed as an unsigned int. */
  function Charge(m: CellMap, a: Label): nat
    requires a in m
  {
    Wrap32(|m[a]| - 1)
  }

  /** What findSplits adds to the split counter for label a. */
  function SplitCharge(m: CellMap, haveBackground: bool, background: Label, a: Label): nat {
    if a in m && |m[a]| != 1 && !(haveBackground && a == background) then Charge(m, a) else 0
  }

  ghost function SumCharges(m: CellMap, haveBackground: bool, background: Label, s: set<Label>): int {
    SumSet(s, a => SplitCharge(m, haveBackground, background, a))
  }

  lemma SumChargesAdd(m: CellMap, haveBackground: bool, background: Label, s: set<Label>, a: Label)
    requires a !in s
    ensures SumCharges(m, haveBackground, background, s + {a}) ==
      SumCharges(m, haveBackground, background, s) + SplitCharge(m, haveBackground, background, a)
  {
    SumSetAdd(s, a => SplitCharge(m, haveBackground, background, a), a);
  }

  /** The split (or merge) counter after findSplits on m. */
  ghost function SplitCount(m: CellMap, haveBackground: bool, background: Label): nat {
    Wrap32(SumCharges(m, haveBackground, background, m.Keys))
  }

  /** The false-positive (or false-negative) counter after findSplits on m:
      only the background label contributes. */
  function BackgroundCount(m: CellMap, haveBackground: bool, background: Label): nat {
    if haveBackground && background in m && |m[background]| != 1 then Charge(m, background) else 0
  }

  /** The intended cost of label a: k - 1 for k >= 2 partners, nothing
      otherwise. */
  function ExcessPartners(m: CellMap, haveBackground: bool, background: Label, a: Label): nat {
    if a in m && |m[a]| >= 2 && !(haveBackground && a == background) then |m[a]| - 1 else 0
  }

  ghost predicate FewPartners(m: CellMap) {
    forall a | a in m :: |m[a]| <= U32
  }

  /** Without empty entries, the split counter is the sum over labels with
      k >= 2 partners of k - 1 (modulo 2^32). */
  lemma IntendedSplitCount(m: CellMap, haveBackground: bool, background: Label)
    requires NoEmptyEntries(m) && FewPartners(m)
    ensures SplitCount(m, haveBackground, background) ==
      Wrap32(SumSet(m.Keys, a => ExcessPartners(m, haveBackground, background, a)))
  {
    forall a | a in m.Keys
      ensures SplitCharge(m, haveBackground, background, a) == ExcessPartners(m, haveBackground, background, a)
    {
      assert m[a] != map[];
    }
    SumSetCongruent(m.Keys, a => SplitCharge(m, haveBackground, background, a),
                    a => ExcessPartners(m, haveBackground, background, a));
  }

  /** Each label with k >= 2 partners contributes its k - 1 to the total. */
  lemma ExcessIncluded(m: CellMap, haveBackground: bool, background: Label, a: Label)
    requires a in m
    ensures SumSet(m.Keys, b => ExcessPartners(m, haveBackground, background, b)) >=
      ExcessPartners(m, haveBackground, background, a)
  {
    var f := b => ExcessPartners(m, haveBackground, background, b);
    SumSetRemove(m.Keys, f, a);
    SumSetNonNegative(m.Keys - {a}, f);
  }

  /** A one-to-one mapping costs nothing. */
  lemma OneToOneCostsNothing(m: CellMap, haveBackground: bool, background: Label)
    requires forall a | a in m :: |m[a]| == 1
    ensures SplitCount(m, haveBackground, background) == 0
    ensures BackgroundCount(m, haveBackground, background) == 0
  {
    SumSetCongruent(m.Keys, a => SplitCharge(m, haveBackground, background, a), a => 0);
    SumSetZero(m.Keys);
  }

  /** A label entry without partners, as an inserting lookup leaves it,
      makes the unsigned partners - 1 wrap around: one such entry next to a
      one-to-one mapping yields 4294967295 splits. */
  lemma EmptyEntryWraps()
    ensures SplitCount(map[7 := map[], 3 := map[1 := {0}]], false, 0) == 4294967295
  {
    var m: CellMap := map[7 := map[], 3 := map[1 := {0}]];
    assert SplitCharge(m, false, 0, 7) == 4294967295 by {
      assert |m[7]| == 0;
    }
    assert SplitCharge(m, false, 0, 3) == 0 by {
      assert m[3].Keys == {1};
    }
    assert m.Keys == {7} + {3};
    SumChargesAdd(m, false, 0, {7}, 3);
    assert {7} == {} + {7};
    SumChargesAdd(m, false, 0, {}, 7);
  }

  /** The set of the first i elements of xs. */
  ghost function Prefix(xs: seq<nat>, i: nat): set<nat>
    requires i <= |xs|
  {
    set j | 0 <= j < i :: xs[j]
  }

  lemma PrefixStep(xs: seq<nat>, i: nat)
    requires i < |xs| && StrictlyIncreasing(xs)
    ensures Prefix(xs, i + 1) == Prefix(xs, i) + {xs[i]}
    ensures xs[i] !in Prefix(xs, i)
  {
    assert forall j | 0 <= j < i :: xs[j] < xs[i];
  }

  lemma PrefixAll(xs: seq<nat>, s: set<nat>)
    requires forall x :: x in xs <==> x in s
    ensures Prefix(xs, |xs|) == s
  {
    forall x | x in s ensures x in Prefix(xs, |xs|) {
      var j :| 0 <= j < |xs| && xs[j] == x;
    }
  }

  /** Every cell index stored in m is below n. */
  ghost predicate CellsBelow(m: CellMap, n: nat) {
    forall a, b, c | c in CellsAt(m, a, b) :: c < n
  }

  lemma AddEntryTransposed(m: CellMap, t: CellMap, a: Label, b: Label, c: nat)
    requires Transposed(m, t)
    ensures Transposed(AddEntry(m, a, b, c), AddEntry(t, b, a, c))
  {
    AddEntryCells(m, a, b, c);
    AddEntryCells(t, b, a, c);
    var m', t' := AddEntry(m, a, b, c), AddEntry(t, b, a, c);
    forall x, y ensures CellsAt(m', x, y) == CellsAt(t', y, x) {
      assert CellsAt(m, x, y) == CellsAt(t, y, x);
    }
  }

  lemma AddEntryNoEmptyCells(m: CellMap, a: Label, b: Label, c: nat)
    requires NoEmptyCells(m)
    ensures NoEmptyCells(AddEntry(m, a, b, c))
  {
    AddEntryCells(m, a, b, c);
    var m' := AddEntry(m, a, b, c);
    forall x, y | x in m' && y in m'[x] ensures m'[x][y] != {} {
      if x == a && y == b {
        assert c in CellsAt(m', x, y);
      } else {
        assert CellsAt(m', x, y) == CellsAt(m, x, y);
      }
    }
  }

  lemma AddEntryCellsBelow(m: CellMap, a: Label, b: Label, c: nat, n: nat)
    requires CellsBelow(m, n) && c < n
    ensures CellsBelow(AddEntry(m, a, b, c), n)
  {
    AddEntryCells(m, a, b, c);
    var m' := AddEntry(m, a, b, c);
    forall x, y, d | d in CellsAt(m', x, y) ensures d < n {
      if x != a || y != b {
        assert CellsAt(m', x, y) == CellsAt(m, x, y);
      }
    }
  }

  lemma AddEntryNoEmptyEntries(m: CellMap, a: Label, b: Label, c: nat)
    requires NoEmptyEntries(m)
    ensures NoEmptyEntries(AddEntry(m, a, b, c))
  {
    AddEntryCells(m, a, b, c);
    var m' := AddEntry(m, a, b, c);
    forall x | x in m' ensures m'[x] != map[] {
      if x == a {
        assert b in Partners(m', a);
      } else {
        assert Partners(m', x) == Partners(m, x);
      }
    }
  }

  /** Recording cell c between g and r in both confusion maps keeps them
      consistent, and adds no empty entry. */
  lemma AddMappingKeeps(gtToRec: CellMap, recToGt: CellMap, g: Label, r: Label, c: nat, n: nat)
    requires ConfusionMaps(gtToRec, recToGt, n) && c < n
    ensures ConfusionMaps(AddEntry(gtToRec, g, r, c), AddEntry(recToGt, r, g, c), n)
    ensures NoEmptyEntries(gtToRec) ==> NoEmptyEntries(AddEntry(gtToRec, g, r, c))
    ensures NoEmptyEntries(recToGt) ==> NoEmptyEntries(AddEntry(recToGt, r, g, c))
  {
    AddEntryTransposed(gtToRec, recToGt, g, r, c);
    AddEntryNoEmptyCells(gtToRec, g, r, c);
    AddEntryNoEmptyCells(recToGt, r, g, c);
    AddEntryCellsBelow(gtToRec, g, r, c, n);
    if NoEmptyEntries(gtToRec) {
      AddEntryNoEmptyEntries(gtToRec, g, r, c);
    }
    if NoEmptyEntries(recToGt) {
      AddEntryNoEmptyEntries(recToGt, r, g, c);
    }
  }

  /** Transposed maps record the same cells, hence the same matches, from
      both sides. */
  lemma TransposedMembers(m: CellMap, t: CellMap, a: Label, b: Label)
    requires Transposed(m, t) && NoEmptyCells(m) && NoEmptyCells(t)
    ensures b in Partners(m, a) <==> a in Partners(t, b)
  {
    assert CellsAt(m, a, b) == CellsAt(t, b, a);
  }

  /** The split entries among the labels of s. */
  ghost function SplitMapOn(m: CellMap, s: set<Label>): CellMap {
    map a | a in s && a in m && |m[a]| != 1 :: m[a]
  }

  lemma SplitMapOnAdd(m: CellMap, s: set<Label>, a: Label)
    requires a in m
    ensures SplitMapOn(m, s + {a}) == if |m[a]| != 1 then SplitMapOn(m, s)[a := m[a]] else SplitMapOn(m, s)
  {
  }

  lemma SplitMapOnAll(m: CellMap)
    ensures SplitMapOn(m, m.Keys) == SplitMap(m)
  {
  }

  /** What findSplits adds to the background counter for the labels of s. */
  function BackgroundCountOn(m: CellMap, haveBackground: bool, background: Label, s: set<Label>): nat {
    if background in s then BackgroundCount(m, haveBackground, background) else 0
  }

  /** One label of findSplits' loop, on the split map ... */
  lemma StepSplits(m: CellMap, splits0: CellMap, s: set<Label>, a: Label)
    requires a in m && a !in s
    ensures splits0 + SplitMapOn(m, s + {a}) ==
      if |m[a]| != 1 then (splits0 + SplitMapOn(m, s))[a := m[a]] else splits0 + SplitMapOn(m, s)
  {
    SplitMapOnAdd(m, s, a);
  }

  /** What findSplits adds to the split counter while visiting the labels
      xs in order ... */
  function ChargesOf(m: CellMap, haveBackground: bool, background: Label, xs: seq<nat>): int {
    if xs == [] then 0
    else ChargesOf(m, haveBackground, background, xs[..|xs| - 1]) + SplitCharge(m, haveBackground, background, xs[|xs| - 1])
  }

  /** ... to the background counter ... */
  function BackgroundOf(m: CellMap, haveBackground: bool, background: Label, xs: seq<nat>): int {
    if xs == [] then 0
    else
      var a := xs[|xs| - 1];
      BackgroundOf(m, haveBackground, background, xs[..|xs| - 1]) +
      if haveBackground && a == background && a in m && |m[a]| != 1 then Charge(m, a) else 0
  }

  /** ... and to the split map, starting from base. */
  function SplitsOf(m: CellMap, base: CellMap, xs: seq<nat>): CellMap {
    if xs == [] then base
    else
      var a := xs[|xs| - 1];
      var r := SplitsOf(m, base, xs[..|xs| - 1]);
      if a in m && |m[a]| != 1 then r[a := m[a]] else r
  }

  /** The state of findSplits' loop after visiting the labels xs in order,
      starting from splits0, n0 and f0. */
  ghost predicate VisitedState(m: CellMap, haveBackground: bool, background: Label, splits0: CellMap, n0: nat, f0: nat,
                               xs: seq<nat>, splits: CellMap, n: nat, f: nat) {
    splits == SplitsOf(m, splits0, xs) &&
    n == Wrap32(n0 + ChargesOf(m, haveBackground, background, xs)) &&
    f == Wrap32(f0 + BackgroundOf(m, haveBackground, background, xs))
  }

  /** Visiting one more label: the body of findSplits' loop. Adding a
      charge below 2^32 to an unsigned counter keeps it at the wrapped sum
      of the charges visited so far. */
  lemma VisitStep(m: CellMap, haveBackground: bool, background: Label, splits0: CellMap, n0: nat, f0: nat,
                  xs: seq<nat>, a: Label, splits: CellMap, n: nat, f: nat, splits': CellMap, n': nat, f': nat)
    requires a in m && n < U32 && f < U32
    requires VisitedState(m, haveBackground, background, splits0, n0, f0, xs, splits, n, f)
    requires splits' == if |m[a]| != 1 then splits[a := m[a]] else splits
    requires n' == if |m[a]| != 1 && !(haveBackground && a == background) then Add32(n, Wrap32(|m[a]| - 1)) else n
    requires f' == if |m[a]| != 1 && haveBackground && a == background then Add32(f, Wrap32(|m[a]| - 1)) else f
    ensures VisitedState(m, haveBackground, background, splits0, n0, f0, xs + [a], splits', n', f')
  {
    var ys := xs + [a];
    assert ys[..|xs|] == xs && ys[|xs|] == a;
    var charges := ChargesOf(m, haveBackground, background, xs);
    var inBackground := BackgroundOf(m, haveBackground, background, xs);
    if |m[a]| != 1 && haveBackground && a == background {
      assert ChargesOf(m, haveBackground, background, ys) == charges;
      assert BackgroundOf(m, haveBackground, background, ys) == inBackground + Charge(m, a);
      CounterAdd(f, f0 + inBackground, Charge(m, a));
    } else if |m[a]| != 1 {
      assert ChargesOf(m, haveBackground, background, ys) == charges + Charge(m, a);
      assert BackgroundOf(m, haveBackground, background, ys) == inBackground;
      CounterAdd(n, n0 + charges, Charge(m, a));
    } else {
      assert ChargesOf(m, haveBackground, background, ys) == charges;
      assert BackgroundOf(m, haveBackground, background, ys) == inBackground;
    }
  }

  lemma UnionUpdate(m: CellMap, n: CellMap, a: Label, v: map<Label, set<nat>>)
    ensures (m + n)[a := v] == m + n[a := v]
  {
  }

  /** The labels of xs are distinct, and the last one is not among the
      others. */
  lemma LastIsNew(xs: seq<nat>)
    requires StrictlyIncreasing(xs) && xs != []
    ensures Elems(xs) == Elems(xs[..|xs| - 1]) + {xs[|xs| - 1]}
    ensures xs[|xs| - 1] !in Elems(xs[..|xs| - 1])
  {
    var n := |xs| - 1;
    assert xs == xs[..n] + [xs[n]];
    assert forall j | 0 <= j < n :: xs[j] < xs[n];
  }

  /** Visiting distinct labels in any order adds up the charges of the set
      they form ... */
  lemma {:induction false} ChargesOfDistinct(m: CellMap, haveBackground: bool, background: Label, xs: seq<nat>)
    requires StrictlyIncreasing(xs)
    ensures ChargesOf(m, haveBackground, background, xs) == SumCharges(m, haveBackground, background, Elems(xs))
  {
    if xs == [] {
      assert Elems(xs) == {};
      assert SumCharges(m, haveBackground, background, {}) == 0;
    } else {
      var n := |xs| - 1;
      var front := Elems(xs[..n]);
      ChargesOfDistinct(m, haveBackground, background, xs[..n]);
      LastIsNew(xs);
      SumChargesAdd(m, haveBackground, background, front, xs[n]);
      assert ChargesOf(m, haveBackground, background, xs) ==
        SumCharges(m, haveBackground, background, front) + SplitCharge(m, haveBackground, background, xs[n]);
      assert SumCharges(m, haveBackground, background, front + {xs[n]}) ==
        SumCharges(m, haveBackground, background, front) + SplitCharge(m, haveBackground, background, xs[n]);
      assert Elems(xs) == front + {xs[n]};
    }
  }

  /** ... the background charge ... */
  lemma {:induction false} BackgroundOfDistinct(m: CellMap, haveBackground: bool, background: Label, xs: seq<nat>)
    requires StrictlyIncreasing(xs)
    ensures BackgroundOf(m, haveBackground, background, xs) ==
      BackgroundCountOn(m, haveBackground, background, Elems(xs))
  {
    if xs == [] {
      assert Elems(xs) == {};
    } else {
      var n := |xs| - 1;
      BackgroundOfDistinct(m, haveBackground, background, xs[..n]);
      LastIsNew(xs);
    }
  }

  /** One more label on the split entries of a set of labels. */
  lemma SplitMapOnStep(m: CellMap, base: CellMap, s: set<Label>, a: Label)
    ensures base + SplitMapOn(m, s + {a}) ==
      if a in m && |m[a]| != 1 then (base + SplitMapOn(m, s))[a := m[a]] else base + SplitMapOn(m, s)
  {
    if a in m {
      SplitMapOnAdd(m, s, a);
      if |m[a]| != 1 {
        UnionUpdate(base, SplitMapOn(m, s), a, m[a]);
      }
    } else {
      assert SplitMapOn(m, s + {a}) == SplitMapOn(m, s);
    }
  }

  /** ... and the split entries. */
  lemma {:induction false} SplitsOfDistinct(m: CellMap, base: CellMap, xs: seq<nat>)
    requires StrictlyIncreasing(xs)
    ensures SplitsOf(m, base, xs) == base + SplitMapOn(m, Elems(xs))
  {
    if xs == [] {
      assert Elems(xs) == {};
      assert SplitMapOn(m, {}) == map[];
    } else {
      var n := |xs| - 1;
      var front, a := xs[..n], xs[n];
      SplitsOfDistinct(m, base, front);
      LastIsNew(xs);
      var r := SplitsOf(m, base, front);
      assert SplitsOf(m, base, xs) == if a in m && |m[a]| != 1 then r[a := m[a]] else r;
      SplitMapOnStep(m, base, Elems(front), a);
    }
  }

  /** Visiting every label of m once collects its split entries ... */
  lemma SplitsOfAll(m: CellMap, base: CellMap, xs: seq<nat>)
    requires StrictlyIncreasing(xs) && Elems(xs) == m.Keys
    ensures SplitsOf(m, base, xs) == base + SplitMap(m)
  {
    SplitsOfDistinct(m, base, xs);
    SplitMapOnAll(m);
  }

  /** ... and adds up to the charges of all of them. */
  lemma FindSplitsDone(m: CellMap, haveBackground: bool, background: Label, splits0: CellMap, xs: seq<nat>)
    requires StrictlyIncreasing(xs) && Elems(xs) == m.Keys
    ensures SplitsOf(m, splits0, xs) == splits0 + SplitMap(m)
    ensures ChargesOf(m, haveBackground, background, xs) == SumCharges(m, haveBackground, background, m.Keys)
    ensures BackgroundOf(m, haveBackground, background, xs) == BackgroundCount(m, haveBackground, background)
  {
    SplitsOfAll(m, splits0, xs);
    ChargesOfDistinct(m, haveBackground, background, xs);
    BackgroundOfDistinct(m, haveBackground, background, xs);
  }

  /** The counters after visiting every label of m once. */
  lemma FindSplitsTotals(m: CellMap, haveBackground: bool, background: Label, splits0: CellMap, n0: nat, f0: nat,
                         xs: seq<nat>, splits: CellMap, n: nat, f: nat)
    requires StrictlyIncreasing(xs) && Elems(xs) == m.Keys
    requires VisitedState(m, haveBackground, background, splits0, n0, f0, xs, splits, n, f)
    ensures splits == splits0 + SplitMap(m)
    ensures n == Wrap32(n0 + SumCharges(m, haveBackground, background, m.Keys))
    ensures f == Wrap32(f0 + BackgroundCount(m, haveBackground, background))
  {
    FindSplitsDone(m, haveBackground, background, splits0, xs);
  }

  /** Splits are exactly the labels with other than one partner. */
  lemma SplitMapMembers(m: CellMap, a: Label)
    ensures a in SplitMap(m) <==> a in m && |m[a]| != 1
    ensures a in SplitMap(m) ==> SplitMap(m)[a] == m[a]
  {
  }

  /** Without empty entries, the split entries are the labels with at least
      two partners. */
  lemma SplitMapProper(m: CellMap)
    requires NoEmptyEntries(m)
    ensures forall a :: a in SplitMap(m) <==> a in m && |m[a]| >= 2
    ensures NoEmptyEntries(SplitMap(m))
  {
    forall a | a in m ensures |m[a]| != 0 {
      assert m[a] != map[];
    }
  }

  /** n is what the split counter holds after counting m's labels from
      zero in ascending order, as findSplits visits them. */
  ghost predicate SplitCounted(m: CellMap, haveBackground: bool, background: Label, n: nat) {
    forall xs | StrictlyIncreasing(xs) && Elems(xs) == m.Keys :: n == Wrap32(ChargesOf(m, haveBackground, background, xs))
  }

  /** That counter is the wrapped sum of the charges. */
  lemma SplitCountedIsSplitCount(m: CellMap, haveBackground: bool, background: Label, n: nat)
    ensures SplitCounted(m, haveBackground, background, n) <==> n == SplitCount(m, haveBackground, background)
  {
    forall xs | StrictlyIncreasing(xs) && Elems(xs) == m.Keys
      ensures ChargesOf(m, haveBackground, background, xs) == SumCharges(m, haveBackground, background, m.Keys)
    {
      ChargesOfDistinct(m, haveBackground, background, xs);
    }
    var sorted := Sorted(m.Keys);
    assert Elems(sorted) == m.Keys;
  }

  /** The invariant of the two confusion maps: transposed, without empty
      cell sets, and naming only cells below numCells. */
  ghost predicate ConfusionMaps(gtToRec: CellMap, recToGt: CellMap, numCells: nat) {
    Transposed(gtToRec, recToGt) && NoEmptyCells(gtToRec) && NoEmptyCells(recToGt) &&
    CellsBelow(gtToRec, numCells)
  }

  /** found, numSplits and numBackground are what findSplits computed from
      counted, and counted holds the same entries as current. */
  ghost predicate CountedFrom(counted: CellMap, current: CellMap, found: CellMap, numSplits: nat, numBackground: nat,
                              haveBackground: bool, background: Label) {
    SameEntries(counted, current) && counted.Keys <= current.Keys &&
    SameEntries(found, SplitMap(counted)) && SplitMap(counted).Keys <= found.Keys &&
    SplitCounted(counted, haveBackground, background, numSplits) &&
    numBackground == BackgroundCount(counted, haveBackground, background)
  }

  /** findSplits: copies every label of cellMap with other than one
      partner into the split map and charges partners - 1 for it, to the
      background counter for the background label, to the split counter
      otherwise. The member function reads only the haveBackground flag of
      its object, which is a parameter here. */
  method FindSplits(haveBackground: bool, cellMap: CellMap, splits0: CellMap, numSplits0: nat, numFalsePositives0: nat, background: Label)
    returns (splitsOut: CellMap, numSplitsOut: nat, numFalsePositivesOut: nat)
    requires numSplits0 < U32 && numFalsePositives0 < U32
    ensures splitsOut == splits0 + SplitMap(cellMap)
    ensures numSplitsOut == Wrap32(numSplits0 + SumCharges(cellMap, haveBackground, background, cellMap.Keys))
    ensures numFalsePositivesOut == Wrap32(numFalsePositives0 + BackgroundCount(cellMap, haveBackground, background))
  {
    var labels := Elements(cellMap.Keys);
    forall k | 0 <= k < |labels| ensures labels[k] in cellMap {
      assert labels[k] in Elems(labels);
    }
    splitsOut, numSplitsOut, numFalsePositivesOut :=
      VisitLabels(haveBackground, cellMap, labels, splits0, numSplits0, numFalsePositives0, background);
    FindSplitsTotals(cellMap, haveBackground, background, splits0, numSplits0, numFalsePositives0, labels,
                     splitsOut, numSplitsOut, numFalsePositivesOut);
  }

  /** The loop of findSplits over the labels of cellMap, in the order
      given. */
  /** One pass of findSplits' loop: a label with other than one
      partner is recorded with its partners and charged to the splits, or
      to the false positives when it is the background. */
  method VisitLabel(haveBackground: bool, cellMap: CellMap, key: Label, splits: CellMap, numSplits: nat,
                    numFalsePositives: nat, background: Label, ghost splits0: CellMap, ghost numSplits0: nat,
                    ghost numFalsePositives0: nat, ghost visited: seq<nat>)
    returns (splitsOut: CellMap, numSplitsOut: nat, numFalsePositivesOut: nat)
    requires key in cellMap && numSplits < U32 && numFalsePositives < U32
    requires VisitedState(cellMap, haveBackground, background, splits0, numSplits0, numFalsePositives0, visited,
                          splits, numSplits, numFalsePositives)
    ensures numSplitsOut < U32 && numFalsePositivesOut < U32
    ensures VisitedState(cellMap, haveBackground, background, splits0, numSplits0, numFalsePositives0, visited + [key],
                         splitsOut, numSplitsOut, numFalsePositivesOut)
  {
    splitsOut, numSplitsOut, numFalsePositivesOut := splits, numSplits, numFalsePositives;
    var partners := |cellMap[key]|;
    if partners != 1 {
      var charge := Wrap32(partners - 1);
      splitsOut := splitsOut[key := cellMap[key]];
      if haveBackground && key == background {
        numFalsePositivesOut := Add32(numFalsePositivesOut, charge);
      } else {
        numSplitsOut := Add32(numSplitsOut, charge);
      }
    }
    VisitStep(cellMap, haveBackground, background, splits0, numSplits0, numFalsePositives0, visited, key,
              splits, numSplits, numFalsePositives, splitsOut, numSplitsOut, numFalsePositivesOut);
  }

  method VisitLabels(haveBackground: bool, cellMap: CellMap, labels: seq<Label>, splits0: CellMap,
                     numSplits0: nat, numFalsePositives0: nat, background: Label)
    returns (splitsOut: CellMap, numSplitsOut: nat, numFalsePositivesOut: nat)
    requires numSplits0 < U32 && numFalsePositives0 < U32
    requires forall k | 0 <= k < |labels| :: labels[k] in cellMap
    ensures VisitedState(cellMap, haveBackground, background, splits0, numSplits0, numFalsePositives0, labels,
                         splitsOut, numSplitsOut, numFalsePositivesOut)
  {
    splitsOut, numSplitsOut, numFalsePositivesOut := splits0, numSplits0, numFalsePositives0;
    var i := 0;
    ghost var visited: seq<nat> := [];
    while i < |labels|
      invariant 0 <= i <= |labels| && visited == labels[..i]
      invariant numSplitsOut < U32 && numFalsePositivesOut < U32
      invariant VisitedState(cellMap, haveBackground, background, splits0, numSplits0, numFalsePositives0, visited,
                             splitsOut, numSplitsOut, numFalsePositivesOut)
    {
      var key := labels[i];
      splitsOut, numSplitsOut, numFalsePositivesOut :=
        VisitLabel(haveBackground, cellMap, key, splitsOut, numSplitsOut, numFalsePositivesOut, background,
                   splits0, numSplits0, numFalsePositives0, visited);
      assert labels[..i + 1] == visited + [key];
      visited := visited + [key];
      i := i + 1;
    }
    assert visited == labels;
  }

  /** What findSplits leaves when started from an empty split map and
      zeroed counters. */
  lemma CountedFromScratch(m: CellMap, haveBackground: bool, background: Label, splits: CellMap, n: nat, f: nat)
    requires splits == map[] + SplitMap(m)
    requires n == Wrap32(0 + SumCharges(m, haveBackground, background, m.Keys))
    requires f == Wrap32(0 + BackgroundCount(m, haveBackground, background))
    ensures splits == SplitMap(m)
    ensures CountedFrom(m, m, splits, n, f, haveBackground, background)
    ensures n < U32 && f < U32
    ensures NoEmptyEntries(m) ==> NoEmptyEntriesBut(splits, haveBackground, background)
  {
    assert splits == SplitMap(m);
    assert n == SplitCount(m, haveBackground, background);
    SplitCountedIsSplitCount(m, haveBackground, background, n);
    if NoEmptyEntries(m) {
      SplitMapProper(m);
    }
  }

  /** findSplits on an empty split map and zeroed counters, as
      updateErrorCounts calls it for each confusion map. */
  method CountSplits(haveBackground: bool, cellMap: CellMap, background: Label)
    returns (splits: CellMap, numSplits: nat, numBackground: nat)
    ensures splits == SplitMap(cellMap)
    ensures CountedFrom(cellMap, cellMap, splits, numSplits, numBackground, haveBackground, background)
    ensures numSplits < U32 && numBackground < U32
    ensures NoEmptyEntries(cellMap) ==> NoEmptyEntriesBut(splits, haveBackground, background)
  {
    splits, numSplits, numBackground := FindSplits(haveBackground, cellMap, map[], 0, 0, background);
    CountedFromScratch(cellMap, haveBackground, background, splits, numSplits, numBackground);
  }


  /** A label's entry in the split map of the last count: its partners when
      it has at least two, none otherwise, whatever empty entries lookups
      have inserted since. */
  lemma FoundPartners(found: CellMap, counted: CellMap, current: CellMap, a: Label)
    requires SameEntries(counted, current) && SameEntries(found, SplitMap(counted))
    ensures Partners(found, a) == if |Partners(current, a)| >= 2 then Partners(current, a) else map[]
  {
    assert Partners(found, a) == Partners(SplitMap(counted), a);
    assert Partners(counted, a) == Partners(current, a);
    SplitMapMembers(counted, a);
  }

  /** The labels of the split map other than the background are exactly
      the labels with at least two partners, as long as no lookup has left
      an empty entry in either map. */
  lemma SplitLabelsExact(found: CellMap, counted: CellMap, current: CellMap, haveBackground: bool, background: Label)
    requires SameEntries(counted, current) && SameEntries(found, SplitMap(counted))
    requires SplitMap(counted).Keys <= found.Keys
    requires NoEmptyEntries(current) && NoEmptyEntriesBut(found, haveBackground, background)
    ensures forall a :: a in found && !(haveBackground && a == background) <==>
      a in current && |current[a]| >= 2 && !(haveBackground && a == background)
  {
    forall a ensures a in found && !(haveBackground && a == background) <==>
      a in current && |current[a]| >= 2 && !(haveBackground && a == background)
    {
      FoundPartners(found, counted, current, a);
      if a in current && |current[a]| >= 2 {
        assert Partners(found, a) != map[];
      }
      if a in found && !(haveBackground && a == background) {
        assert found[a] != map[];
      }
    }
  }

  /** The labels of s except the excluded one, collected one by one in
      ascending order into a std::set. */
  method KeysWithout(s: set<Label>, haveExcluded: bool, excluded: Label) returns (r: set<Label>)
    ensures forall a :: a in r <==> a in s && !(haveExcluded && a == excluded)
  {
    var keys := Elements(s);
    r := {};
    for i := 0 to |keys|
      invariant forall a :: a in r <==> a in keys[..i] && !(haveExcluded && a == excluded)
    {
      assert keys[..i + 1] == keys[..i] + [keys[i]];
      if !haveExcluded || keys[i] != excluded {
        r := r + {keys[i]};
      }
    }
    assert keys[..|keys|] == keys;
  }

  /** The sum of f over xs, in order. */
  function SumSeq(xs: seq<nat>, f: nat -> int): int {
    if xs == [] then 0 else SumSeq(xs[..|xs| - 1], f) + f(xs[|xs| - 1])
  }

  /** Adding one more term to a wrapped running sum. */
  lemma SumSeqStep(xs: seq<nat>, f: nat -> int, c: nat, total: nat, term: nat)
    requires total == Wrap32(SumSeq(xs, f)) && term == f(c)
    ensures Wrap32(total + term) == Wrap32(SumSeq(xs + [c], f))
  {
    var ys := xs + [c];
    assert ys[..|xs|] == xs && ys[|xs|] == c;
    Wrap32Add(SumSeq(xs, f), term);
  }

  /** Over distinct elements, the sum in visiting order is the sum over the
      set they form. */
  lemma {:induction false} SumSeqDistinct(xs: seq<nat>, f: nat -> int)
    requires StrictlyIncreasing(xs)
    ensures SumSeq(xs, f) == SumSet(Elems(xs), f)
  {
    if xs != [] {
      var n := |xs| - 1;
      LastIsNew(xs);
      SumSeqDistinct(xs[..n], f);
      SumSetAdd(Elems(xs[..n]), f, xs[n]);
    }
  }

  /** std::pair's operator< on (ground truth, reconstruction) label pairs. */
  predicate PairBefore(p: (Label, Label), q: (Label, Label)) {
    p.0 < q.0 || (p.0 == q.0 && p.1 < q.1)
  }

  /** A lookup that inserts an empty entry for a label that is not split
      makes the label query report it: with the one-to-one map {5 -> {1}},
      the split map is empty, yet after looking up label 5 it holds 5. */
  lemma InsertedSplitEntryReported()
    ensures var m: CellMap := map[5 := map[1 := {0}]];
      var found := SplitMap(m)[5 := Partners(SplitMap(m), 5)];
      |m[5]| == 1 && 5 !in SplitMap(m) && 5 in found
  {
    var m: CellMap := map[5 := map[1 := {0}]];
    assert m[5].Keys == {1};
    SplitMapMembers(m, 5);
  }

  /** std::map::operator[] used as a lookup: a label without an entry gets
      an empty one. */
  function Touch(m: CellMap, a: Label): CellMap {
    m[a := Partners(m, a)]
  }

  /** The lookup adds the label as a key and changes no label's partners. */
  lemma TouchEntries(m: CellMap, a: Label)
    ensures Touch(m, a).Keys == m.Keys + {a}
    ensures forall b :: Partners(Touch(m, a), b) == Partners(m, b)
  {
  }

  /** An inserting lookup changes no cell set, and leaves an empty entry
      behind exactly when the label had none. */
  lemma TouchKeeps(m: CellMap, t: CellMap, a: Label, n: nat)
    ensures forall x, y :: CellsAt(Touch(m, a), x, y) == CellsAt(m, x, y)
    ensures Transposed(m, t) ==> Transposed(Touch(m, a), t) && Transposed(t, Touch(m, a))
    ensures NoEmptyCells(m) ==> NoEmptyCells(Touch(m, a))
    ensures CellsBelow(m, n) ==> CellsBelow(Touch(m, a), n)
    ensures NoEmptyEntries(m) ==> (NoEmptyEntries(Touch(m, a)) <==> a in m)
  {
    TouchEntries(m, a);
    var r := Touch(m, a);
    forall x, y ensures CellsAt(r, x, y) == CellsAt(m, x, y) {
      assert Partners(r, x) == Partners(m, x);
    }
    if NoEmptyCells(m) {
      forall x, y | x in r && y in r[x] ensures r[x][y] != {} {
        assert Partners(r, x) == Partners(m, x);
      }
    }
    if NoEmptyEntries(m) && a !in m {
      assert r[a] == map[];
    }
  }

  /** An inserting lookup in the current map keeps it what was counted. */
  lemma TouchCurrent(counted: CellMap, current: CellMap, found: CellMap, numSplits: nat, numBackground: nat,
                     haveBackground: bool, background: Label, a: Label)
    requires CountedFrom(counted, current, found, numSplits, numBackground, haveBackground, background)
    ensures CountedFrom(counted, Touch(current, a), found, numSplits, numBackground, haveBackground, background)
  {
    TouchEntries(current, a);
  }

  /** Each pair comes before the next, so no pair repeats. */
  predicate PairsIncreasing(ps: seq<(Label, Label)>) {
    forall i, j | 0 <= i < j < |ps| :: PairBefore(ps[i], ps[j])
  }

  /** Appends (a, b) for every b of the increasing sequence bs, after pairs
      whose first label is below a. */
  method AppendRow(pairs: seq<(Label, Label)>, a: Label, bs: seq<Label>) returns (out: seq<(Label, Label)>)
    requires PairsIncreasing(pairs) && StrictlyIncreasing(bs)
    requires forall k | 0 <= k < |pairs| :: pairs[k].0 < a
    ensures PairsIncreasing(out)
    ensures forall k | 0 <= k < |out| :: out[k].0 <= a
    ensures forall p :: p in out <==> p in pairs || (p.0 == a && p.1 in bs)
  {
    out := pairs;
    for j := 0 to |bs|
      invariant PairsIncreasing(out)
      invariant |out| == |pairs| + j && out[..|pairs|] == pairs
      invariant forall k | 0 <= k < j :: out[|pairs| + k] == (a, bs[k])
      invariant forall p :: p in out <==> p in pairs || (p.0 == a && p.1 in bs[..j])
    {
      var p := (a, bs[j]);
      forall k | 0 <= k < |out| ensures PairBefore(out[k], p) {
        if k < |pairs| {
          assert out[k] == pairs[k];
        } else {
          assert out[k] == (a, bs[k - |pairs|]);
        }
      }
      assert bs[..j + 1] == bs[..j] + [bs[j]];
      out := out + [p];
    }
    assert bs[..|bs|] == bs;
    forall k | 0 <= k < |out| ensures out[k].0 <= a {
      if k < |pairs| {
        assert out[k] == pairs[k];
      }
    }
  }

  /** Every (a, b) entry of a confusion map, in increasing pair order. */
  method ListEntries(m: CellMap) returns (pairs: seq<(Label, Label)>)
    ensures PairsIncreasing(pairs)
    ensures forall p :: p in pairs <==> p.0 in m && p.1 in m[p.0]
  {
    var keys := Elements(m.Keys);
    forall k | 0 <= k < |keys| ensures keys[k] in m {
      assert keys[k] in Elems(keys);
    }
    pairs := [];
    for i := 0 to |keys|
      invariant PairsIncreasing(pairs)
      invariant forall p :: p in pairs <==> p.0 in keys[..i] && p.1 in m[p.0]
      invariant forall k | 0 <= k < |pairs| :: exists l | 0 <= l < i :: pairs[k].0 == keys[l]
    {
      var a := keys[i];
      var bs := Elements(m[a].Keys);
      forall k | 0 <= k < |pairs| ensures pairs[k].0 < a {
        var l :| 0 <= l < i && pairs[k].0 == keys[l];
      }
      ghost var before := pairs;
      pairs := AppendRow(pairs, a, bs);
      assert keys[..i + 1] == keys[..i] + [a];
      forall k | 0 <= k < |pairs| ensures exists l | 0 <= l < i + 1 :: pairs[k].0 == keys[l] {
        if pairs[k] in before {
          var l :| 0 <= l < i && pairs[k].0 == keys[l];
        } else {
          assert pairs[k].0 == keys[i];
        }
      }
    }
    assert keys[..|keys|] == keys;
  }

  /** Looking up a label in a counted split map keeps it counted, yields the
      label's partners when it is split and nothing otherwise, and leaves no
      empty entry behind exactly when the label is split or is the
      background. */
  lemma TouchFound(counted: CellMap, current: CellMap, found: CellMap, numSplits: nat, numBackground: nat,
                   haveBackground: bool, background: Label, a: Label)
    requires CountedFrom(counted, current, found, numSplits, numBackground, haveBackground, background)
    ensures CountedFrom(counted, current, Touch(found, a), numSplits, numBackground, haveBackground, background)
    ensures Partners(found, a) == if |Partners(current, a)| >= 2 then Partners(current, a) else map[]
    ensures NoEmptyEntriesBut(found, haveBackground, background) ==>
      (NoEmptyEntriesBut(Touch(found, a), haveBackground, background) <==>
       |Partners(current, a)| >= 2 || (haveBackground && a == background))
  {
    TouchEntries(found, a);
    FoundPartners(found, counted, current, a);
    var r := Touch(found, a);
    if NoEmptyEntriesBut(found, haveBackground, background) {
      if |Partners(current, a)| >= 2 || (haveBackground && a == background) {
        forall b | b in r && !(haveBackground && b == background) ensures r[b] != map[] {
          assert Partners(r, b) == Partners(found, b);
          if b == a {
            assert |Partners(current, a)| >= 2;
          }
        }
      } else {
        assert r[a] == map[];
      }
    }
  }

}
