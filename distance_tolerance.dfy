/** The distance tolerance criterion: a cell may take the label of any
    reconstruction boundary that lies within the distance threshold of every
    one of its locations. Boundary voxels are found on the reconstruction
    labels, neighbourhood offsets are generated from the threshold and the
    voxel resolution, and each candidate cell's alternative labels are
    counted location by location. */
module DistanceTolerance {
  import opened Base
  import opened Sums
  import opened Cells
  import opened Ordered

  /** A finite set no larger than another that contains it is that set. */
  lemma {:induction false} SubsetSize<T>(a: set<T>, b: set<T>)
    requires a <= b
    ensures |a| <= |b|
    ensures |a| == |b| ==> a == b
    decreases a
  {
    if a != {} {
      var x :| x in a;
      SubsetSize(a - {x}, b - {x});
    } else if b != {} {
      var x :| x in b;
      assert x !in a;
    }
  }

  lemma AddNew<T>(s: set<T>, x: T)
    requires x !in s
    ensures |s + {x}| == |s| + 1
  {
  }

  // ---------------------------------------------------------------------
  // Boundary voxels

  /** isBoundaryVoxel: the x and y borders of the volume are boundary
      voxels, the z borders only when there is more than one section;
      inside, a voxel is on the boundary when one of its six face
      neighbours carries a different reconstruction label. */
  predicate IsBoundaryVoxel(x: int, y: int, z: int, width: nat, height: nat, depth: nat, stack: ImageStack)
    requires stack.Valid() && stack.width == width && stack.height == height && stack.Size() == depth
    requires stack.InBounds(x, y, z)
  {
    if x == 0 || x == width - 1 then true
    else if y == 0 || y == height - 1 then true
    else if depth > 1 && (z == 0 || z == depth - 1) then true
    else
      var center := stack.At(x, y, z);
      if x > 0 && stack.At(x - 1, y, z) != center then true
      else if x < width - 1 && stack.At(x + 1, y, z) != center then true
      else if y > 0 && stack.At(x, y - 1, z) != center then true
      else if y < height - 1 && stack.At(x, y + 1, z) != center then true
      else if z > 0 && stack.At(x, y, z - 1) != center then true
      else if z < depth - 1 && stack.At(x, y, z + 1) != center then true
      else false
  }

  /** One of the six face neighbours of (x, y, z) lies in the volume and
      carries a label other than the voxel's own. */
  ghost predicate FaceNeighbourDiffers(x: int, y: int, z: int, stack: ImageStack)
    requires stack.Valid() && stack.InBounds(x, y, z)
  {
    var c := stack.At(x, y, z);
    (stack.InBounds(x - 1, y, z) && stack.At(x - 1, y, z) != c) ||
    (stack.InBounds(x + 1, y, z) && stack.At(x + 1, y, z) != c) ||
    (stack.InBounds(x, y - 1, z) && stack.At(x, y - 1, z) != c) ||
    (stack.InBounds(x, y + 1, z) && stack.At(x, y + 1, z) != c) ||
    (stack.InBounds(x, y, z - 1) && stack.At(x, y, z - 1) != c) ||
    (stack.InBounds(x, y, z + 1) && stack.At(x, y, z + 1) != c)
  }

  /** Voxels on the x and y borders are always boundary voxels, voxels on
      the z borders exactly when the volume has several sections. */
  lemma BorderVoxels(x: int, y: int, z: int, stack: ImageStack)
    requires stack.Valid() && stack.InBounds(x, y, z)
    ensures x == 0 || x == stack.width - 1 || y == 0 || y == stack.height - 1 ==>
      IsBoundaryVoxel(x, y, z, stack.width, stack.height, stack.Size(), stack)
    ensures stack.Size() > 1 && (z == 0 || z == stack.Size() - 1) ==>
      IsBoundaryVoxel(x, y, z, stack.width, stack.height, stack.Size(), stack)
  {
  }

  /** Away from the borders, a voxel is a boundary voxel exactly when a face
      neighbour differs from it. */
  lemma InteriorVoxels(x: int, y: int, z: int, stack: ImageStack)
    requires stack.Valid() && stack.InBounds(x, y, z)
    requires 0 < x < stack.width - 1 && 0 < y < stack.height - 1
    requires stack.Size() == 1 || 0 < z < stack.Size() - 1
    ensures IsBoundaryVoxel(x, y, z, stack.width, stack.height, stack.Size(), stack) <==>
      FaceNeighbourDiffers(x, y, z, stack)
  {
  }

  // ---------------------------------------------------------------------
  // Alternative labels

  /** The boundary map and the reconstruction labels cover the same volume. */
  predicate Fits(boundaryMap: array3<bool>, recLabels: ImageStack) {
    recLabels.Valid() && recLabels.width == boundaryMap.Length0 &&
    recLabels.height == boundaryMap.Length1 && recLabels.Size() == boundaryMap.Length2
  }

  function Shift(l: Location, offset: Location): Location {
    Location(l.x + offset.x, l.y + offset.y, l.z + offset.z)
  }

  /** The location at offset from l is a boundary voxel inside the volume,
      labelled k. */
  ghost predicate BoundaryAt(boundaryMap: array3<bool>, recLabels: ImageStack, l: Location, offset: Location,
                             k: Label)
    reads boundaryMap
  {
    var j := Shift(l, offset);
    Fits(boundaryMap, recLabels) &&
    0 <= j.x < boundaryMap.Length0 && 0 <= j.y < boundaryMap.Length1 && 0 <= j.z < boundaryMap.Length2 &&
    boundaryMap[j.x, j.y, j.z] && recLabels.At(j.x, j.y, j.z) == k
  }

  /** A boundary voxel labelled k lies within the neighbourhood of l. */
  ghost predicate Covers(boundaryMap: array3<bool>, recLabels: ImageStack, neighborhood: seq<Location>,
                         l: Location, k: Label)
    reads boundaryMap
  {
    exists t | 0 <= t < |neighborhood| :: BoundaryAt(boundaryMap, recLabels, l, neighborhood[t], k)
  }

  /** k covers the first n locations of the cell. */
  ghost predicate CoversFirst(boundaryMap: array3<bool>, recLabels: ImageStack, neighborhood: seq<Location>,
                              content: seq<Location>, n: nat, k: Label)
    requires n <= |content|
    reads boundaryMap
  {
    forall i | 0 <= i < n :: Covers(boundaryMap, recLabels, neighborhood, content[i], k)
  }

  /** The alternative labels of a cell: the labels other than its own that
      lie on a boundary within the neighbourhood of every location of a
      non-empty cell. */
  ghost predicate IsAlternative(boundaryMap: array3<bool>, recLabels: ImageStack, neighborhood: seq<Location>,
                                cellLabel: Label, content: seq<Location>, k: Label)
    reads boundaryMap
  {
    k != cellLabel && |content| > 0 &&
    CoversFirst(boundaryMap, recLabels, neighborhood, content, |content|, k)
  }

  /** The labels whose counter has reached n. */
  function Reached(counts: map<Label, nat>, n: nat): set<Label> {
    set l | l in counts.Keys && counts[l] == n
  }

  /** What the counters say before location n of the cell is visited: no
      counter exceeds n, and, once a location has been visited, the counters
      at n are exactly those of the labels covering every visited location,
      and maxAlternatives is their number. */
  ghost predicate CountsBefore(boundaryMap: array3<bool>, recLabels: ImageStack, neighborhood: seq<Location>,
                               cellLabel: Label, content: seq<Location>, counts: map<Label, nat>, n: nat,
                               maxAlternatives: nat)
    requires n <= |content|
    reads boundaryMap
  {
    (forall l :: Get(counts, l) <= n) &&
    (n == 0 ==> counts == map[] && maxAlternatives == 0) &&
    (n > 0 ==> maxAlternatives == |Reached(counts, n)|) &&
    (n > 0 ==> forall l :: Get(counts, l) == n <==>
       l != cellLabel && CoversFirst(boundaryMap, recLabels, neighborhood, content, n, l))
  }

  /** A boundary voxel labelled k lies at one of the first t offsets from l. */
  ghost predicate FoundWithin(boundaryMap: array3<bool>, recLabels: ImageStack, neighborhood: seq<Location>,
                              l: Location, t: nat, k: Label)
    requires t <= |neighborhood|
    reads boundaryMap
  {
    exists s | 0 <= s < t :: BoundaryAt(boundaryMap, recLabels, l, neighborhood[s], k)
  }

  lemma FoundStep(boundaryMap: array3<bool>, recLabels: ImageStack, neighborhood: seq<Location>,
                  l: Location, t: nat)
    requires t < |neighborhood|
    ensures forall k :: FoundWithin(boundaryMap, recLabels, neighborhood, l, t + 1, k) <==>
      FoundWithin(boundaryMap, recLabels, neighborhood, l, t, k) ||
      BoundaryAt(boundaryMap, recLabels, l, neighborhood[t], k)
  {
    forall k | FoundWithin(boundaryMap, recLabels, neighborhood, l, t + 1, k)
      ensures FoundWithin(boundaryMap, recLabels, neighborhood, l, t, k) ||
              BoundaryAt(boundaryMap, recLabels, l, neighborhood[t], k)
    {
      var s :| 0 <= s < t + 1 && BoundaryAt(boundaryMap, recLabels, l, neighborhood[s], k);
    }
  }

  /** The state of the scan of one location: the counters of the labels
      seen so far are one above their old values, and the labels completed
      so far are those seen whose counters were at numVisited - 1. */
  ghost predicate ScanState(counts: map<Label, nat>, countsOut: map<Label, nat>, seen: set<Label>,
                            complete: set<Label>, numVisited: nat)
  {
    (forall l :: Get(countsOut, l) == Get(counts, l) + (if l in seen then 1 else 0)) &&
    (forall l :: l in complete <==> l in seen && Get(counts, l) == numVisited - 1)
  }

  /** The counters reached at the current location are the completed labels. */
  lemma ReachedIsComplete(counts: map<Label, nat>, countsOut: map<Label, nat>, seen: set<Label>,
                          complete: set<Label>, numVisited: nat)
    requires ScanState(counts, countsOut, seen, complete, numVisited) && numVisited >= 1
    requires forall l :: Get(counts, l) <= numVisited - 1
    ensures Reached(countsOut, numVisited) == complete
    ensures forall l :: Get(countsOut, l) <= numVisited
  {
    forall l ensures l in Reached(countsOut, numVisited) <==> l in complete {
      assert l in Reached(countsOut, numVisited) <==> Get(countsOut, l) == numVisited;
    }
  }

  /** Seeing k for the first time at the current location. */
  lemma SeeLabel(counts: map<Label, nat>, countsOut: map<Label, nat>, seen: set<Label>, complete: set<Label>,
                 numVisited: nat, k: Label)
    requires ScanState(counts, countsOut, seen, complete, numVisited) && k !in seen
    ensures Get(Inc(countsOut, k), k) == numVisited <==> Get(counts, k) == numVisited - 1
    ensures Get(Inc(countsOut, k), k) == numVisited ==>
      ScanState(counts, Inc(countsOut, k), seen + {k}, complete + {k}, numVisited) && k !in complete
    ensures Get(Inc(countsOut, k), k) != numVisited ==>
      ScanState(counts, Inc(countsOut, k), seen + {k}, complete, numVisited)
  {
  }

  /** Everything the scan of one location knows after t offsets: the labels
      seen are those found so far, and the completed ones are among the
      labels that covered every earlier location. */
  ghost predicate Scanned(boundaryMap: array3<bool>, recLabels: ImageStack, neighborhood: seq<Location>,
                          cellLabel: Label, at: Location, counts: map<Label, nat>, numVisited: nat,
                          t: nat, countsOut: map<Label, nat>, seen: set<Label>, complete: set<Label>,
                          numComplete: nat)
    requires t <= |neighborhood|
    reads boundaryMap
  {
    ScanState(counts, countsOut, seen, complete, numVisited) &&
    (forall l :: l in seen <==> l != cellLabel && FoundWithin(boundaryMap, recLabels, neighborhood, at, t, l)) &&
    numComplete == |complete| &&
    (numVisited > 1 ==> complete <= Reached(counts, numVisited - 1))
  }

  /** The label of the location at offset from l when it is a boundary
      voxel inside the volume. */
  function BoundaryLabel(boundaryMap: array3<bool>, recLabels: ImageStack, l: Location, offset: Location)
    : (r: Option<Label>)
    requires Fits(boundaryMap, recLabels)
    reads boundaryMap
    ensures forall k: Label :: BoundaryAt(boundaryMap, recLabels, l, offset, k) <==> r == Some(k)
  {
    var j := Shift(l, offset);
    if j.x < 0 || j.x >= boundaryMap.Length0 || j.y < 0 || j.y >= boundaryMap.Length1 ||
       j.z < 0 || j.z >= boundaryMap.Length2 then None
    else if !boundaryMap[j.x, j.y, j.z] then None
    else Some(recLabels.At(j.x, j.y, j.z))
  }

  /** One offset of the scan: a boundary voxel inside the volume whose label
      is not the cell's own and has not been seen at this location has its
      counter incremented; stop is set when that completes as many labels
      as were complete before. */
  method ScanOffset(boundaryMap: array3<bool>, recLabels: ImageStack, neighborhood: seq<Location>,
                    cellLabel: Label, at: Location, counts: map<Label, nat>, numVisited: nat,
                    maxAlternatives: nat, t: nat, countsIn: map<Label, nat>, seenIn: set<Label>,
                    ghost completeIn: set<Label>, numCompleteIn: nat)
    returns (countsOut: map<Label, nat>, seen: set<Label>, ghost complete: set<Label>, numComplete: nat,
             stop: bool)
    requires Fits(boundaryMap, recLabels) && numVisited >= 1 && t < |neighborhood|
    requires numVisited == 1 ==> maxAlternatives == 0
    requires numVisited > 1 ==> maxAlternatives == |Reached(counts, numVisited - 1)|
    requires Scanned(boundaryMap, recLabels, neighborhood, cellLabel, at, counts, numVisited, t,
                     countsIn, seenIn, completeIn, numCompleteIn)
    ensures ScanState(counts, countsOut, seen, complete, numVisited)
    ensures forall l :: l in seen <==> l != cellLabel && FoundWithin(boundaryMap, recLabels, neighborhood, at, t + 1, l)
    ensures numComplete == |complete|
    ensures numVisited > 1 ==> complete <= Reached(counts, numVisited - 1)
    ensures stop ==> numVisited > 1 && complete == Reached(counts, numVisited - 1)
  {
    countsOut, seen, complete, numComplete, stop := countsIn, seenIn, completeIn, numCompleteIn, false;
    var found := BoundaryLabel(boundaryMap, recLabels, at, neighborhood[t]);
    if found.Some? && found.value != cellLabel && found.value !in seen {
      var k := found.value;
      SeeLabel(counts, countsOut, seen, complete, numVisited, k);
      countsOut := Inc(countsOut, k);
      seen := seen + {k};
      if Get(countsOut, k) == numVisited {
        assert numVisited > 1 ==> k in Reached(counts, numVisited - 1);
        AddNew(complete, k);
        complete := complete + {k};
        numComplete := numComplete + 1;
        if numComplete == maxAlternatives {
          SubsetSize(complete, Reached(counts, numVisited - 1));
          stop := true;
        }
      }
    }
    SeenAfter(boundaryMap, recLabels, neighborhood, cellLabel, at, t, seenIn, seen);
  }

  /** The labels seen after offset t are those seen before and the label of
      a boundary voxel at offset t, unless it is the cell's own. */
  lemma SeenAfter(boundaryMap: array3<bool>, recLabels: ImageStack, neighborhood: seq<Location>,
                  cellLabel: Label, at: Location, t: nat, seen: set<Label>, seen': set<Label>)
    requires t < |neighborhood|
    requires forall l :: l in seen <==> l != cellLabel && FoundWithin(boundaryMap, recLabels, neighborhood, at, t, l)
    requires forall l :: l in seen' <==>
      l in seen || (l != cellLabel && BoundaryAt(boundaryMap, recLabels, at, neighborhood[t], l))
    ensures forall l :: l in seen' <==>
      l != cellLabel && FoundWithin(boundaryMap, recLabels, neighborhood, at, t + 1, l)
  {
    FoundStep(boundaryMap, recLabels, neighborhood, at, t);
  }

  /** The inner loop of getAlternativeLabels for one location: every label
      other than the cell's own found on a boundary in the neighbourhood has
      its counter incremented once; the scan stops as soon as every label
      that covered all earlier locations has been seen again. */
  method ScanLocation(boundaryMap: array3<bool>, recLabels: ImageStack, neighborhood: seq<Location>,
                      cellLabel: Label, at: Location, counts: map<Label, nat>, numVisited: nat,
                      maxAlternatives: nat)
    returns (countsOut: map<Label, nat>, numComplete: nat)
    requires Fits(boundaryMap, recLabels) && numVisited >= 1
    requires forall l :: Get(counts, l) <= numVisited - 1
    requires numVisited == 1 ==> maxAlternatives == 0
    requires numVisited > 1 ==> maxAlternatives == |Reached(counts, numVisited - 1)|
    ensures forall l :: Get(countsOut, l) <= numVisited
    ensures forall l :: Get(countsOut, l) == numVisited <==>
      Get(counts, l) == numVisited - 1 && l != cellLabel && Covers(boundaryMap, recLabels, neighborhood, at, l)
    ensures numComplete == |Reached(countsOut, numVisited)|
  {
    countsOut := counts;
    numComplete := 0;
    var neighborhoodLabels: set<Label> := {};
    ghost var complete: set<Label> := {};
    ghost var previous := Reached(counts, numVisited - 1);
    var t := 0;
    var stop := false;
    while t < |neighborhood|
      invariant 0 <= t <= |neighborhood|
      invariant Scanned(boundaryMap, recLabels, neighborhood, cellLabel, at, counts, numVisited, t,
                        countsOut, neighborhoodLabels, complete, numComplete)
      invariant stop ==> numVisited > 1 && complete == previous
    {
      countsOut, neighborhoodLabels, complete, numComplete, stop :=
        ScanOffset(boundaryMap, recLabels, neighborhood, cellLabel, at, counts, numVisited, maxAlternatives, t,
                   countsOut, neighborhoodLabels, complete, numComplete);
      t := t + 1;
      if stop {
        break;
      }
    }
    ScanFinish(boundaryMap, recLabels, neighborhood, cellLabel, at, counts, numVisited, t,
               countsOut, neighborhoodLabels, complete, numComplete, stop);
  }

  /** What the scan of one location establishes, whether it ran through the
      whole neighbourhood or stopped early. */
  lemma ScanFinish(boundaryMap: array3<bool>, recLabels: ImageStack, neighborhood: seq<Location>,
                   cellLabel: Label, at: Location, counts: map<Label, nat>, numVisited: nat,
                   t: nat, countsOut: map<Label, nat>, seen: set<Label>, complete: set<Label>,
                   numComplete: nat, stop: bool)
    requires numVisited >= 1 && t <= |neighborhood|
    requires forall l :: Get(counts, l) <= numVisited - 1
    requires Scanned(boundaryMap, recLabels, neighborhood, cellLabel, at, counts, numVisited, t,
                     countsOut, seen, complete, numComplete)
    requires stop ==> numVisited > 1 && complete == Reached(counts, numVisited - 1)
    requires !stop ==> t == |neighborhood|
    ensures forall l :: Get(countsOut, l) <= numVisited
    ensures forall l :: Get(countsOut, l) == numVisited <==>
      Get(counts, l) == numVisited - 1 && l != cellLabel && Covers(boundaryMap, recLabels, neighborhood, at, l)
    ensures numComplete == |Reached(countsOut, numVisited)|
  {
    ReachedIsComplete(counts, countsOut, seen, complete, numVisited);
    forall l ensures Get(countsOut, l) == numVisited <==>
      Get(counts, l) == numVisited - 1 && l != cellLabel && Covers(boundaryMap, recLabels, neighborhood, at, l)
    {
      if l in seen {
        var s :| 0 <= s < t && BoundaryAt(boundaryMap, recLabels, at, neighborhood[s], l);
      }
      if stop && Get(counts, l) == numVisited - 1 {
        assert l in Reached(counts, numVisited - 1);
      }
    }
  }

  /** getAlternativeLabels: the labels other than the cell's own found on a
      boundary within the neighbourhood of every location of the cell. */
  method AlternativeLabels(boundaryMap: array3<bool>, recLabels: ImageStack, neighborhood: seq<Location>,
                           cellLabel: Label, content: seq<Location>)
    returns (alternativeLabels: set<Label>)
    requires Fits(boundaryMap, recLabels)
    ensures forall l :: l in alternativeLabels <==>
      IsAlternative(boundaryMap, recLabels, neighborhood, cellLabel, content, l)
  {
    var counts: map<Label, nat> := map[];
    var numVisited := 0;
    var maxAlternatives := 0;
    while numVisited < |content|
      invariant numVisited <= |content|
      invariant CountsBefore(boundaryMap, recLabels, neighborhood, cellLabel, content, counts, numVisited,
                             maxAlternatives)
    {
      var numComplete;
      counts, numComplete := ScanLocation(boundaryMap, recLabels, neighborhood, cellLabel, content[numVisited],
                                          counts, numVisited + 1, maxAlternatives);
      CoversStep(boundaryMap, recLabels, neighborhood, cellLabel, content, numVisited);
      numVisited := numVisited + 1;
      maxAlternatives := numComplete;
      assert CountsBefore(boundaryMap, recLabels, neighborhood, cellLabel, content, counts, numVisited,
                          maxAlternatives);
      if maxAlternatives == 0 {
        break;
      }
    }
    assert numVisited == |content| || (numVisited > 0 && maxAlternatives == 0);
    alternativeLabels := {};
    var keys := counts.Keys;
    while keys != {}
      invariant keys <= counts.Keys
      invariant forall l :: l in alternativeLabels <==> l in Reached(counts, |content|) && l !in keys
      decreases |keys|
    {
      var l :| l in keys;
      if counts[l] == |content| {
        alternativeLabels := alternativeLabels + {l};
      }
      keys := keys - {l};
    }
    AlternativesDone(boundaryMap, recLabels, neighborhood, cellLabel, content, counts, numVisited, maxAlternatives);
  }

  /** After the location loop, whether it visited every location or stopped
      when no label covered all visited ones, the counters at the cell size
      are exactly the alternative labels. */
  lemma AlternativesDone(boundaryMap: array3<bool>, recLabels: ImageStack, neighborhood: seq<Location>,
                         cellLabel: Label, content: seq<Location>, counts: map<Label, nat>, n: nat,
                         maxAlternatives: nat)
    requires n <= |content|
    requires CountsBefore(boundaryMap, recLabels, neighborhood, cellLabel, content, counts, n, maxAlternatives)
    requires n == |content| || (n > 0 && maxAlternatives == 0)
    ensures forall l :: l in Reached(counts, |content|) <==>
      IsAlternative(boundaryMap, recLabels, neighborhood, cellLabel, content, l)
  {
    forall l ensures l in Reached(counts, |content|) <==>
      IsAlternative(boundaryMap, recLabels, neighborhood, cellLabel, content, l)
    {
      CoversPrefix(boundaryMap, recLabels, neighborhood, content, n, l);
      if n < |content| {
        assert l !in Reached(counts, n);
        assert Get(counts, l) != |content|;
      }
    }
  }

  /** Covering the first n + 1 locations is covering the first n and
      location n. */
  lemma CoversStep(boundaryMap: array3<bool>, recLabels: ImageStack, neighborhood: seq<Location>,
                   cellLabel: Label, content: seq<Location>, n: nat)
    requires n < |content|
    ensures forall l :: CoversFirst(boundaryMap, recLabels, neighborhood, content, n + 1, l) <==>
      CoversFirst(boundaryMap, recLabels, neighborhood, content, n, l) &&
      Covers(boundaryMap, recLabels, neighborhood, content[n], l)
  {
  }

  /** Covering all locations includes covering the first n. */
  lemma CoversPrefix(boundaryMap: array3<bool>, recLabels: ImageStack, neighborhood: seq<Location>,
                     content: seq<Location>, n: nat, l: Label)
    requires n <= |content|
    ensures CoversFirst(boundaryMap, recLabels, neighborhood, content, |content|, l) ==>
      CoversFirst(boundaryMap, recLabels, neighborhood, content, n, l)
  {
  }

  // ---------------------------------------------------------------------
  // The threshold neighbourhood

  function Abs(v: int): nat {
    if v < 0 then -v else v
  }

  /** An offset along one axis, at most the pixel threshold of that axis
      away from the centre, and not the centre. */
  predicate IsAxisOffset(o: Location, thresholdX: nat, thresholdY: nat, thresholdZ: nat) {
    (o.x == 0 && o.y == 0 && 1 <= Abs(o.z) <= thresholdZ) ||
    (o.x == 0 && o.z == 0 && 1 <= Abs(o.y) <= thresholdY) ||
    (o.y == 0 && o.z == 0 && 1 <= Abs(o.x) <= thresholdX)
  }

  /** At least two coordinates of the offset are non-zero. */
  predicate OffAxis(o: Location) {
    !((o.x == 0 && o.y == 0) || (o.x == 0 && o.z == 0) || (o.y == 0 && o.z == 0))
  }

  /** The offset lies in the box of the pixel thresholds. */
  predicate InBox(o: Location, thresholdX: nat, thresholdY: nat, thresholdZ: nat) {
    Abs(o.x) <= thresholdX && Abs(o.y) <= thresholdY && Abs(o.z) <= thresholdZ
  }

  /** The resolution-weighted squared length of the offset is at most the
      squared distance threshold. */
  predicate WithinThreshold(o: Location, resolutionX: real, resolutionY: real, resolutionZ: real, threshold: real) {
    (o.x as real) * resolutionX * (o.x as real) * resolutionX +
    (o.y as real) * resolutionY * (o.y as real) * resolutionY +
    (o.z as real) * resolutionZ * (o.z as real) * resolutionZ <= threshold * threshold
  }

  /** The offsets of the threshold neighbourhood: every axis offset up to the
      pixel thresholds, and every other offset in the box whose weighted
      length is within the threshold. */
  predicate InNeighborhood(o: Location, thresholdX: nat, thresholdY: nat, thresholdZ: nat,
                           resolutionX: real, resolutionY: real, resolutionZ: real, threshold: real) {
    IsAxisOffset(o, thresholdX, thresholdY, thresholdZ) ||
    (OffAxis(o) && InBox(o, thresholdX, thresholdY, thresholdZ) &&
     WithinThreshold(o, resolutionX, resolutionY, resolutionZ, threshold))
  }

  predicate Distinct(offsets: seq<Location>) {
    forall i, j | 0 <= i < j < |offsets| :: offsets[i] != offsets[j]
  }

  /** The centre is never an offset, and every axis offset up to the pixel
      thresholds is one, whatever the resolution. */
  lemma NeighborhoodAxes(thresholdX: nat, thresholdY: nat, thresholdZ: nat,
                         resolutionX: real, resolutionY: real, resolutionZ: real, threshold: real, d: int)
    ensures !InNeighborhood(Location(0, 0, 0), thresholdX, thresholdY, thresholdZ,
                            resolutionX, resolutionY, resolutionZ, threshold)
    ensures 1 <= Abs(d) <= thresholdZ ==>
      InNeighborhood(Location(0, 0, d), thresholdX, thresholdY, thresholdZ, resolutionX, resolutionY, resolutionZ, threshold)
    ensures 1 <= Abs(d) <= thresholdY ==>
      InNeighborhood(Location(0, d, 0), thresholdX, thresholdY, thresholdZ, resolutionX, resolutionY, resolutionZ, threshold)
    ensures 1 <= Abs(d) <= thresholdX ==>
      InNeighborhood(Location(d, 0, 0), thresholdX, thresholdY, thresholdZ, resolutionX, resolutionY, resolutionZ, threshold)
  {
  }

  /** Appending an offset that is not yet present keeps the offsets distinct. */
  lemma AppendDistinct(offsets: seq<Location>, o: Location)
    requires Distinct(offsets) && o !in offsets
    ensures Distinct(offsets + [o])
  {
    var r := offsets + [o];
    forall i, j | 0 <= i < j < |r| ensures r[i] != r[j] {
      if j == |offsets| {
        assert r[i] == offsets[i] && offsets[i] in offsets;
      } else {
        assert r[i] == offsets[i] && r[j] == offsets[j];
      }
    }
  }

  /** The first loops of createNeighborhood: the offsets along z, then y,
      then x, each in both directions. */
  method AxisOffsets(thresholdX: nat, thresholdY: nat, thresholdZ: nat) returns (offsets: seq<Location>)
    ensures Distinct(offsets) && |offsets| == 2 * (thresholdX + thresholdY + thresholdZ)
    ensures forall o :: o in offsets <==> IsAxisOffset(o, thresholdX, thresholdY, thresholdZ)
  {
    offsets := [];
    for z := 1 to thresholdZ + 1
      invariant Distinct(offsets) && |offsets| == 2 * (z - 1)
      invariant forall o :: o in offsets <==> o.x == 0 && o.y == 0 && 1 <= Abs(o.z) < z
    {
      AppendDistinct(offsets, Location(0, 0, z));
      offsets := offsets + [Location(0, 0, z)];
      AppendDistinct(offsets, Location(0, 0, -z));
      offsets := offsets + [Location(0, 0, -z)];
    }
    for y := 1 to thresholdY + 1
      invariant Distinct(offsets) && |offsets| == 2 * (thresholdZ + y - 1)
      invariant forall o :: o in offsets <==>
        (o.x == 0 && o.y == 0 && 1 <= Abs(o.z) <= thresholdZ) || (o.x == 0 && o.z == 0 && 1 <= Abs(o.y) < y)
    {
      AppendDistinct(offsets, Location(0, y, 0));
      offsets := offsets + [Location(0, y, 0)];
      AppendDistinct(offsets, Location(0, -y, 0));
      offsets := offsets + [Location(0, -y, 0)];
    }
    for x := 1 to thresholdX + 1
      invariant Distinct(offsets) && |offsets| == 2 * (thresholdZ + thresholdY + x - 1)
      invariant forall o :: o in offsets <==>
        (o.x == 0 && o.y == 0 && 1 <= Abs(o.z) <= thresholdZ) || (o.x == 0 && o.z == 0 && 1 <= Abs(o.y) <= thresholdY) ||
        (o.y == 0 && o.z == 0 && 1 <= Abs(o.x) < x)
    {
      AppendDistinct(offsets, Location(x, 0, 0));
      offsets := offsets + [Location(x, 0, 0)];
      AppendDistinct(offsets, Location(-x, 0, 0));
      offsets := offsets + [Location(-x, 0, 0)];
    }
  }

  /** The x loop of createNeighborhood for the row (y, z): the off-axis
      offsets of the row within the threshold, by increasing x. */
  method AppendRowOffsets(offsets: seq<Location>, y: int, z: int, thresholdX: nat,
                          resolutionX: real, resolutionY: real, resolutionZ: real, threshold: real)
    returns (out: seq<Location>)
    requires Distinct(offsets)
    requires forall o | o in offsets :: !(o.y == y && o.z == z && OffAxis(o))
    ensures Distinct(out) && |offsets| <= |out| && out[..|offsets|] == offsets
    ensures forall o :: o in out <==> (o in offsets ||
      (o.y == y && o.z == z && Abs(o.x) <= thresholdX && OffAxis(o) &&
       WithinThreshold(o, resolutionX, resolutionY, resolutionZ, threshold)))
  {
    out := offsets;
    for x := -(thresholdX as int) to thresholdX + 1
      invariant Distinct(out) && |offsets| <= |out| && out[..|offsets|] == offsets
      invariant forall o :: o in out <==> (o in offsets ||
        (o.y == y && o.z == z && -(thresholdX as int) <= o.x < x && OffAxis(o) &&
         WithinThreshold(o, resolutionX, resolutionY, resolutionZ, threshold)))
    {
      var o := Location(x, y, z);
      if (x == 0 && y == 0) || (x == 0 && z == 0) || (y == 0 && z == 0) {
        continue;
      }
      if WithinThreshold(o, resolutionX, resolutionY, resolutionZ, threshold) {
        AppendDistinct(out, o);
        out := out + [o];
      }
    }
  }

  /** The y and x loops of createNeighborhood for the plane z. */
  method AppendPlaneOffsets(offsets: seq<Location>, z: int, thresholdX: nat, thresholdY: nat,
                            resolutionX: real, resolutionY: real, resolutionZ: real, threshold: real)
    returns (out: seq<Location>)
    requires Distinct(offsets)
    requires forall o | o in offsets :: !(o.z == z && OffAxis(o))
    ensures Distinct(out) && |offsets| <= |out| && out[..|offsets|] == offsets
    ensures forall o :: o in out <==> (o in offsets ||
      (o.z == z && Abs(o.x) <= thresholdX && Abs(o.y) <= thresholdY && OffAxis(o) &&
       WithinThreshold(o, resolutionX, resolutionY, resolutionZ, threshold)))
  {
    out := offsets;
    for y := -(thresholdY as int) to thresholdY + 1
      invariant Distinct(out) && |offsets| <= |out| && out[..|offsets|] == offsets
      invariant forall o :: o in out <==> (o in offsets ||
        (o.z == z && Abs(o.x) <= thresholdX && -(thresholdY as int) <= o.y < y && OffAxis(o) &&
         WithinThreshold(o, resolutionX, resolutionY, resolutionZ, threshold)))
    {
      out := AppendRowOffsets(out, y, z, thresholdX, resolutionX, resolutionY, resolutionZ, threshold);
    }
  }

  /** createNeighborhood: the axis offsets first, then the off-axis offsets
      within the threshold, plane by plane; no offset occurs twice. */
  method CreateNeighborhood(thresholdX: nat, thresholdY: nat, thresholdZ: nat,
                            resolutionX: real, resolutionY: real, resolutionZ: real, threshold: real)
    returns (offsets: seq<Location>)
    ensures Distinct(offsets)
    ensures forall o :: o in offsets <==>
      InNeighborhood(o, thresholdX, thresholdY, thresholdZ, resolutionX, resolutionY, resolutionZ, threshold)
    ensures 2 * (thresholdX + thresholdY + thresholdZ) <= |offsets|
    ensures forall i | 0 <= i < 2 * (thresholdX + thresholdY + thresholdZ) ::
      IsAxisOffset(offsets[i], thresholdX, thresholdY, thresholdZ)
  {
    offsets := AxisOffsets(thresholdX, thresholdY, thresholdZ);
    ghost var axes := offsets;
    for z := -(thresholdZ as int) to thresholdZ + 1
      invariant Distinct(offsets) && |axes| <= |offsets| && offsets[..|axes|] == axes
      invariant forall o :: o in offsets <==> (IsAxisOffset(o, thresholdX, thresholdY, thresholdZ) ||
        (-(thresholdZ as int) <= o.z < z && Abs(o.x) <= thresholdX && Abs(o.y) <= thresholdY && OffAxis(o) &&
         WithinThreshold(o, resolutionX, resolutionY, resolutionZ, threshold)))
    {
      offsets := AppendPlaneOffsets(offsets, z, thresholdX, thresholdY, resolutionX, resolutionY, resolutionZ,
                                    threshold);
    }
    forall i | 0 <= i < |axes| ensures IsAxisOffset(offsets[i], thresholdX, thresholdY, thresholdZ) {
      assert offsets[i] == axes[i] && axes[i] in axes;
    }
  }

  // ---------------------------------------------------------------------
  // The boundary map

  /** The boundary map is exactly the boundary voxels of the stack. */
  ghost predicate IsBoundaryMap(boundaryMap: array3<bool>, stack: ImageStack)
    reads boundaryMap
  {
    Fits(boundaryMap, stack) &&
    forall x, y, z | 0 <= x < boundaryMap.Length0 && 0 <= y < boundaryMap.Length1 && 0 <= z < boundaryMap.Length2 ::
      boundaryMap[x, y, z] == IsBoundaryVoxel(x, y, z, stack.width, stack.height, stack.Size(), stack)
  }

  /** The z loop of createBoundaryMap for the column (x, y). */
  method MarkColumn(boundaryMap: array3<bool>, recLabels: ImageStack, x: nat, y: nat)
    requires Fits(boundaryMap, recLabels) && x < boundaryMap.Length0 && y < boundaryMap.Length1
    requires forall z | 0 <= z < boundaryMap.Length2 :: !boundaryMap[x, y, z]
    modifies boundaryMap
    ensures forall z | 0 <= z < boundaryMap.Length2 ::
      boundaryMap[x, y, z] == IsBoundaryVoxel(x, y, z, recLabels.width, recLabels.height, recLabels.Size(), recLabels)
    ensures forall x', y', z | 0 <= x' < boundaryMap.Length0 && 0 <= y' < boundaryMap.Length1 &&
                               0 <= z < boundaryMap.Length2 && (x' != x || y' != y) ::
      boundaryMap[x', y', z] == old(boundaryMap[x', y', z])
  {
    var width, height, depth := recLabels.width, recLabels.height, recLabels.Size();
    for z := 0 to depth
      invariant forall z' | 0 <= z' < z ::
        boundaryMap[x, y, z'] == IsBoundaryVoxel(x, y, z', width, height, depth, recLabels)
      invariant forall z' | z <= z' < depth :: !boundaryMap[x, y, z']
      invariant forall x', y', z' | 0 <= x' < width && 0 <= y' < height && 0 <= z' < depth && (x' != x || y' != y) ::
        boundaryMap[x', y', z'] == old(boundaryMap[x', y', z'])
    {
      if IsBoundaryVoxel(x, y, z, width, height, depth, recLabels) {
        boundaryMap[x, y, z] := true;
      }
    }
  }

  /** createBoundaryMap: a map of the volume's size, true exactly on the
      boundary voxels of the reconstruction. */
  method CreateBoundaryMap(recLabels: ImageStack) returns (boundaryMap: array3<bool>)
    requires recLabels.Valid()
    ensures fresh(boundaryMap) && IsBoundaryMap(boundaryMap, recLabels)
  {
    var width, height, depth := recLabels.width, recLabels.height, recLabels.Size();
    boundaryMap := new bool[width, height, depth]((x, y, z) => false);
    for x := 0 to width
      invariant forall x', y, z | 0 <= x' < x && 0 <= y < height && 0 <= z < depth ::
        boundaryMap[x', y, z] == IsBoundaryVoxel(x', y, z, width, height, depth, recLabels)
      invariant forall x', y, z | x <= x' < width && 0 <= y < height && 0 <= z < depth :: !boundaryMap[x', y, z]
    {
      for y := 0 to height
        invariant forall x', y', z | 0 <= x' < x && 0 <= y' < height && 0 <= z < depth ::
          boundaryMap[x', y', z] == IsBoundaryVoxel(x', y', z, width, height, depth, recLabels)
        invariant forall y', z | 0 <= y' < y && 0 <= z < depth ::
          boundaryMap[x, y', z] == IsBoundaryVoxel(x, y', z, width, height, depth, recLabels)
        invariant forall x', y', z | x <= x' < width && 0 <= y' < height && 0 <= z < depth && (x' > x || y' >= y) ::
          !boundaryMap[x', y', z]
      {
        MarkColumn(boundaryMap, recLabels, x, y);
      }
    }
  }

  // ---------------------------------------------------------------------
  // Relabel candidates

  function Max(a: real, b: real): real {
    if a < b then b else a
  }

  /** The largest squared boundary distance over the locations, starting
      from 0 as the engine's vector of maxima does. */
  function MaxDistance(content: seq<Location>, boundaryDistance2: Location -> real): real {
    if content == [] then 0.0
    else Max(MaxDistance(content[..|content| - 1], boundaryDistance2), boundaryDistance2(content[|content| - 1]))
  }

  /** The maximum is at most bound exactly when 0 and every location's
      distance are. */
  lemma {:induction false} MaxDistanceAtMost(content: seq<Location>, boundaryDistance2: Location -> real, bound: real)
    ensures MaxDistance(content, boundaryDistance2) <= bound <==>
      0.0 <= bound && forall l | l in content :: boundaryDistance2(l) <= bound
  {
    if content != [] {
      var init := content[..|content| - 1];
      MaxDistanceAtMost(init, boundaryDistance2, bound);
      assert content == init + [content[|content| - 1]];
    }
  }

  /** A cell is a relabel candidate when no location of it is further from
      a boundary than the threshold. */
  ghost predicate IsRelabelCandidate(cells: seq<Cell>, c: int, boundaryDistance2: Location -> real, threshold: real)
    reads cells`content
  {
    0 <= c < |cells| && MaxDistance(cells[c].content, boundaryDistance2) <= threshold * threshold
  }

  /** The maximum squared boundary distance of one cell, location by
      location. */
  method CellMaxDistance(content: seq<Location>, boundaryDistance2: Location -> real) returns (m: real)
    ensures m == MaxDistance(content, boundaryDistance2)
  {
    m := 0.0;
    for i := 0 to |content|
      invariant m == MaxDistance(content[..i], boundaryDistance2)
    {
      assert content[..i + 1][..i] == content[..i];
      m := Max(m, boundaryDistance2(content[i]));
    }
    assert content[..|content|] == content;
  }

  /** findRelabelCandidates: the indices, in increasing order, of the cells
      whose maximum squared boundary distance is at most the squared
      threshold. The squared distances are the distance transform of the
      boundary map, taken as given. */
  method FindRelabelCandidates(cells: seq<Cell>, boundaryDistance2: Location -> real, threshold: real)
    returns (relabelCandidates: seq<nat>)
    ensures StrictlyIncreasing(relabelCandidates)
    ensures forall c: int :: c in relabelCandidates <==> IsRelabelCandidate(cells, c, boundaryDistance2, threshold)
  {
    var maxBoundaryDistances: seq<real> := seq(|cells|, _ => 0.0);
    for c := 0 to |cells|
      invariant |maxBoundaryDistances| == |cells|
      invariant forall c' | 0 <= c' < c :: maxBoundaryDistances[c'] == MaxDistance(cells[c'].content, boundaryDistance2)
    {
      var m := CellMaxDistance(cells[c].content, boundaryDistance2);
      maxBoundaryDistances := maxBoundaryDistances[c := m];
    }
    relabelCandidates := [];
    for c := 0 to |maxBoundaryDistances|
      invariant StrictlyIncreasing(relabelCandidates)
      invariant forall k | 0 <= k < |relabelCandidates| :: relabelCandidates[k] < c
      invariant forall c': int :: c' in relabelCandidates <==>
        0 <= c' < c && IsRelabelCandidate(cells, c', boundaryDistance2, threshold)
    {
      if maxBoundaryDistances[c] <= threshold * threshold {
        relabelCandidates := relabelCandidates + [c];
      }
    }
  }

  /** A cell is a candidate exactly when every location is within the
      squared threshold of a boundary. */
  lemma RelabelCandidateIff(cells: seq<Cell>, c: int, boundaryDistance2: Location -> real, threshold: real)
    requires 0 <= c < |cells|
    ensures IsRelabelCandidate(cells, c, boundaryDistance2, threshold) <==>
      forall l | l in cells[c].content :: boundaryDistance2(l) <= threshold * threshold
  {
    MaxDistanceAtMost(cells[c].content, boundaryDistance2, threshold * threshold);
  }

  // ---------------------------------------------------------------------
  // The tolerance function

  /** A boundary voxel labelled k lies at some offset of the threshold
      neighbourhood from l. */
  ghost predicate CoversNear(boundaryMap: array3<bool>, recLabels: ImageStack, thresholdX: nat, thresholdY: nat,
                             thresholdZ: nat, resolutionX: real, resolutionY: real, resolutionZ: real,
                             threshold: real, l: Location, k: Label)
    reads boundaryMap
  {
    exists o :: InNeighborhood(o, thresholdX, thresholdY, thresholdZ, resolutionX, resolutionY, resolutionZ, threshold) &&
      BoundaryAt(boundaryMap, recLabels, l, o, k)
  }

  /** A label other than the cell's own lying on a boundary within the
      threshold neighbourhood of every location of a non-empty cell. */
  ghost predicate IsNearAlternative(boundaryMap: array3<bool>, recLabels: ImageStack, thresholdX: nat, thresholdY: nat,
                                    thresholdZ: nat, resolutionX: real, resolutionY: real, resolutionZ: real,
                                    threshold: real, cellLabel: Label, content: seq<Location>, k: Label)
    reads boundaryMap
  {
    k != cellLabel && |content| > 0 &&
    forall i | 0 <= i < |content| ::
      CoversNear(boundaryMap, recLabels, thresholdX, thresholdY, thresholdZ, resolutionX, resolutionY, resolutionZ,
                 threshold, content[i], k)
  }

  /** Scanning the generated neighbourhood finds the same alternatives as
      the neighbourhood's definition. */
  lemma NearAlternatives(boundaryMap: array3<bool>, recLabels: ImageStack, neighborhood: seq<Location>,
                         thresholdX: nat, thresholdY: nat, thresholdZ: nat, resolutionX: real, resolutionY: real,
                         resolutionZ: real, threshold: real, cellLabel: Label, content: seq<Location>)
    requires forall o :: o in neighborhood <==>
      InNeighborhood(o, thresholdX, thresholdY, thresholdZ, resolutionX, resolutionY, resolutionZ, threshold)
    ensures forall k :: IsAlternative(boundaryMap, recLabels, neighborhood, cellLabel, content, k) <==>
      IsNearAlternative(boundaryMap, recLabels, thresholdX, thresholdY, thresholdZ, resolutionX, resolutionY,
                        resolutionZ, threshold, cellLabel, content, k)
  {
    forall l, k ensures Covers(boundaryMap, recLabels, neighborhood, l, k) <==>
      CoversNear(boundaryMap, recLabels, thresholdX, thresholdY, thresholdZ, resolutionX, resolutionY, resolutionZ,
                 threshold, l, k)
    {
      if Covers(boundaryMap, recLabels, neighborhood, l, k) {
        var t :| 0 <= t < |neighborhood| && BoundaryAt(boundaryMap, recLabels, l, neighborhood[t], k);
        assert neighborhood[t] in neighborhood;
      }
      if CoversNear(boundaryMap, recLabels, thresholdX, thresholdY, thresholdZ, resolutionX, resolutionY, resolutionZ,
                    threshold, l, k) {
        var o :| InNeighborhood(o, thresholdX, thresholdY, thresholdZ, resolutionX, resolutionY, resolutionZ, threshold) &&
          BoundaryAt(boundaryMap, recLabels, l, o, k);
        var t :| 0 <= t < |neighborhood| && neighborhood[t] == o;
      }
    }
  }

  /** The cells are distinct objects, as the elements of a vector are. */
  predicate DistinctCells(cells: seq<Cell>) {
    forall i, j | 0 <= i < j < |cells| :: cells[i] != cells[j]
  }

  /** Adds every label of labels to the cell's alternatives; the cell's own
      label is skipped, as addAlternativeLabel does. */
  method AddLabels(cell: Cell, labels: set<Label>)
    modifies cell
    ensures cell.alternativeLabels == old(cell.alternativeLabels) + (labels - {cell.recLabel})
    ensures cell.recLabel == old(cell.recLabel) && cell.groundTruthLabel == old(cell.groundTruthLabel)
    ensures cell.content == old(cell.content) && cell.boundary == old(cell.boundary)
  {
    var rest := labels;
    while rest != {}
      invariant rest <= labels
      invariant cell.alternativeLabels == old(cell.alternativeLabels) + (labels - rest - {cell.recLabel})
      invariant cell.recLabel == old(cell.recLabel) && cell.groundTruthLabel == old(cell.groundTruthLabel)
      invariant cell.content == old(cell.content) && cell.boundary == old(cell.boundary)
      decreases |rest|
    {
      var k :| k in rest;
      cell.AddAlternativeLabel(k);
      rest := rest - {k};
    }
  }

  class DistanceToleranceFunction {
    /** Whether background may appear between two shifted boundaries. */
    const allowBackgroundAppearance: bool
    const recBackgroundLabel: Label
    /** The distance threshold, in the units of the resolution. */
    const maxDistanceThreshold: real
    /** The distance threshold in voxels along each axis. */
    var maxDistanceThresholdX: nat
    var maxDistanceThresholdY: nat
    var maxDistanceThresholdZ: nat
    /** The extents and the resolution of the volume. */
    var width: nat
    var height: nat
    var depth: nat
    var resolutionX: real
    var resolutionY: real
    var resolutionZ: real
    /** The boundary voxels of the reconstruction. */
    var boundaryMap: array3<bool>

    constructor (distanceThreshold: real, allowBackgroundAppearance: bool, recBackgroundLabel: Label)
      ensures this.allowBackgroundAppearance == allowBackgroundAppearance
      ensures this.recBackgroundLabel == recBackgroundLabel
      ensures maxDistanceThreshold == distanceThreshold
    {
      this.allowBackgroundAppearance := allowBackgroundAppearance;
      this.recBackgroundLabel := recBackgroundLabel;
      maxDistanceThreshold := distanceThreshold;
      boundaryMap := new bool[0, 0, 0];
    }

    /** The offsets of this function's threshold neighbourhood. */
    ghost predicate InThresholdNeighborhood(o: Location)
      reads this
    {
      InNeighborhood(o, maxDistanceThresholdX, maxDistanceThresholdY, maxDistanceThresholdZ,
                     resolutionX, resolutionY, resolutionZ, maxDistanceThreshold)
    }

    /** The labels a candidate cell gains: its alternatives, and the
        reconstruction background when background may appear, the cell has
        an alternative and is not itself background. */
    ghost predicate Gains(recLabels: ImageStack, cellLabel: Label, content: seq<Location>, k: Label)
      reads this, boundaryMap
    {
      IsNearAlternative(boundaryMap, recLabels, maxDistanceThresholdX, maxDistanceThresholdY, maxDistanceThresholdZ,
                        resolutionX, resolutionY, resolutionZ, maxDistanceThreshold, cellLabel, content, k) ||
      (k == recBackgroundLabel && allowBackgroundAppearance && cellLabel != recBackgroundLabel &&
       exists a :: IsNearAlternative(boundaryMap, recLabels, maxDistanceThresholdX, maxDistanceThresholdY,
                                     maxDistanceThresholdZ, resolutionX, resolutionY, resolutionZ,
                                     maxDistanceThreshold, cellLabel, content, a))
    }

    /** initializeCellLabels: every cell can keep its own label. */
    method InitializeCellLabels(cells: seq<Cell>)
      modifies cells
      ensures forall i | 0 <= i < |cells| :: cells[i].recLabel in cells[i].PossibleLabels()
      ensures forall i | 0 <= i < |cells| ::
        cells[i].recLabel == old(cells[i].recLabel) && cells[i].groundTruthLabel == old(cells[i].groundTruthLabel) &&
        cells[i].alternativeLabels == old(cells[i].alternativeLabels) &&
        cells[i].content == old(cells[i].content) && cells[i].boundary == old(cells[i].boundary)
    {
      for i := 0 to |cells|
        invariant forall j | 0 <= j < |cells| ::
          cells[j].recLabel == old(cells[j].recLabel) && cells[j].groundTruthLabel == old(cells[j].groundTruthLabel) &&
          cells[j].alternativeLabels == old(cells[j].alternativeLabels) &&
          cells[j].content == old(cells[j].content) && cells[j].boundary == old(cells[j].boundary)
      {
        cells[i].AddAlternativeLabel(cells[i].recLabel);
      }
    }

    /** Adding the background to a non-empty set of alternatives of a
        non-background cell, when background may appear, gives exactly the
        labels the cell gains, none of them its own. */
    lemma GainedLabels(recLabels: ImageStack, neighborhood: seq<Location>, cellLabel: Label, content: seq<Location>,
                       alternatives: set<Label>, gained: set<Label>)
      requires forall o :: o in neighborhood <==> InThresholdNeighborhood(o)
      requires forall k :: k in alternatives <==>
        IsAlternative(boundaryMap, recLabels, neighborhood, cellLabel, content, k)
      requires gained == if allowBackgroundAppearance && |alternatives| > 0 && cellLabel != recBackgroundLabel
                         then alternatives + {recBackgroundLabel} else alternatives
      ensures gained - {cellLabel} == gained
      ensures forall k :: k in gained <==> Gains(recLabels, cellLabel, content, k)
    {
      NearAlternatives(boundaryMap, recLabels, neighborhood, maxDistanceThresholdX, maxDistanceThresholdY,
                       maxDistanceThresholdZ, resolutionX, resolutionY, resolutionZ, maxDistanceThreshold,
                       cellLabel, content);
      if |alternatives| > 0 {
        var a :| a in alternatives;
      }
    }

    /** Lines of findPossibleCellLabels for one candidate cell: its
        alternatives, and the background when it may appear, become
        possible labels of the cell. */
    method RelabelCell(cell: Cell, neighborhood: seq<Location>, recLabels: ImageStack)
      requires Fits(boundaryMap, recLabels)
      requires forall o :: o in neighborhood <==> InThresholdNeighborhood(o)
      modifies cell
      ensures forall k :: k in cell.alternativeLabels <==>
        k in old(cell.alternativeLabels) || Gains(recLabels, cell.recLabel, cell.content, k)
      ensures cell.recLabel == old(cell.recLabel) && cell.groundTruthLabel == old(cell.groundTruthLabel)
      ensures cell.content == old(cell.content) && cell.boundary == old(cell.boundary)
    {
      var alternativeLabels := AlternativeLabels(boundaryMap, recLabels, neighborhood, cell.recLabel, cell.content);
      ghost var alternatives := alternativeLabels;
      if allowBackgroundAppearance {
        if |alternativeLabels| > 0 && cell.recLabel != recBackgroundLabel {
          alternativeLabels := alternativeLabels + {recBackgroundLabel};
        }
      }
      GainedLabels(recLabels, neighborhood, cell.recLabel, cell.content, alternatives, alternativeLabels);
      AddLabels(cell, alternativeLabels);
    }

    /** The loop of findPossibleCellLabels over the relabel candidates. */
    method RelabelCandidates(cells: seq<Cell>, relabelCandidates: seq<nat>, neighborhood: seq<Location>,
                             recLabels: ImageStack)
      requires DistinctCells(cells) && StrictlyIncreasing(relabelCandidates)
      requires forall j | 0 <= j < |relabelCandidates| :: relabelCandidates[j] < |cells|
      requires Fits(boundaryMap, recLabels)
      requires forall o :: o in neighborhood <==> InThresholdNeighborhood(o)
      modifies cells
      ensures forall c | 0 <= c < |cells| ::
        cells[c].recLabel == old(cells[c].recLabel) && cells[c].groundTruthLabel == old(cells[c].groundTruthLabel) &&
        cells[c].content == old(cells[c].content) && cells[c].boundary == old(cells[c].boundary)
      ensures forall c, k | 0 <= c < |cells| :: k in cells[c].alternativeLabels <==>
        k in old(cells[c].alternativeLabels) ||
        (c in relabelCandidates && Gains(recLabels, cells[c].recLabel, cells[c].content, k))
    {
      for j := 0 to |relabelCandidates|
        invariant forall c | 0 <= c < |cells| ::
          cells[c].recLabel == old(cells[c].recLabel) && cells[c].groundTruthLabel == old(cells[c].groundTruthLabel) &&
          cells[c].content == old(cells[c].content) && cells[c].boundary == old(cells[c].boundary)
        invariant forall c, k | 0 <= c < |cells| :: k in cells[c].alternativeLabels <==>
          k in old(cells[c].alternativeLabels) ||
          (c in relabelCandidates[..j] && Gains(recLabels, cells[c].recLabel, cells[c].content, k))
      {
        var index := relabelCandidates[j];
        assert index !in relabelCandidates[..j];
        assert relabelCandidates[..j + 1] == relabelCandidates[..j] + [index];
        RelabelCell(cells[index], neighborhood, recLabels);
      }
      assert relabelCandidates[..|relabelCandidates|] == relabelCandidates;
    }

    /** The part of findPossibleCellLabels after the boundary map is
        built: finds the relabel candidates and, if there are any, the
        labels each of them gains. */
    method AddPossibleLabels(cells: seq<Cell>, recLabels: ImageStack, boundaryDistance2: Location -> real)
      requires DistinctCells(cells) && Fits(boundaryMap, recLabels)
      modifies cells
      ensures forall c | 0 <= c < |cells| ::
        cells[c].recLabel == old(cells[c].recLabel) && cells[c].groundTruthLabel == old(cells[c].groundTruthLabel) &&
        cells[c].content == old(cells[c].content) && cells[c].boundary == old(cells[c].boundary)
      ensures forall c, k | 0 <= c < |cells| :: k in cells[c].alternativeLabels <==>
        k in old(cells[c].alternativeLabels) ||
        (IsRelabelCandidate(cells, c, boundaryDistance2, maxDistanceThreshold) &&
         Gains(recLabels, cells[c].recLabel, cells[c].content, k))
    {
      var relabelCandidates := FindRelabelCandidates(cells, boundaryDistance2, maxDistanceThreshold);
      if |relabelCandidates| == 0 {
        return;
      }
      var neighborhood := CreateNeighborhood(maxDistanceThresholdX, maxDistanceThresholdY, maxDistanceThresholdZ,
                                             resolutionX, resolutionY, resolutionZ, maxDistanceThreshold);
      assert forall j | 0 <= j < |relabelCandidates| :: relabelCandidates[j] in relabelCandidates;
      RelabelCandidates(cells, relabelCandidates, neighborhood, recLabels);
    }

    /** The state findPossibleCellLabels derives from the volume: its
        extents and resolution, the boundary map and the thresholds in
        voxels, each capped by the extent along its axis. */
    method SetVolume(recLabels: ImageStack, gtLabels: ImageStack, roundedX: nat, roundedY: nat, roundedZ: nat)
      requires recLabels.Valid() && recLabels.width == gtLabels.width && recLabels.height == gtLabels.height &&
               recLabels.Size() == gtLabels.Size()
      modifies this
      ensures width == gtLabels.width && height == gtLabels.height && depth == gtLabels.Size()
      ensures resolutionX == gtLabels.resolutionX && resolutionY == gtLabels.resolutionY &&
              resolutionZ == gtLabels.resolutionZ
      ensures fresh(boundaryMap) && IsBoundaryMap(boundaryMap, recLabels)
      ensures maxDistanceThresholdX == if roundedX < width then roundedX else width
      ensures maxDistanceThresholdY == if roundedY < height then roundedY else height
      ensures maxDistanceThresholdZ == if roundedZ < depth then roundedZ else depth
    {
      depth, width, height := gtLabels.Size(), gtLabels.width, gtLabels.height;
      resolutionX, resolutionY, resolutionZ := gtLabels.resolutionX, gtLabels.resolutionY, gtLabels.resolutionZ;
      boundaryMap := CreateBoundaryMap(recLabels);
      maxDistanceThresholdX := if roundedX < width then roundedX else width;
      maxDistanceThresholdY := if roundedY < height then roundedY else height;
      maxDistanceThresholdZ := if roundedZ < depth then roundedZ else depth;
    }

    /** findPossibleCellLabels: every cell keeps its label; each relabel
        candidate may in addition take the labels it gains from boundaries
        within the distance threshold. The rounded thresholds
        distanceThreshold / resolution along each axis are given. */
    method FindPossibleCellLabels(cells: seq<Cell>, recLabels: ImageStack, gtLabels: ImageStack,
                                  boundaryDistance2: Location -> real, roundedX: nat, roundedY: nat, roundedZ: nat)
      requires DistinctCells(cells)
      requires recLabels.Valid() && recLabels.width == gtLabels.width && recLabels.height == gtLabels.height &&
               recLabels.Size() == gtLabels.Size()
      modifies this, cells
      ensures width == gtLabels.width && height == gtLabels.height && depth == gtLabels.Size()
      ensures resolutionX == gtLabels.resolutionX && resolutionY == gtLabels.resolutionY &&
              resolutionZ == gtLabels.resolutionZ
      ensures fresh(boundaryMap) && IsBoundaryMap(boundaryMap, recLabels)
      ensures maxDistanceThresholdX == if roundedX < width then roundedX else width
      ensures maxDistanceThresholdY == if roundedY < height then roundedY else height
      ensures maxDistanceThresholdZ == if roundedZ < depth then roundedZ else depth
      ensures forall c | 0 <= c < |cells| ::
        cells[c].recLabel == old(cells[c].recLabel) && cells[c].groundTruthLabel == old(cells[c].groundTruthLabel) &&
        cells[c].content == old(cells[c].content) && cells[c].boundary == old(cells[c].boundary)
      ensures forall c, k | 0 <= c < |cells| :: k in cells[c].alternativeLabels <==>
        k in old(cells[c].alternativeLabels) ||
        (IsRelabelCandidate(cells, c, boundaryDistance2, maxDistanceThreshold) &&
         Gains(recLabels, cells[c].recLabel, cells[c].content, k))
    {
      InitializeCellLabels(cells);
      // findRelabelCandidates reads none of the thresholds set here
      SetVolume(recLabels, gtLabels, roundedX, roundedY, roundedZ);
      AddPossibleLabels(cells, recLabels, boundaryDistance2);
    }
  }
}
