/** The isolation filter of the platelet count: one distance threshold per
    image (the mean equivalent diameter), a nearest-other-centroid test, an
    area and a solidity bound, the all-or-nothing write of each accepted
    region into a fresh mask, and the count of the relabelled mask. Region
    features (`regionprops`) are inputs. */
module IsolationFilter {
  import opened Connectivity
  import Stats

  /** One labelled region as `regionprops` describes it. */
  datatype Region = Region(
    coords: seq<Pixel>,
    area: int,
    centroid: (real, real),
    diameter: real,
    solidity: real)

  const MaxArea: int := 150
  const MinSolidity: real := 0.9

  function CoordSet(r: Region): set<Pixel>
  {
    set p | p in r.coords
  }

  /** The pixel sets of all regions, in label order. */
  function CoordSets(regions: seq<Region>): (parts: seq<set<Pixel>>)
    ensures |parts| == |regions|
    ensures forall i :: 0 <= i < |regions| ==> parts[i] == CoordSet(regions[i])
  {
    seq(|regions|, i requires 0 <= i < |regions| => CoordSet(regions[i]))
  }

  function Diameters(regions: seq<Region>): (ds: seq<real>)
    ensures |ds| == |regions|
    ensures forall i :: 0 <= i < |regions| ==> ds[i] == regions[i].diameter
  {
    seq(|regions|, i requires 0 <= i < |regions| => regions[i].diameter)
  }

  /** The single threshold of an image: the mean equivalent diameter. It is
      the common diameter when all are equal, and never negative while the
      diameters are not. */
  function DistanceThreshold(regions: seq<Region>): (t: real)
    requires |regions| > 0
    ensures (forall i :: 0 <= i < |regions| ==> regions[i].diameter == regions[0].diameter)
      ==> t == regions[0].diameter
    ensures (forall i :: 0 <= i < |regions| ==> regions[i].diameter >= 0.0) ==> t >= 0.0
  {
    var ds := Diameters(regions);
    var d0 := regions[0].diameter;
    if forall i :: 0 <= i < |regions| ==> regions[i].diameter == d0 then
      Stats.MeanBounds(ds, d0, d0);
      Stats.Mean(ds)
    else if forall i :: 0 <= i < |regions| ==> regions[i].diameter >= 0.0 then
      Stats.MeanAtLeast(ds, 0.0);
      Stats.Mean(ds)
    else
      Stats.Mean(ds)
  }

  /** The threshold lies between the smallest and the largest diameter. */
  lemma ThresholdBetweenDiameters(regions: seq<Region>, lo: real, hi: real)
    requires |regions| > 0
    requires forall i :: 0 <= i < |regions| ==> lo <= regions[i].diameter <= hi
    ensures lo <= DistanceThreshold(regions) <= hi
  {
    Stats.MeanBounds(Diameters(regions), lo, hi);
  }

  function SqDist(a: (real, real), b: (real, real)): real
  {
    (a.0 - b.0) * (a.0 - b.0) + (a.1 - b.1) * (a.1 - b.1)
  }

  lemma SqDistSymmetric(a: (real, real), b: (real, real))
    ensures SqDist(a, b) == SqDist(b, a)
  {
    assert (a.0 - b.0) * (a.0 - b.0) == (b.0 - a.0) * (b.0 - a.0);
    assert (a.1 - b.1) * (a.1 - b.1) == (b.1 - a.1) * (b.1 - a.1);
  }

  /** `sqrt(d2) > thr` for a squared distance `d2`, without the root. */
  predicate Farther(d2: real, thr: real)
  {
    thr < 0.0 || d2 > thr * thr
  }

  /** The nearest other centroid is farther than `thr`; with the diagonal
      of the distance matrix at infinity a region never meets itself. */
  predicate FarFromOthers(regions: seq<Region>, i: nat, thr: real)
    requires i < |regions|
  {
    forall j :: 0 <= j < |regions| && j != i ==>
      Farther(SqDist(regions[i].centroid, regions[j].centroid), thr)
  }

  predicate ShapeOk(r: Region)
  {
    r.area <= MaxArea && r.solidity > MinSolidity
  }

  /** The rule that keeps or drops one region. */
  predicate Accepted(regions: seq<Region>, i: nat)
    requires i < |regions|
  {
    FarFromOthers(regions, i, DistanceThreshold(regions)) && ShapeOk(regions[i])
  }

  /** A region alone in its image always passes the distance test. */
  lemma LoneRegion(r: Region)
    ensures Accepted([r], 0) <==> r.area <= MaxArea && r.solidity > MinSolidity
  {
  }

  /** Too large or not solid enough: rejected whatever the distances. */
  lemma ShapeRejects(regions: seq<Region>, i: nat)
    requires i < |regions|
    requires regions[i].area > MaxArea || regions[i].solidity <= MinSolidity
    ensures !Accepted(regions, i)
  {
  }

  /** Two centroids within the threshold of each other reject both regions. */
  lemma ClosePairRejected(regions: seq<Region>, i: nat, j: nat)
    requires i < |regions| && j < |regions| && i != j
    requires !Farther(SqDist(regions[i].centroid, regions[j].centroid), DistanceThreshold(regions))
    ensures !Accepted(regions, i) && !Accepted(regions, j)
  {
    SqDistSymmetric(regions[i].centroid, regions[j].centroid);
    assert !Farther(SqDist(regions[j].centroid, regions[i].centroid), DistanceThreshold(regions));
  }

  /** The pixels of the accepted regions among the first `n`. */
  function IsolatedUpTo(regions: seq<Region>, n: nat): set<Pixel>
    requires n <= |regions|
  {
    if n == 0 then {}
    else IsolatedUpTo(regions, n - 1) + (if Accepted(regions, n - 1) then CoordSet(regions[n - 1]) else {})
  }

  /** The specification of `isolated_mask`. */
  function IsolatedPixels(regions: seq<Region>): set<Pixel>
  {
    IsolatedUpTo(regions, |regions|)
  }

  /** A pixel is in the isolated mask exactly when it belongs to an
      accepted region. */
  lemma IsolatedExactly(regions: seq<Region>, p: Pixel)
    ensures p in IsolatedPixels(regions) <==>
      exists i :: 0 <= i < |regions| && Accepted(regions, i) && p in CoordSet(regions[i])
  {
    if p in IsolatedPixels(regions) {
      InIsolatedFrom(regions, |regions|, p);
    }
    if i :| 0 <= i < |regions| && Accepted(regions, i) && p in CoordSet(regions[i]) {
      InIsolatedUpTo(regions, i, |regions|);
    }
  }

  lemma {:induction false} InIsolatedFrom(regions: seq<Region>, n: nat, p: Pixel)
    requires n <= |regions|
    requires p in IsolatedUpTo(regions, n)
    ensures exists i :: 0 <= i < n && Accepted(regions, i) && p in CoordSet(regions[i])
  {
    if p !in IsolatedUpTo(regions, n - 1) {
      assert Accepted(regions, n - 1) && p in CoordSet(regions[n - 1]);
    } else {
      InIsolatedFrom(regions, n - 1, p);
    }
  }

  predicate InImage(p: Pixel, rows: nat, cols: nat)
  {
    0 <= p.0 < rows && 0 <= p.1 < cols
  }

  /** Lines 71-79: a mask of zeros, then every pixel of every accepted
      region set to true. */
  method BuildIsolatedMask(regions: seq<Region>, rows: nat, cols: nat) returns (mask: array2<bool>)
    requires |regions| > 0
    requires forall i, k :: 0 <= i < |regions| && 0 <= k < |regions[i].coords| ==>
               InImage(regions[i].coords[k], rows, cols)
    ensures mask.Length0 == rows && mask.Length1 == cols
    ensures forall a, b :: 0 <= a < rows && 0 <= b < cols ==>
              (mask[a, b] <==> (a, b) in IsolatedPixels(regions))
  {
    mask := new bool[rows, cols]((_, _) => false);
    var i := 0;
    while i < |regions|
      invariant 0 <= i <= |regions|
      invariant forall a, b :: 0 <= a < rows && 0 <= b < cols ==>
                  (mask[a, b] <==> (a, b) in IsolatedUpTo(regions, i))
    {
      if Accepted(regions, i) {
        var coords := regions[i].coords;
        var k := 0;
        while k < |coords|
          invariant 0 <= k <= |coords|
          invariant forall a, b :: 0 <= a < rows && 0 <= b < cols ==>
                      (mask[a, b] <==> (a, b) in IsolatedUpTo(regions, i) || (a, b) in coords[..k])
        {
          assert InImage(coords[k], rows, cols);
          mask[coords[k].0, coords[k].1] := true;
          assert coords[..k + 1] == coords[..k] + [coords[k]];
          k := k + 1;
        }
        assert coords[..k] == coords;
      }
      i := i + 1;
    }
  }

  /** The pixel sets of the accepted regions among the first `n`, in label order. */
  function AcceptedParts(regions: seq<Region>, n: nat): seq<set<Pixel>>
    requires n <= |regions|
  {
    if n == 0 then []
    else AcceptedParts(regions, n - 1) + (if Accepted(regions, n - 1) then [CoordSet(regions[n - 1])] else [])
  }

  /** Each accepted part is the pixel set of an accepted region before `n`. */
  lemma {:induction false} AcceptedPartsFrom(regions: seq<Region>, n: nat, a: nat)
    requires n <= |regions|
    requires a < |AcceptedParts(regions, n)|
    ensures exists i :: 0 <= i < n && Accepted(regions, i) && AcceptedParts(regions, n)[a] == CoordSet(regions[i])
  {
    var prev := AcceptedParts(regions, n - 1);
    if a < |prev| {
      AcceptedPartsFrom(regions, n - 1, a);
      assert AcceptedParts(regions, n)[a] == prev[a];
    } else {
      assert Accepted(regions, n - 1) && AcceptedParts(regions, n)[a] == CoordSet(regions[n - 1]);
    }
  }

  /** The accepted parts, like all parts, are connected and do not touch. */
  lemma {:induction false} AcceptedPartsSeparated(regions: seq<Region>, fg: set<Pixel>, n: nat)
    requires n <= |regions|
    requires IsLabelling(fg, CoordSets(regions))
    ensures ConnectedParts(AcceptedParts(regions, n)) && PairwiseSeparated(AcceptedParts(regions, n))
  {
    var parts := CoordSets(regions);
    if n > 0 {
      AcceptedPartsSeparated(regions, fg, n - 1);
      var prev := AcceptedParts(regions, n - 1);
      var cur := AcceptedParts(regions, n);
      forall a | 0 <= a < |cur|
        ensures cur[a] != {} && Connected(cur[a])
      {
        AcceptedPartsFrom(regions, n, a);
        var i :| 0 <= i < n && Accepted(regions, i) && cur[a] == CoordSet(regions[i]);
        assert cur[a] == parts[i];
      }
      forall a, b | 0 <= a < b < |cur|
        ensures Separated(cur[a], cur[b])
      {
        if b < |prev| {
          assert cur[a] == prev[a] && cur[b] == prev[b];
        } else {
          AcceptedPartsFrom(regions, n - 1, a);
          var i :| 0 <= i < n - 1 && Accepted(regions, i) && prev[a] == CoordSet(regions[i]);
          assert cur[a] == parts[i] && cur[b] == parts[n - 1];
        }
      }
    }
  }

  lemma {:induction false} IsolatedIsUnion(regions: seq<Region>, n: nat)
    requires n <= |regions|
    ensures IsolatedUpTo(regions, n) == Union(AcceptedParts(regions, n))
  {
    if n > 0 {
      IsolatedIsUnion(regions, n - 1);
      var prev := AcceptedParts(regions, n - 1);
      if Accepted(regions, n - 1) {
        var cur := prev + [CoordSet(regions[n - 1])];
        assert cur[..|cur| - 1] == prev;
      } else {
        assert AcceptedParts(regions, n) == prev;
      }
    }
  }

  /** Lines 81-82: when the regions are the 8-connected components of the
      filtered mask, relabelling the isolated mask finds exactly one label
      per accepted region. */
  lemma RelabelCount(regions: seq<Region>, fg: set<Pixel>, labels: seq<set<Pixel>>)
    requires |regions| > 0
    requires IsLabelling(fg, CoordSets(regions))
    requires IsLabelling(IsolatedPixels(regions), labels)
    ensures |labels| == |AcceptedParts(regions, |regions|)|
  {
    var accepted := AcceptedParts(regions, |regions|);
    AcceptedPartsSeparated(regions, fg, |regions|);
    IsolatedIsUnion(regions, |regions|);
    UnionLabelling(accepted);
    LabelCountUnique(IsolatedPixels(regions), labels, accepted);
  }

  /** Each region is in the isolated mask entirely or not at all. */
  lemma AllOrNothing(regions: seq<Region>, fg: set<Pixel>, i: nat)
    requires IsLabelling(fg, CoordSets(regions))
    requires i < |regions|
    ensures Accepted(regions, i) ==> CoordSet(regions[i]) <= IsolatedPixels(regions)
    ensures !Accepted(regions, i) ==> CoordSet(regions[i]) !! IsolatedPixels(regions)
  {
    if Accepted(regions, i) {
      InIsolatedUpTo(regions, i, |regions|);
    } else {
      RejectedOutside(regions, fg, i);
    }
  }

  lemma RejectedOutside(regions: seq<Region>, fg: set<Pixel>, i: nat)
    requires IsLabelling(fg, CoordSets(regions))
    requires i < |regions| && !Accepted(regions, i)
    ensures CoordSet(regions[i]) !! IsolatedPixels(regions)
  {
    var parts := CoordSets(regions);
    var accepted := AcceptedParts(regions, |regions|);
    IsolatedIsUnion(regions, |regions|);
    forall a | 0 <= a < |accepted|
      ensures accepted[a] !! parts[i]
    {
      AcceptedPartsFrom(regions, |regions|, a);
      var j :| 0 <= j < |regions| && Accepted(regions, j) && accepted[a] == CoordSet(regions[j]);
      PartsDisjoint(fg, parts, i, j);
    }
    UnionCovers(accepted);
  }

  /** Distinct parts of a labelling share no pixel. */
  lemma PartsDisjoint(s: set<Pixel>, parts: seq<set<Pixel>>, i: nat, j: nat)
    requires IsLabelling(s, parts)
    requires i < |parts| && j < |parts| && i != j
    ensures parts[i] !! parts[j]
  {
    if i < j {
      assert Separated(parts[i], parts[j]);
    } else {
      assert Separated(parts[j], parts[i]);
    }
  }

  lemma {:induction false} InIsolatedUpTo(regions: seq<Region>, i: nat, n: nat)
    requires i < n <= |regions|
    requires Accepted(regions, i)
    ensures CoordSet(regions[i]) <= IsolatedUpTo(regions, n)
  {
    if i < n - 1 {
      InIsolatedUpTo(regions, i, n - 1);
    }
  }
}
