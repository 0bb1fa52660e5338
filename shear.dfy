/** Conversion between the stirrer's rotation speed (RPM) and the mean
    shear rate (1/s): a piecewise-linear map through calibration points,
    one segment per consecutive pair, extrapolated by the outer segments. */
module ShearConversion {

  const RpmMin: int := 1000
  const RpmMax: int := 7500
  const ShearMin: int := 500
  const ShearMax: int := 3800

  /** A calibration point `(rpm, shear)`. */
  datatype Point = Point(rpm: real, shear: real)

  /** `(rpm_min, rpm_max, a, b)`: the line `shear = a * rpm + b` between two
      calibration points. */
  datatype Segment = Segment(rpmMin: real, rpmMax: real, slope: real, intercept: real)

  const SimulationPoints: seq<Point> :=
    [Point(1000.0, 451.5), Point(3000.0, 1464.5), Point(7500.0, 3869.5)]

  function Eval(s: Segment, rpm: real): real
  {
    s.slope * rpm + s.intercept
  }

  /** The shear rate at the upper end of a segment (`gamma_max`). */
  function TopShear(s: Segment): real
  {
    Eval(s, s.rpmMax)
  }

  /** `linear_coeff`: slope and intercept of the line through two points. */
  function LinearCoeff(p1: Point, p2: Point): (ab: (real, real))
    requires p1.rpm != p2.rpm
    ensures ab.0 * p1.rpm + ab.1 == p1.shear
    ensures ab.0 * p2.rpm + ab.1 == p2.shear
  {
    var a := (p2.shear - p1.shear) / (p2.rpm - p1.rpm);
    Interpolates(p1.rpm, p1.shear, p2.rpm, p2.shear, a);
    (a, p1.shear - a * p1.rpm)
  }

  lemma Interpolates(x1: real, y1: real, x2: real, y2: real, a: real)
    requires x1 != x2
    requires a == (y2 - y1) / (x2 - x1)
    ensures a * x2 + (y1 - a * x1) == y2
  {
    assert a * (x2 - x1) == y2 - y1;
  }

  function SegmentBetween(p: Point, q: Point): (s: Segment)
    requires p.rpm != q.rpm
    ensures s.rpmMin == p.rpm && s.rpmMax == q.rpm
    ensures Eval(s, p.rpm) == p.shear && Eval(s, q.rpm) == q.shear
  {
    var ab := LinearCoeff(p, q);
    Segment(p.rpm, q.rpm, ab.0, ab.1)
  }

  /** `linear_coeff` divides by the rpm difference of consecutive points. */
  predicate DistinctSteps(points: seq<Point>)
  {
    forall i :: 0 < i < |points| ==> points[i - 1].rpm != points[i].rpm
  }

  /** The segment table: one segment per consecutive pair, spanning it. */
  function Segments(points: seq<Point>): (segs: seq<Segment>)
    requires DistinctSteps(points)
    ensures |segs| == if |points| == 0 then 0 else |points| - 1
    ensures forall i :: 0 <= i < |segs| ==> segs[i] == SegmentBetween(points[i], points[i + 1])
  {
    if |points| < 2 then []
    else seq(|points| - 1, i requires 0 <= i < |points| - 1 => SegmentBetween(points[i], points[i + 1]))
  }

  /** Lines 54-58: the table built by appending one segment per pair. */
  method BuildSegments(points: seq<Point>) returns (segs: seq<Segment>)
    requires DistinctSteps(points)
    ensures segs == Segments(points)
  {
    segs := [];
    var i := 0;
    while i < |points| - 1
      invariant 0 <= i <= (if |points| == 0 then 0 else |points| - 1)
      invariant |segs| == i
      invariant forall k :: 0 <= k < i ==> segs[k] == SegmentBetween(points[k], points[k + 1])
    {
      var ab := LinearCoeff(points[i], points[i + 1]);
      segs := segs + [Segment(points[i].rpm, points[i + 1].rpm, ab.0, ab.1)];
      i := i + 1;
    }
  }

  /** The segment `rpm_to_shear` settles on, searching from `k`: the first
      whose upper bound is at least `rpm`, otherwise the last. */
  function RpmSegmentFrom(segs: seq<Segment>, rpm: real, k: nat): (j: nat)
    requires k < |segs|
    ensures k <= j < |segs|
    ensures j == |segs| - 1 || rpm <= segs[j].rpmMax
    ensures forall m :: k <= m < j ==> rpm > segs[m].rpmMax
    decreases |segs| - k
  {
    if rpm <= segs[k].rpmMax || k == |segs| - 1 then k else RpmSegmentFrom(segs, rpm, k + 1)
  }

  /** The segment `shear_to_rpm` settles on, searching from `k`: the first
      whose upper shear rate is at least `g`, otherwise the last. */
  function ShearSegmentFrom(segs: seq<Segment>, g: real, k: nat): (j: nat)
    requires k < |segs|
    ensures k <= j < |segs|
    ensures j == |segs| - 1 || g <= TopShear(segs[j])
    ensures forall m :: k <= m < j ==> g > TopShear(segs[m])
    decreases |segs| - k
  {
    if g <= TopShear(segs[k]) || k == |segs| - 1 then k else ShearSegmentFrom(segs, g, k + 1)
  }

  /** `rpm_to_shear`: the line of the first segment whose upper speed
      covers `rpm`, or of the last segment past the table. */
  function RpmToShear(segs: seq<Segment>, rpm: real): (g: real)
    requires |segs| > 0
    ensures exists k ::
      && 0 <= k < |segs| && g == Eval(segs[k], rpm)
      && (k == |segs| - 1 || rpm <= segs[k].rpmMax)
      && (forall m :: 0 <= m < k ==> rpm > segs[m].rpmMax)
  {
    var k := RpmSegmentFrom(segs, rpm, 0);
    Eval(segs[k], rpm)
  }

  predicate NonZeroSlopes(segs: seq<Segment>)
  {
    forall k :: 0 <= k < |segs| ==> segs[k].slope != 0.0
  }

  /** `shear_to_rpm`: the speed at which the first segment whose top shear
      rate covers `g`, or the last segment past the table, reaches `g`. */
  function ShearToRpm(segs: seq<Segment>, g: real): (r: real)
    requires |segs| > 0 && NonZeroSlopes(segs)
    ensures exists k ::
      && 0 <= k < |segs| && Eval(segs[k], r) == g
      && (k == |segs| - 1 || g <= TopShear(segs[k]))
      && (forall m :: 0 <= m < k ==> g > TopShear(segs[m]))
  {
    var k := ShearSegmentFrom(segs, g, 0);
    var s := segs[k];
    EvalInverse(s, (g - s.intercept) / s.slope, g);
    (g - s.intercept) / s.slope
  }

  /** Rising segments that join end to end without a jump. */
  predicate WellFormed(segs: seq<Segment>)
  {
    && |segs| > 0
    && (forall k :: 0 <= k < |segs| ==> segs[k].slope > 0.0 && segs[k].rpmMin < segs[k].rpmMax)
    && (forall k :: 0 < k < |segs| ==>
          segs[k - 1].rpmMax == segs[k].rpmMin && TopShear(segs[k - 1]) == Eval(segs[k], segs[k].rpmMin))
  }

  /** Calibration points rising in both speed and shear rate. */
  predicate Rising(points: seq<Point>)
  {
    forall i :: 0 < i < |points| ==> points[i - 1].rpm < points[i].rpm && points[i - 1].shear < points[i].shear
  }

  lemma EvalIncreasing(s: Segment, x: real, y: real)
    requires s.slope > 0.0
    ensures x < y <==> Eval(s, x) < Eval(s, y)
    ensures x <= y <==> Eval(s, x) <= Eval(s, y)
  {
    if x < y {
      assert s.slope * (y - x) > 0.0;
    } else if y < x {
      assert s.slope * (x - y) > 0.0;
    }
  }

  lemma EvalInverse(s: Segment, x: real, g: real)
    requires s.slope != 0.0
    ensures Eval(s, x) == g <==> x == (g - s.intercept) / s.slope
  {
    if x == (g - s.intercept) / s.slope {
      assert s.slope * x == g - s.intercept;
    }
  }

  /** A rising table of calibration points gives a well-formed segment table. */
  lemma RisingSegments(points: seq<Point>)
    requires |points| >= 2 && Rising(points)
    ensures DistinctSteps(points) && WellFormed(Segments(points))
  {
    assert DistinctSteps(points);
    var segs := Segments(points);
    forall k | 0 <= k < |segs|
      ensures segs[k].slope > 0.0 && segs[k].rpmMin < segs[k].rpmMax
    {
      assert segs[k] == SegmentBetween(points[k], points[k + 1]);
      SegmentRises(points[k], points[k + 1]);
    }
    forall k | 0 < k < |segs|
      ensures segs[k - 1].rpmMax == segs[k].rpmMin && TopShear(segs[k - 1]) == Eval(segs[k], segs[k].rpmMin)
    {
      assert segs[k - 1] == SegmentBetween(points[k - 1], points[k]);
      assert segs[k] == SegmentBetween(points[k], points[k + 1]);
    }
  }

  lemma SegmentRises(p: Point, q: Point)
    requires p.rpm < q.rpm && p.shear < q.shear
    ensures SegmentBetween(p, q).slope > 0.0
  {
    var s := SegmentBetween(p, q);
    assert s.slope * (q.rpm - p.rpm) == q.shear - p.shear;
  }

  /** Later segments start where earlier ones end, and higher. */
  lemma {:induction false} Chain(segs: seq<Segment>, j: nat, k: nat)
    requires WellFormed(segs)
    requires j < k < |segs|
    ensures segs[j].rpmMax <= segs[k].rpmMin
    ensures TopShear(segs[j]) <= Eval(segs[k], segs[k].rpmMin)
  {
    if j < k - 1 {
      Chain(segs, j, k - 1);
      EvalIncreasing(segs[k - 1], segs[k - 1].rpmMin, segs[k - 1].rpmMax);
    }
  }

  /** The search of `rpm_to_shear` is determined by its two stopping facts. */
  lemma RpmSegmentUnique(segs: seq<Segment>, rpm: real, j: nat)
    requires j < |segs|
    requires j == |segs| - 1 || rpm <= segs[j].rpmMax
    requires forall m :: 0 <= m < j ==> rpm > segs[m].rpmMax
    ensures RpmSegmentFrom(segs, rpm, 0) == j
  {
  }

  lemma ShearSegmentUnique(segs: seq<Segment>, g: real, j: nat)
    requires j < |segs|
    requires j == |segs| - 1 || g <= TopShear(segs[j])
    requires forall m :: 0 <= m < j ==> g > TopShear(segs[m])
    ensures ShearSegmentFrom(segs, g, 0) == j
  {
  }

  /** Inside segment `k` of a well-formed table, speed and shear rate pick
      the same segment. */
  lemma SameSegment(segs: seq<Segment>, k: nat, rpm: real)
    requires WellFormed(segs) && k < |segs|
    requires k == 0 || rpm > segs[k].rpmMin
    requires k == |segs| - 1 || rpm <= segs[k].rpmMax
    ensures RpmSegmentFrom(segs, rpm, 0) == k
    ensures ShearSegmentFrom(segs, Eval(segs[k], rpm), 0) == k
  {
    var g := Eval(segs[k], rpm);
    forall m | 0 <= m < k
      ensures rpm > segs[m].rpmMax && g > TopShear(segs[m])
    {
      Chain(segs, m, k);
      EvalIncreasing(segs[k], segs[k].rpmMin, rpm);
    }
    if k < |segs| - 1 {
      EvalIncreasing(segs[k], rpm, segs[k].rpmMax);
    }
    RpmSegmentUnique(segs, rpm, k);
    ShearSegmentUnique(segs, g, k);
  }

  /** The segment found for a speed contains it. */
  lemma RpmSegmentBounds(segs: seq<Segment>, rpm: real)
    requires WellFormed(segs)
    ensures var k := RpmSegmentFrom(segs, rpm, 0);
      (k == 0 || rpm > segs[k].rpmMin) && (k == |segs| - 1 || rpm <= segs[k].rpmMax)
  {
    var k := RpmSegmentFrom(segs, rpm, 0);
    if k > 0 {
      assert rpm > segs[k - 1].rpmMax;
    }
  }

  /** `shear_to_rpm(rpm_to_shear(r)) == r` for every speed. */
  lemma ShearOfRpmInverts(segs: seq<Segment>, rpm: real)
    requires WellFormed(segs)
    ensures NonZeroSlopes(segs) && ShearToRpm(segs, RpmToShear(segs, rpm)) == rpm
  {
    var k := RpmSegmentFrom(segs, rpm, 0);
    RpmSegmentBounds(segs, rpm);
    SameSegment(segs, k, rpm);
    EvalInverse(segs[k], rpm, RpmToShear(segs, rpm));
  }

  /** `rpm_to_shear(shear_to_rpm(g)) == g` for every shear rate. */
  lemma RpmOfShearInverts(segs: seq<Segment>, g: real)
    requires WellFormed(segs)
    ensures NonZeroSlopes(segs) && RpmToShear(segs, ShearToRpm(segs, g)) == g
  {
    var k := ShearSegmentFrom(segs, g, 0);
    var s := segs[k];
    var rpm := ShearToRpm(segs, g);
    EvalInverse(s, rpm, g);
    if k > 0 {
      assert g > TopShear(segs[k - 1]);
      EvalIncreasing(s, s.rpmMin, rpm);
    }
    if k < |segs| - 1 {
      EvalIncreasing(s, rpm, s.rpmMax);
    }
    SameSegment(segs, k, rpm);
  }

  /** `rpm_to_shear` is strictly increasing. */
  lemma RpmToShearIncreasing(segs: seq<Segment>, r1: real, r2: real)
    requires WellFormed(segs)
    requires r1 < r2
    ensures RpmToShear(segs, r1) < RpmToShear(segs, r2)
  {
    var k1, k2 := RpmSegmentFrom(segs, r1, 0), RpmSegmentFrom(segs, r2, 0);
    RpmSegmentBounds(segs, r1);
    RpmSegmentBounds(segs, r2);
    if k1 == k2 {
      EvalIncreasing(segs[k1], r1, r2);
    } else if k1 < k2 {
      EvalIncreasing(segs[k1], r1, segs[k1].rpmMax);
      Chain(segs, k1, k2);
      EvalIncreasing(segs[k2], segs[k2].rpmMin, r2);
    } else {
      assert false;
    }
  }

  /** Above the last calibration speed the last segment extrapolates; at or
      below the first segment's upper end the first segment applies. */
  lemma Extrapolation(segs: seq<Segment>, rpm: real)
    requires WellFormed(segs)
    ensures rpm > segs[|segs| - 1].rpmMax ==> RpmToShear(segs, rpm) == Eval(segs[|segs| - 1], rpm)
    ensures rpm <= segs[0].rpmMax ==> RpmToShear(segs, rpm) == Eval(segs[0], rpm)
  {
    var last := |segs| - 1;
    if rpm > segs[last].rpmMax {
      forall m | 0 <= m < last
        ensures rpm > segs[m].rpmMax
      {
        Chain(segs, m, last);
      }
      RpmSegmentUnique(segs, rpm, last);
    }
  }

  /** Every calibration point is hit exactly. */
  lemma {:induction false} HitsCalibrationPoints(points: seq<Point>, i: nat)
    requires |points| >= 2 && Rising(points)
    requires i < |points|
    ensures DistinctSteps(points) && RpmToShear(Segments(points), points[i].rpm) == points[i].shear
  {
    RisingSegments(points);
    var segs := Segments(points);
    var k := RpmSegmentFrom(segs, points[i].rpm, 0);
    RisingIndex(points, i, k + 1);
    if k > 0 {
      RisingIndex(points, k, i);
    }
  }

  /** Speeds rise with the index of the calibration point. */
  lemma {:induction false} RisingIndex(points: seq<Point>, i: nat, j: nat)
    requires Rising(points) && i < |points| && j < |points|
    ensures points[i].rpm <= points[j].rpm ==> i <= j
    ensures points[i].rpm < points[j].rpm ==> i < j
  {
    if j < i {
      RisingBefore(points, j, i);
    } else if j == i {
    } else {
      RisingBefore(points, i, j);
    }
  }

  lemma {:induction false} RisingBefore(points: seq<Point>, i: nat, j: nat)
    requires Rising(points) && i < j < |points|
    ensures points[i].rpm < points[j].rpm
  {
    if i < j - 1 {
      RisingBefore(points, i, j - 1);
    }
  }

  /** `LINEAR_SEGMENTS`, built once from the simulation points. */
  const LinearSegments: seq<Segment> := Segments(SimulationPoints)

  /** The simulation table is well formed, whatever its entries. */
  lemma SimulationWellFormed()
    ensures WellFormed(LinearSegments)
  {
    SimulationSegments();
  }

  /** The two segments of the simulation points, and the values at their ends. */
  lemma SimulationSegments()
    ensures LinearSegments ==
      [Segment(1000.0, 3000.0, 1013.0 / 2000.0, -55.0),
       Segment(3000.0, 7500.0, 481.0 / 900.0, -833.0 / 6.0)]
    ensures WellFormed(LinearSegments)
    ensures RpmToShear(LinearSegments, 1000.0) == 451.5
    ensures RpmToShear(LinearSegments, 7500.0) == 3869.5
  {
    SimulationTable();
    SimulationRising();
    RisingSegments(SimulationPoints);
    HitsCalibrationPoints(SimulationPoints, 0);
    HitsCalibrationPoints(SimulationPoints, 2);
  }

  lemma SimulationRising()
    ensures |SimulationPoints| == 3 && Rising(SimulationPoints)
    ensures SimulationPoints[0] == Point(1000.0, 451.5) && SimulationPoints[2] == Point(7500.0, 3869.5)
  {
  }

  lemma SimulationTable()
    ensures LinearSegments ==
      [Segment(1000.0, 3000.0, 1013.0 / 2000.0, -55.0),
       Segment(3000.0, 7500.0, 481.0 / 900.0, -833.0 / 6.0)]
  {
    var p := SimulationPoints;
    assert DistinctSteps(p);
    assert |LinearSegments| == 2;
    assert LinearSegments[0] == SegmentBetween(p[0], p[1]) == Segment(1000.0, 3000.0, 1013.0 / 2000.0, -55.0);
    assert LinearSegments[1] == SegmentBetween(p[1], p[2]) == Segment(3000.0, 7500.0, 481.0 / 900.0, -833.0 / 6.0);
  }
}
