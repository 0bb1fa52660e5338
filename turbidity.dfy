/** Relative turbidity of a sample against the reference voltage V0 of a
    calibration: the drop of the differential photodiode voltage below V0,
    in percent of V0, in the two algebraic forms the sensor windows use;
    `calibrate` (V0 is the mean Vdiff of an acquisition) and `measure`. */
module Turbidity {
  import opened Wrappers
  import Stats
  import opened SensorAcquisition

  const CalibrationRequired: string := "Calibration required"
  const ZeroReference: string := "V0 is zero"

  /** `(V0 - Vdiff) / V0 * 100`. */
  function RelativeTurbidity(v0: real, vdiff: real): (t: real)
    requires v0 != 0.0
    ensures vdiff == v0 ==> t == 0.0
    ensures v0 > 0.0 ==> (t > 0.0 <==> vdiff < v0)
  {
    PercentSign(v0, v0 - vdiff);
    (v0 - vdiff) / v0 * 100.0
  }

  lemma PercentSign(v0: real, d: real)
    requires v0 != 0.0
    ensures d == 0.0 ==> d / v0 * 100.0 == 0.0
    ensures v0 > 0.0 ==> (d / v0 * 100.0 > 0.0 <==> d > 0.0)
  {
    if v0 > 0.0 {
      assert d / v0 * v0 == d;
    }
  }

  /** `(1 - Vdiff / V0) * 100`: no turbidity when the difference equals the
      reference, and, for a positive reference, positive turbidity exactly
      when the difference falls short of it. */
  function RatioTurbidity(v0: real, vdiff: real): (t: real)
    requires v0 != 0.0
    ensures vdiff == v0 ==> t == 0.0
    ensures v0 > 0.0 ==> (t > 0.0 <==> vdiff < v0)
  {
    var q := vdiff / v0;
    assert vdiff == q * v0;
    (1.0 - q) * 100.0
  }

  /** The two forms agree wherever V0 is not zero. */
  lemma SameTurbidity(v0: real, vdiff: real)
    requires v0 != 0.0
    ensures RatioTurbidity(v0, vdiff) == RelativeTurbidity(v0, vdiff)
  {
    var q := vdiff / v0;
    assert vdiff == q * v0;
    assert v0 - vdiff == (1.0 - q) * v0;
  }

  /** Turbidity is affine in Vdiff, with slope `-100 / V0`. */
  lemma TurbidityAffine(v0: real, vdiff: real)
    requires v0 != 0.0
    ensures RelativeTurbidity(v0, vdiff) == (-100.0 / v0) * vdiff + 100.0
  {
    assert (v0 - vdiff) / v0 == 1.0 - vdiff / v0;
    assert (-100.0 / v0) * vdiff == -100.0 * (vdiff / v0);
  }

  /** With a positive reference, a lower Vdiff means a more turbid sample. */
  lemma TurbidityDecreasing(v0: real, x: real, y: real)
    requires v0 > 0.0 && x < y
    ensures RelativeTurbidity(v0, x) > RelativeTurbidity(v0, y)
  {
    TurbidityAffine(v0, x);
    TurbidityAffine(v0, y);
    assert -100.0 / v0 < 0.0;
    assert (-100.0 / v0) * (y - x) < 0.0;
  }

  /** `df["turbidity_percent"]`, sample by sample. */
  function TurbidityColumn(v0: real, vs: seq<real>): (ts: seq<real>)
    requires v0 != 0.0
    ensures |ts| == |vs|
    ensures forall k :: 0 <= k < |vs| ==> ts[k] == RelativeTurbidity(v0, vs[k])
  {
    var ts := Stats.Affine(vs, -100.0 / v0, 100.0);
    assert forall k :: 0 <= k < |vs| ==> ts[k] == RelativeTurbidity(v0, vs[k]) by {
      forall k | 0 <= k < |vs|
        ensures ts[k] == RelativeTurbidity(v0, vs[k])
      {
        Stats.AffineAt(vs, -100.0 / v0, 100.0, k);
        TurbidityAffine(v0, vs[k]);
      }
    }
    ts
  }

  /** The mean turbidity is the turbidity of the mean Vdiff. */
  lemma MeanTurbidity(v0: real, vs: seq<real>)
    requires v0 != 0.0 && |vs| > 0
    ensures Stats.Mean(TurbidityColumn(v0, vs)) == RelativeTurbidity(v0, Stats.Mean(vs))
  {
    Stats.MeanAffine(vs, -100.0 / v0, 100.0);
    TurbidityAffine(v0, Stats.Mean(vs));
  }

  /** `calibrate`: V0 is the mean Vdiff of one acquisition; a failed
      acquisition fails the calibration with its message. */
  function Calibrate(acquired: Result<Frame>): (r: Result<real>)
    requires acquired.Ok? ==> |acquired.value.rows| > 0
    ensures acquired.Err? ==> r == Err(acquired.message)
    ensures acquired.Ok? ==> r == Ok(Stats.Mean(Vdiffs(acquired.value.rows)))
  {
    match acquired
    case Err(message) => Err(message)
    case Ok(frame) => Ok(Stats.Mean(Vdiffs(frame.rows)))
  }

  /** What `measure` shows: the turbidity column and the two means. */
  datatype Measurement = Measurement(turbidity: seq<real>, meanVdiff: real, meanTurbidity: real)

  /** `measure`. Without a stored V0 it fails with "Calibration required",
      a failed acquisition fails with its own message, and a zero V0 is
      reported instead of the infinities the division would give.
      `ratioForm` selects `(1 - Vdiff/V0) * 100` over `(V0 - Vdiff)/V0 * 100`. */
  function Measure(storedV0: Option<real>, acquired: Result<Frame>, ratioForm: bool): (r: Result<Measurement>)
    requires acquired.Ok? ==> |acquired.value.rows| > 0
    ensures storedV0.None? ==> r == Err(CalibrationRequired)
    ensures storedV0.Some? && acquired.Err? ==> r == Err(acquired.message)
    ensures storedV0.Some? && acquired.Ok? && storedV0.value == 0.0 ==> r == Err(ZeroReference)
    ensures r.Ok? <==> storedV0.Some? && storedV0.value != 0.0 && acquired.Ok?
    ensures r.Ok? ==>
      var v0, vs := storedV0.value, Vdiffs(acquired.value.rows);
      && |r.value.turbidity| == |vs|
      && (forall k :: 0 <= k < |vs| ==> r.value.turbidity[k] == RelativeTurbidity(v0, vs[k]))
      && r.value.meanVdiff == Stats.Mean(vs)
      && r.value.meanTurbidity == RelativeTurbidity(v0, r.value.meanVdiff)
  {
    match storedV0
    case None => Err(CalibrationRequired)
    case Some(v0) =>
      match acquired
      case Err(message) => Err(message)
      case Ok(frame) =>
        if v0 == 0.0 then Err(ZeroReference)
        else
          var vs := Vdiffs(frame.rows);
          var ts := if ratioForm then seq(|vs|, k requires 0 <= k < |vs| => RatioTurbidity(v0, vs[k]))
                    else TurbidityColumn(v0, vs);
          assert ts == TurbidityColumn(v0, vs) by {
            forall k | 0 <= k < |vs|
              ensures ts[k] == TurbidityColumn(v0, vs)[k]
            {
              SameTurbidity(v0, vs[k]);
            }
          }
          MeanTurbidity(v0, vs);
          Ok(Measurement(ts, Stats.Mean(vs), Stats.Mean(ts)))
  }

  /** Measuring the very acquisition used to calibrate reads 0 % turbidity. */
  lemma CalibrationReadsZero(frame: Frame, ratioForm: bool)
    requires |frame.rows| > 0
    requires Calibrate(Ok(frame)).value != 0.0
    ensures Measure(Some(Calibrate(Ok(frame)).value), Ok(frame), ratioForm).value.meanTurbidity == 0.0
  {
  }
}
