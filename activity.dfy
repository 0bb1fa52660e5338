/** The turbidity-to-VWF-activity calibration curve of the sensor tab: the
    degree-1 least-squares line through five control points, the activity
    reported for a mean turbidity, and the half-width of the activity band
    that one standard deviation of turbidity spans. */
module VwfActivity {
  import Stats

  /** The control points as (turbidity, VWF activity) pairs. */
  const ControlTurbidity: seq<real> := [0.45, 1.2, 1.95, 2.7, 3.25]
  const ControlActivity: seq<real> := [100.0, 75.0, 50.0, 25.0, 0.0]

  lemma ControlMoments()
    ensures Stats.MomentsOf(ControlTurbidity, ControlActivity)
         == Stats.Moments(5.0, 191.0 / 20.0, 250.0, 9319.0 / 400.0, 300.0)
  {
    var x1, x2, x3, x4 := [0.45], [0.45, 1.2], [0.45, 1.2, 1.95], [0.45, 1.2, 1.95, 2.7];
    var y1, y2, y3, y4 := [100.0], [100.0, 75.0], [100.0, 75.0, 50.0], [100.0, 75.0, 50.0, 25.0];
    assert x1[..0] == [] && y1[..0] == [];
    assert x2[..1] == x1 && x3[..2] == x2 && x4[..3] == x3 && ControlTurbidity[..4] == x4;
    assert y2[..1] == y1 && y3[..2] == y2 && y4[..3] == y3 && ControlActivity[..4] == y4;
    assert Stats.Sum(x4) == 6.3;
    assert Stats.Sum(y4) == 250.0;
    assert Stats.Dot(x4, x4) == 12.735;
    assert Stats.Dot(x4, y4) == 300.0;
  }

  /** `m, b = np.polyfit(...)` on the control points. */
  function Curve(): (l: Stats.Line)
    ensures l == Stats.Line(-177500.0 / 5057.0, 591875.0 / 5057.0)
  {
    ControlMoments();
    Stats.LeastSquares(ControlTurbidity, ControlActivity)
  }

  /** The curve is the least-squares line: it solves the normal equations of
      the control points, and passes through their mean point. */
  lemma CurveIsFit()
    ensures Stats.Spread(ControlTurbidity) != 0.0
    ensures Curve() == Stats.LeastSquares(ControlTurbidity, ControlActivity)
    ensures Stats.Normal(Stats.MomentsOf(ControlTurbidity, ControlActivity), Curve())
    ensures Stats.Eval(Curve(), Stats.Mean(ControlTurbidity)) == Stats.Mean(ControlActivity)
  {
    ControlMoments();
    Stats.LeastSquaresCharacterised(ControlTurbidity, ControlActivity, Curve());
    Stats.FitThroughMeans(ControlTurbidity, ControlActivity);
  }

  /** `turb_to_vwf_activity`: the mean control activity, moved along the
      fitted slope by the distance from the mean control turbidity. */
  function TurbToActivity(turbidity: real): (activity: real)
    ensures activity == Stats.Mean(ControlActivity)
      + Curve().slope * (turbidity - Stats.Mean(ControlTurbidity))
  {
    CurveIsFit();
    var m := Curve().slope;
    assert m * turbidity == m * Stats.Mean(ControlTurbidity) + m * (turbidity - Stats.Mean(ControlTurbidity));
    Stats.Eval(Curve(), turbidity)
  }

  /** The line does not pass through its control points: the 0 % point
      reads about 2.97 %. */
  lemma ZeroActivityPointMissed()
    ensures TurbToActivity(ControlTurbidity[4]) == 15000.0 / 5057.0
    ensures TurbToActivity(ControlTurbidity[4]) != ControlActivity[4]
  {
  }

  /** Activity falls strictly as turbidity rises. */
  lemma ActivityDecreasing(t1: real, t2: real)
    requires t1 < t2
    ensures TurbToActivity(t1) > TurbToActivity(t2)
  {
    var m := Curve().slope;
    assert m < 0.0;
    assert m * (t2 - t1) < 0.0;
  }

  /** `(f(mean - std) - f(mean + std)) / 2`, the `±` of the displayed activity. */
  function ActivityBand(meanTurbidity: real, std: real): (band: real)
    ensures band == -Curve().slope * std
    ensures std >= 0.0 ==> band >= 0.0
  {
    var m := Curve().slope;
    assert TurbToActivity(meanTurbidity - std) - TurbToActivity(meanTurbidity + std) == -2.0 * m * std;
    (TurbToActivity(meanTurbidity - std) - TurbToActivity(meanTurbidity + std)) / 2.0
  }

  /** The band is centred on the reported activity. */
  lemma BandCentred(meanTurbidity: real, std: real)
    ensures TurbToActivity(meanTurbidity - std) == TurbToActivity(meanTurbidity) + ActivityBand(meanTurbidity, std)
    ensures TurbToActivity(meanTurbidity + std) == TurbToActivity(meanTurbidity) - ActivityBand(meanTurbidity, std)
  {
    var m := Curve().slope;
    assert m * (meanTurbidity - std) == m * meanTurbidity - m * std;
    assert m * (meanTurbidity + std) == m * meanTurbidity + m * std;
  }
}
