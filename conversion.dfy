/** The stand-alone absorbance conversion: a degree-1 least-squares line
    through three control points, applied to the difference between the
    agitated and the non-agitated absorbance. */
module AbsorbanceConversion {
  import Stats

  /** The control points as (absorbance difference, VWF activity) pairs. */
  const ControlAbsorbance: seq<real> := [0.0, 1.0, 3.0]
  const ControlActivity: seq<real> := [0.0, 19.7, 76.5]

  lemma ControlMoments()
    ensures Stats.MomentsOf(ControlAbsorbance, ControlActivity)
         == Stats.Moments(3.0, 4.0, 96.2, 10.0, 249.2)
  {
    var x1, x2 := [0.0], [0.0, 1.0];
    var y1, y2 := [0.0], [0.0, 19.7];
    assert x1[..0] == [] && y1[..0] == [];
    assert x2[..1] == x1 && ControlAbsorbance[..2] == x2;
    assert y2[..1] == y1 && ControlActivity[..2] == y2;
  }

  /** `m, b = np.polyfit(...)` on the control points. */
  function Fit(): (l: Stats.Line)
    ensures l == Stats.Line(907.0 / 35.0, -87.0 / 35.0)
  {
    ControlMoments();
    Stats.LeastSquares(ControlAbsorbance, ControlActivity)
  }

  /** The line is the least-squares fit: it solves the normal equations of
      the control points and passes through their mean point. */
  lemma FitIsLeastSquares()
    ensures Stats.Spread(ControlAbsorbance) != 0.0
    ensures Fit() == Stats.LeastSquares(ControlAbsorbance, ControlActivity)
    ensures Stats.Normal(Stats.MomentsOf(ControlAbsorbance, ControlActivity), Fit())
    ensures Stats.Eval(Fit(), Stats.Mean(ControlAbsorbance)) == Stats.Mean(ControlActivity)
  {
    ControlMoments();
    Stats.LeastSquaresCharacterised(ControlAbsorbance, ControlActivity, Fit());
    Stats.FitThroughMeans(ControlAbsorbance, ControlActivity);
  }

  /** `absorbance_to_vwf_activity`: the mean control activity, moved along
      the fitted slope by how far the absorbance difference lies from the
      mean control difference. */
  function AbsorbanceToActivity(nonAgitated: real, agitated: real): (activity: real)
    ensures activity == Stats.Mean(ControlActivity)
      + Fit().slope * ((agitated - nonAgitated) - Stats.Mean(ControlAbsorbance))
  {
    FitIsLeastSquares();
    var m, d := Fit().slope, agitated - nonAgitated;
    assert m * d == m * Stats.Mean(ControlAbsorbance) + m * (d - Stats.Mean(ControlAbsorbance));
    Stats.Eval(Fit(), d)
  }

  /** Only the difference of the two absorbances matters. */
  lemma ShiftInvariant(nonAgitated: real, agitated: real, shift: real)
    ensures AbsorbanceToActivity(nonAgitated + shift, agitated + shift)
         == AbsorbanceToActivity(nonAgitated, agitated)
  {
    assert (agitated + shift) - (nonAgitated + shift) == agitated - nonAgitated;
  }

  /** Equal absorbances give the intercept of the fitted line, which is
      not the 0 % of the first control point: the line misses that point. */
  lemma EqualAbsorbances(a: real)
    ensures AbsorbanceToActivity(a, a) == -87.0 / 35.0
    ensures AbsorbanceToActivity(a, a) != ControlActivity[0]
  {
  }

  /** Activity rises with the agitated absorbance and falls with the
      non-agitated one. */
  lemma Monotone(nonAgitated: real, agitated: real, d: real)
    requires d > 0.0
    ensures AbsorbanceToActivity(nonAgitated, agitated + d) > AbsorbanceToActivity(nonAgitated, agitated)
    ensures AbsorbanceToActivity(nonAgitated + d, agitated) < AbsorbanceToActivity(nonAgitated, agitated)
  {
    var m := Fit().slope;
    assert m * (agitated + d - nonAgitated) == m * (agitated - nonAgitated) + m * d;
    assert m * (agitated - (nonAgitated + d)) == m * (agitated - nonAgitated) - m * d;
  }

  /** Swapping the two samples reflects the activity about the intercept. */
  lemma SwapReflects(nonAgitated: real, agitated: real)
    ensures AbsorbanceToActivity(nonAgitated, agitated) + AbsorbanceToActivity(agitated, nonAgitated)
         == 2.0 * Fit().intercept
  {
    var m := Fit().slope;
    assert m * (agitated - nonAgitated) + m * (nonAgitated - agitated) == 0.0;
  }
}
