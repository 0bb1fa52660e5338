/** Sums, means and the degree-1 least-squares fit that the calibration
    curves use (`np.polyfit(x, y, deg=1)`), exact over the reals. */
module Stats {

  /** Sum of a column, accumulated from the first element to the last. */
  function Sum(xs: seq<real>): real
  {
    if xs == [] then 0.0 else Sum(xs[..|xs| - 1]) + xs[|xs| - 1]
  }

  /** `Series.mean()` / `np.mean` of a non-empty column. */
  function Mean(xs: seq<real>): real
    requires |xs| > 0
  {
    Sum(xs) / |xs| as real
  }

  /** Sum of the products `xs[k] * ys[k]`. */
  function Dot(xs: seq<real>, ys: seq<real>): real
    requires |xs| == |ys|
  {
    if xs == [] then 0.0
    else Dot(xs[..|xs| - 1], ys[..|ys| - 1]) + xs[|xs| - 1] * ys[|ys| - 1]
  }

  /** The column `a * x + c` for every `x` of `xs`. */
  function Affine(xs: seq<real>, a: real, c: real): (ys: seq<real>)
    ensures |ys| == |xs|
  {
    if xs == [] then [] else Affine(xs[..|xs| - 1], a, c) + [a * xs[|xs| - 1] + c]
  }

  /** Element `k` of the affine column. */
  lemma {:induction false} AffineAt(xs: seq<real>, a: real, c: real, k: nat)
    requires k < |xs|
    ensures Affine(xs, a, c)[k] == a * xs[k] + c
  {
    if k < |xs| - 1 {
      AffineAt(xs[..|xs| - 1], a, c, k);
    }
  }

  /** Summing is linear. */
  lemma {:induction false} SumAffine(xs: seq<real>, a: real, c: real)
    ensures Sum(Affine(xs, a, c)) == a * Sum(xs) + c * |xs| as real
  {
    if xs != [] {
      var ys := Affine(xs, a, c);
      SumAffine(xs[..|xs| - 1], a, c);
      assert ys[..|ys| - 1] == Affine(xs[..|xs| - 1], a, c);
    }
  }

  /** The mean of an affine image of a column is the affine image of its mean. */
  lemma {:induction false} MeanAffine(xs: seq<real>, a: real, c: real)
    requires |xs| > 0
    ensures Mean(Affine(xs, a, c)) == a * Mean(xs) + c
  {
    var n := |xs| as real;
    SumAffine(xs, a, c);
    AffineOverCount(a, Sum(xs), c, n);
    assert Mean(Affine(xs, a, c)) == (a * Sum(xs) + c * n) / n;
  }

  /** `(a*s + c*n) / n == a*(s/n) + c`, the step behind `MeanAffine`. */
  lemma AffineOverCount(a: real, s: real, c: real, n: real)
    requires n > 0.0
    ensures (a * s + c * n) / n == a * (s / n) + c
  {
    var q := s / n;
    assert s == q * n;
    assert a * s + c * n == (a * q + c) * n;
  }

  /** A sum of values within `[lo, hi]` lies within `[n*lo, n*hi]`. */
  lemma {:induction false} SumBounds(xs: seq<real>, lo: real, hi: real)
    requires forall k :: 0 <= k < |xs| ==> lo <= xs[k] <= hi
    ensures |xs| as real * lo <= Sum(xs) <= |xs| as real * hi
  {
    if xs != [] {
      SumBounds(xs[..|xs| - 1], lo, hi);
    }
  }

  /** The mean of values no smaller than `lo` is no smaller than `lo`. */
  lemma {:induction false} MeanAtLeast(xs: seq<real>, lo: real)
    requires |xs| > 0
    requires forall k :: 0 <= k < |xs| ==> lo <= xs[k]
    ensures lo <= Mean(xs)
  {
    SumAtLeast(xs, lo);
    assert Sum(xs) >= |xs| as real * lo;
  }

  lemma {:induction false} SumAtLeast(xs: seq<real>, lo: real)
    requires forall k :: 0 <= k < |xs| ==> lo <= xs[k]
    ensures |xs| as real * lo <= Sum(xs)
  {
    if xs != [] {
      SumAtLeast(xs[..|xs| - 1], lo);
    }
  }

  /** The mean of values within `[lo, hi]` lies within `[lo, hi]`. */
  lemma {:induction false} MeanBounds(xs: seq<real>, lo: real, hi: real)
    requires |xs| > 0
    requires forall k :: 0 <= k < |xs| ==> lo <= xs[k] <= hi
    ensures lo <= Mean(xs) <= hi
  {
    SumBounds(xs, lo, hi);
    var n := |xs| as real;
    assert Sum(xs) / n >= lo by {
      assert Sum(xs) >= n * lo;
    }
    assert Sum(xs) / n <= hi by {
      assert Sum(xs) <= n * hi;
    }
  }

  /** A fitted line `y = slope * x + intercept` (`m, b = np.polyfit(...)`). */
  datatype Line = Line(slope: real, intercept: real)

  function Eval(l: Line, x: real): real
  {
    l.slope * x + l.intercept
  }

  /** The sums a degree-1 fit depends on: `n, Σx, Σy, Σx², Σxy`. */
  datatype Moments = Moments(n: real, sx: real, sy: real, sxx: real, sxy: real)

  function MomentsOf(xs: seq<real>, ys: seq<real>): (m: Moments)
    requires |xs| == |ys|
    ensures m.n == |xs| as real
  {
    Moments(|xs| as real, Sum(xs), Sum(ys), Dot(xs, xs), Dot(xs, ys))
  }

  /** `n * Σx² - (Σx)²`, the determinant of the normal equations. */
  function Determinant(m: Moments): real
  {
    m.n * m.sxx - m.sx * m.sx
  }

  function Spread(xs: seq<real>): real
  {
    Determinant(MomentsOf(xs, xs))
  }

  /** The two normal equations of least squares: the derivatives of the
      squared error `Σ (y - (slope*x + intercept))²` with respect to the
      intercept and to the slope both vanish, written in the sums of the data. */
  predicate Normal(m: Moments, l: Line)
  {
    && m.sy - l.slope * m.sx - l.intercept * m.n == 0.0
    && m.sxy - l.slope * m.sxx - l.intercept * m.sx == 0.0
  }

  /** Cramer's rule for the normal equations. */
  function ClosedForm(m: Moments): Line
    requires m.n > 0.0
    requires Determinant(m) != 0.0
  {
    var slope := (m.n * m.sxy - m.sx * m.sy) / Determinant(m);
    Line(slope, (m.sy - slope * m.sx) / m.n)
  }

  /** The normal equations have exactly one solution, the closed form. */
  lemma SolveNormal(m: Moments, l: Line)
    requires m.n > 0.0
    requires Determinant(m) != 0.0
    ensures Normal(m, l) <==> l == ClosedForm(m)
  {
    var n, sx, sy, sxx, sxy, s, c := m.n, m.sx, m.sy, m.sxx, m.sxy, l.slope, l.intercept;
    var d := Determinant(m);
    var e1 := sy - s * sx - c * n;
    var e2 := sxy - s * sxx - c * sx;
    // n * e2 - sx * e1 eliminates the intercept
    assert n * e2 - sx * e1 == (n * sxy - sx * sy) - s * d by {
      assert n * e2 == n * sxy - s * (n * sxx) - c * (n * sx);
      assert sx * e1 == sx * sy - s * (sx * sx) - c * (n * sx);
    }
    var f := ClosedForm(m);
    if e1 == 0.0 && e2 == 0.0 {
      assert s * d == n * sxy - sx * sy;
      assert s == f.slope;
      assert c * n == sy - s * sx;
      assert c == f.intercept;
    }
    if l == f {
      assert c * n == sy - s * sx;
      assert e1 == 0.0;
      assert s * d == n * sxy - sx * sy;
      assert n * e2 == 0.0;
    }
  }

  /** The degree-1 least-squares fit of the points `(xs[k], ys[k])`. */
  function LeastSquares(xs: seq<real>, ys: seq<real>): Line
    requires |xs| == |ys|
    requires Spread(xs) != 0.0
  {
    NonZeroSpread(xs);
    ClosedForm(MomentsOf(xs, ys))
  }

  /** Points with distinct abscissae need at least one point. */
  lemma NonZeroSpread(xs: seq<real>)
    requires Spread(xs) != 0.0
    ensures |xs| > 0
  {
  }

  /** The least-squares line is the one solution of the normal equations. */
  lemma {:induction false} LeastSquaresCharacterised(xs: seq<real>, ys: seq<real>, l: Line)
    requires |xs| == |ys|
    requires Spread(xs) != 0.0
    ensures Normal(MomentsOf(xs, ys), l) <==> l == LeastSquares(xs, ys)
  {
    NonZeroSpread(xs);
    SolveNormal(MomentsOf(xs, ys), l);
  }

  /** The fitted line passes through the mean point of the data. */
  lemma {:induction false} FitThroughMeans(xs: seq<real>, ys: seq<real>)
    requires |xs| == |ys|
    requires Spread(xs) != 0.0
    ensures |xs| > 0
    ensures Eval(LeastSquares(xs, ys), Mean(xs)) == Mean(ys)
  {
    NonZeroSpread(xs);
    var l := LeastSquares(xs, ys);
    LeastSquaresCharacterised(xs, ys, l);
    EvalAtMean(l, MomentsOf(xs, ys));
  }

  lemma EvalAtMean(l: Line, m: Moments)
    requires m.n > 0.0
    requires Normal(m, l)
    ensures Eval(l, m.sx / m.n) == m.sy / m.n
  {
    AffineOverCount(l.slope, m.sx, l.intercept, m.n);
  }
}
