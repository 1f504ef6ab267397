/**
 * The numpy routines the scripts call, over exact reals: `np.sum`, `np.average`,
 * `np.min`, `np.argmax`, `np.searchsorted` (side 'left') and `np.polyfit(x, y, 1)`
 * as the closed-form ordinary least-squares line.
 */
module Numeric {
  import opened Wrappers

  /** `np.sum` of a float array. */
  function Sum(s: seq<real>): real
  {
    if |s| == 0 then 0.0 else Sum(s[..|s| - 1]) + s[|s| - 1]
  }

  /** `np.sum` of an integer array. */
  function Total(s: seq<int>): int
  {
    if |s| == 0 then 0 else Total(s[..|s| - 1]) + s[|s| - 1]
  }

  /** `np.average` without weights. */
  function Mean(s: seq<real>): real
    requires |s| > 0
  {
    Sum(s) / |s| as real
  }

  /** Replacing one entry changes the sum by the difference. */
  lemma {:induction false} SumUpdate(s: seq<real>, k: nat, v: real)
    requires k < |s|
    ensures Sum(s[k := v]) == Sum(s) - s[k] + v
  {
    var n := |s| - 1;
    if k < n {
      assert s[k := v][..n] == s[..n][k := v];
      SumUpdate(s[..n], k, v);
    } else {
      assert s[k := v][..n] == s[..n];
    }
  }

  /** Adding one to a single counter adds one to the total. */
  lemma {:induction false} TotalIncrement(s: seq<int>, k: nat)
    requires k < |s|
    ensures Total(s[k := s[k] + 1]) == Total(s) + 1
  {
    var n := |s| - 1;
    if k < n {
      assert s[k := s[k] + 1][..n] == s[..n][k := s[..n][k] + 1];
      TotalIncrement(s[..n], k);
    } else {
      assert s[k := s[k] + 1][..n] == s[..n];
    }
  }

  /** A sequence of `n` zeros. */
  function Zeros(n: nat): (z: seq<int>)
    ensures |z| == n && Total(z) == 0
    ensures forall i :: 0 <= i < n ==> z[i] == 0
  {
    if n == 0 then [] else
      var z := Zeros(n - 1) + [0];
      assert z[..n - 1] == Zeros(n - 1);
      z
  }

  /** Every entry multiplied by `c` (numpy's `array * c`). */
  function Scale(s: seq<real>, c: real): (r: seq<real>)
    ensures |r| == |s|
  {
    seq(|s|, i requires 0 <= i < |s| => s[i] * c)
  }

  /** Entry `i` of the scaled array is entry `i` times `c`. */
  lemma ScaleAt(s: seq<real>, c: real, i: nat)
    requires i < |s|
    ensures Scale(s, c)[i] == Mul(c, s[i])
  {
  }

  /** When `ws` is `a` times `us` entry by entry, its sum is `a` times the sum of `us`. */
  lemma {:induction false} SumProportional(us: seq<real>, ws: seq<real>, a: real)
    requires |us| == |ws|
    requires forall i :: 0 <= i < |us| ==> ws[i] == Mul(a, us[i])
    ensures Sum(ws) == Mul(a, Sum(us))
  {
    if |us| > 0 {
      var n := |us| - 1;
      SumProportional(us[..n], ws[..n], a);
      assert Sum(ws) == Sum(ws[..n]) + ws[n];
      assert Sum(us) == Sum(us[..n]) + us[n];
      StepCombine(Sum(ws[..n]), Sum(us[..n]), ws[n], us[n], a, Sum(ws), Sum(us));
    }
  }

  /** Used by `AxisWindowPairs`: the sum of two arrays laid end to end is the sum of their sums. */
  lemma {:induction false} SumAppend(a: seq<real>, b: seq<real>)
    ensures Sum(a + b) == Sum(a) + Sum(b)
  {
    if |b| == 0 {
      assert a + b == a;
    } else {
      var c := a + b;
      assert c[..|c| - 1] == a + b[..|b| - 1];
      SumAppend(a, b[..|b| - 1]);
    }
  }

  /** Scaling an array scales its sum. */
  lemma SumScale(s: seq<real>, c: real)
    ensures Sum(Scale(s, c)) == Mul(c, Sum(s))
  {
    forall i | 0 <= i < |s|
      ensures Scale(s, c)[i] == Mul(c, s[i])
    {
      ScaleAt(s, c, i);
    }
    SumProportional(s, Scale(s, c), c);
  }

  /** Every entry decreased by `d` (numpy's `array - d`). */
  function Shift(s: seq<real>, d: real): (r: seq<real>)
    ensures |r| == |s|
    ensures forall i :: 0 <= i < |s| ==> r[i] == s[i] - d
  {
    if |s| == 0 then [] else Shift(s[..|s| - 1], d) + [s[|s| - 1] - d]
  }

  /** A sequence whose entries all equal `c` sums to `|s| * c`. */
  lemma {:induction false} SumConstant(s: seq<real>, c: real)
    requires forall i :: 0 <= i < |s| ==> s[i] == c
    ensures Sum(s) == |s| as real * c
  {
    if |s| > 0 {
      var n := |s| - 1;
      SumConstant(s[..n], c);
      assert (n as real + 1.0) * c == n as real * c + c;
    }
  }

  /** `np.min`: an entry of `s` that no entry undercuts. */
  function Min(s: seq<real>): (m: real)
    requires |s| > 0
    ensures m in s
    ensures forall i :: 0 <= i < |s| ==> m <= s[i]
  {
    if |s| == 1 then s[0]
    else
      var m := Min(s[..|s| - 1]);
      if s[|s| - 1] < m then s[|s| - 1] else m
  }

  /** `np.argmax`: the FIRST position holding the maximum. */
  function ArgMax(s: seq<real>): (k: nat)
    requires |s| > 0
    ensures k < |s|
    ensures forall i :: 0 <= i < |s| ==> s[i] <= s[k]
    ensures forall i :: 0 <= i < k ==> s[i] < s[k]
  {
    if |s| == 1 then 0
    else
      var k := ArgMax(s[..|s| - 1]);
      if s[k] < s[|s| - 1] then |s| - 1 else k
  }

  /** Every entry is at most every later one. */
  predicate NonDecreasing(s: seq<real>)
  {
    forall i, j :: 0 <= i <= j < |s| ==> s[i] <= s[j]
  }

  /** numpy's binary search for side 'left', between positions `lo` and `hi`. */
  function BisectLeft(a: seq<real>, v: real, lo: nat, hi: nat): (i: nat)
    requires lo <= hi <= |a|
    ensures lo <= i <= hi
    decreases hi - lo
  {
    if lo < hi then
      var mid := lo + (hi - lo) / 2;
      if a[mid] < v then BisectLeft(a, v, mid + 1, hi) else BisectLeft(a, v, lo, mid)
    else lo
  }

  /** `np.searchsorted(a, v)` with the default side 'left'. */
  function SearchSorted(a: seq<real>, v: real): (i: nat)
    ensures i <= |a|
  {
    BisectLeft(a, v, 0, |a|)
  }

  /** On sorted data the search between `lo` and `hi` keeps the entries below `v` to its left; used by `SearchSortedLeftmost`. */
  lemma {:induction false} BisectLeftSplits(a: seq<real>, v: real, lo: nat, hi: nat)
    requires lo <= hi <= |a| && NonDecreasing(a)
    requires forall j :: 0 <= j < lo ==> a[j] < v
    requires forall j :: hi <= j < |a| ==> v <= a[j]
    ensures forall j :: 0 <= j < BisectLeft(a, v, lo, hi) ==> a[j] < v
    ensures forall j :: BisectLeft(a, v, lo, hi) <= j < |a| ==> v <= a[j]
    decreases hi - lo
  {
    if lo < hi {
      var mid := lo + (hi - lo) / 2;
      if a[mid] < v {
        BisectLeftSplits(a, v, mid + 1, hi);
      } else {
        BisectLeftSplits(a, v, lo, mid);
      }
    }
  }

  /**
   * On a non-decreasing array the search returns the leftmost insertion point:
   * every entry before it is below `v`, every entry from it on is at least `v`.
   */
  lemma SearchSortedLeftmost(a: seq<real>, v: real)
    requires NonDecreasing(a)
    ensures forall j :: 0 <= j < SearchSorted(a, v) ==> a[j] < v
    ensures forall j :: SearchSorted(a, v) <= j < |a| ==> v <= a[j]
  {
    BisectLeftSplits(a, v, 0, |a|);
  }

  // ---------------------------------------------------------------------------
  // np.polyfit(x, y, 1) as ordinary least squares
  // ---------------------------------------------------------------------------

  datatype Line = Line(slope: real, intercept: real)

  /**
   * Why `np.polyfit` gives no usable line: it raises for the first two (an empty
   * `x` is checked before the lengths are compared), warns for the last.
   */
  datatype FitError = LengthMismatch | EmptyData | RankDeficient

  /** Sum over i of `(xs[i] - mx) * (ys[i] - my)`, written with `Mul` (below). */
  function Cross(xs: seq<real>, ys: seq<real>, mx: real, my: real): real
    requires |xs| == |ys|
  {
    if |xs| == 0 then 0.0
    else
      var n := |xs| - 1;
      Cross(xs[..n], ys[..n], mx, my) + Mul(xs[n] - mx, ys[n] - my)
  }

  /**
   * Product of two reals, kept behind a function so that facts about products
   * and squares keep their shape for the solver.
   */
  function Mul(a: real, b: real): real
  {
    a * b
  }

  /** Sum over i of `(xs[i] - mx)` squared. */
  function SquaredDeviation(xs: seq<real>, mx: real): real
  {
    if |xs| == 0 then 0.0
    else
      var n := |xs| - 1;
      SquaredDeviation(xs[..n], mx) + Mul(xs[n] - mx, xs[n] - mx)
  }

  /** Not all abscissae are equal. */
  predicate Spread(xs: seq<real>)
  {
    exists i :: 0 <= i < |xs| && xs[i] != xs[0]
  }

  /**
   * The least-squares line through the points `(xs[i], ys[i])`. It exists exactly
   * when the two columns have the same, non-zero length and the abscissae are
   * not all equal.
   */
  function FitLine(xs: seq<real>, ys: seq<real>): (r: Result<Line, FitError>)
    ensures |xs| == 0 ==> r == Failure(EmptyData)
    ensures |xs| > 0 && |xs| != |ys| ==> r == Failure(LengthMismatch)
    ensures r.Success? <==> |xs| == |ys| && |xs| > 0 && Spread(xs)
  {
    if |xs| == 0 then Failure(EmptyData)
    else if |xs| != |ys| then Failure(LengthMismatch)
    else
      var mx := Mean(xs);
      var my := Mean(ys);
      var sxx := SquaredDeviation(xs, mx);
      SpreadIffPositive(xs);
      if sxx == 0.0 then Failure(RankDeficient)
      else
        var slope := Cross(xs, ys, mx, my) / sxx;
        Success(Line(slope, my - Mul(slope, mx)))
  }

  /** Used by `NegativeProduct` and `Square`: two positive factors give a positive product. */
  lemma PositiveProduct(a: real, b: real)
    requires a > 0.0 && b > 0.0
    ensures Mul(a, b) > 0.0
  {
  }

  /** Used by `Square`: two negative factors give a positive product. */
  lemma NegativeProduct(a: real, b: real)
    requires a < 0.0 && b < 0.0
    ensures Mul(a, b) > 0.0
  {
    PositiveProduct(-a, -b);
    assert Mul(-a, -b) == Mul(a, b);
  }

  /** Used by `SquaredDeviationBound` and `SpreadIffPositive`: a square is non-negative, and positive unless zero. */
  lemma Square(u: real)
    ensures Mul(u, u) >= 0.0
    ensures u != 0.0 ==> Mul(u, u) > 0.0
  {
    if u > 0.0 {
      PositiveProduct(u, u);
    } else if u < 0.0 {
      NegativeProduct(u, u);
    }
  }

  /** The sum of squared deviations bounds each single squared deviation. */
  lemma {:induction false} SquaredDeviationBound(xs: seq<real>, mx: real, k: nat)
    requires k < |xs|
    ensures SquaredDeviation(xs, mx) >= Mul(xs[k] - mx, xs[k] - mx)
    ensures SquaredDeviation(xs, mx) >= 0.0
  {
    var n := |xs| - 1;
    Square(xs[n] - mx);
    Square(xs[k] - mx);
    if k < n {
      SquaredDeviationBound(xs[..n], mx, k);
    } else if n > 0 {
      SquaredDeviationBound(xs[..n], mx, 0);
    }
  }

  /** Every point `(xs[i], ys[i])` lies on the line `y = a*x + b`. */
  predicate OnLine(xs: seq<real>, ys: seq<real>, a: real, b: real)
  {
    |xs| == |ys| && forall i :: 0 <= i < |xs| ==> ys[i] == a * xs[i] + b
  }

  /** Points on a line `y = a*x + b` have sums and means on the same line. */
  lemma {:induction false} SumAffine(xs: seq<real>, ys: seq<real>, a: real, b: real)
    requires OnLine(xs, ys, a, b)
    ensures Sum(ys) == a * Sum(xs) + b * |xs| as real
  {
    if |xs| > 0 {
      var n := |xs| - 1;
      assert OnLine(xs[..n], ys[..n], a, b);
      SumAffine(xs[..n], ys[..n], a, b);
      assert a * (Sum(xs[..n]) + xs[n]) == a * Sum(xs[..n]) + a * xs[n];
      assert b * (n as real + 1.0) == b * n as real + b;
    }
  }

  /** The mean of points on `y = a*x + b` lies on the same line. */
  lemma MeanAffine(xs: seq<real>, ys: seq<real>, a: real, b: real)
    requires OnLine(xs, ys, a, b) && |xs| > 0
    ensures Mean(ys) == a * Mean(xs) + b
  {
    SumAffine(xs, ys, a, b);
    var n := |xs| as real;
    assert (a * Sum(xs) + b * n) / n == a * (Sum(xs) / n) + b;
  }

  /** Used by `SumProportional` and `DotScaled`: one more term keeps the proportion. */
  lemma StepCombine(p: real, q: real, t: real, m: real, a: real, c: real, s: real)
    requires p == Mul(a, q) && t == Mul(a, m) && c == p + t && s == q + m
    ensures c == Mul(a, s)
  {
  }

  /** Sum over i of `us[i] * ws[i]`. */
  function Dot(us: seq<real>, ws: seq<real>): real
    requires |us| == |ws|
  {
    if |us| == 0 then 0.0
    else
      var n := |us| - 1;
      Dot(us[..n], ws[..n]) + Mul(us[n], ws[n])
  }

  /** The deviations `xs[i] - m`. */
  function Deviations(xs: seq<real>, m: real): (ds: seq<real>)
    ensures |ds| == |xs|
    ensures forall i :: 0 <= i < |xs| ==> ds[i] == xs[i] - m
  {
    seq(|xs|, i requires 0 <= i < |xs| => xs[i] - m)
  }

  /** The cross sum is the dot product of the two deviation lists. */
  lemma {:induction false} CrossAsDot(xs: seq<real>, ys: seq<real>, mx: real, my: real)
    requires |xs| == |ys|
    ensures Cross(xs, ys, mx, my) == Dot(Deviations(xs, mx), Deviations(ys, my))
  {
    if |xs| > 0 {
      var n := |xs| - 1;
      CrossAsDot(xs[..n], ys[..n], mx, my);
      assert Deviations(xs, mx)[..n] == Deviations(xs[..n], mx);
      assert Deviations(ys, my)[..n] == Deviations(ys[..n], my);
    }
  }

  /** The squared deviation is the dot product of the deviation list with itself. */
  lemma {:induction false} SquaresAsDot(xs: seq<real>, mx: real)
    ensures SquaredDeviation(xs, mx) == Dot(Deviations(xs, mx), Deviations(xs, mx))
  {
    if |xs| > 0 {
      var n := |xs| - 1;
      SquaresAsDot(xs[..n], mx);
      assert Deviations(xs, mx)[..n] == Deviations(xs[..n], mx);
    }
  }

  /** When the deviations in y are `a` times those in x, the cross sum is `a` times the squared one. */
  lemma CrossProportional(xs: seq<real>, ys: seq<real>, mx: real, my: real, a: real)
    requires |xs| == |ys|
    requires forall i :: 0 <= i < |xs| ==> ys[i] - my == Mul(a, xs[i] - mx)
    ensures Cross(xs, ys, mx, my) == Mul(a, SquaredDeviation(xs, mx))
  {
    CrossAsDot(xs, ys, mx, my);
    SquaresAsDot(xs, mx);
    DotScaled(Deviations(xs, mx), Deviations(xs, mx), Deviations(ys, my), a);
  }

  /** All abscissae equal: every deviation from the mean is zero. */
  lemma {:induction false} ConstantDeviation(xs: seq<real>, c: real)
    requires forall i :: 0 <= i < |xs| ==> xs[i] == c
    ensures SquaredDeviation(xs, c) == 0.0
  {
    if |xs| > 0 {
      ConstantDeviation(xs[..|xs| - 1], c);
    }
  }

  /** The abscissae are spread exactly when their squared deviation from the mean is non-zero. */
  lemma SpreadIffPositive(xs: seq<real>)
    requires |xs| > 0
    ensures Spread(xs) <==> SquaredDeviation(xs, Mean(xs)) != 0.0
  {
    var mx := Mean(xs);
    if Spread(xs) {
      var i :| 0 <= i < |xs| && xs[i] != xs[0];
      var k := if xs[i] != mx then i else 0;
      SquaredDeviationBound(xs, mx, k);
      Square(xs[k] - mx);
    } else {
      forall i | 0 <= i < |xs|
        ensures xs[i] == 0.0 * xs[i] + xs[0]
      {
      }
      MeanAffine(xs, xs, 0.0, xs[0]);
      ConstantDeviation(xs, mx);
    }
  }

  /**
   * Collinear points: when every point lies on `y = a*x + b` and the abscissae are
   * not all equal, the fitted line is exactly that line.
   */
  lemma CollinearFit(xs: seq<real>, ys: seq<real>, a: real, b: real)
    requires OnLine(xs, ys, a, b) && Spread(xs)
    ensures FitLine(xs, ys) == Success(Line(a, b))
  {
    CollinearSlope(xs, ys, a, b);
    FitLineValue(xs, ys);
    var line := FitLine(xs, ys).value;
    assert line.intercept == Mean(ys) - Mul(a, Mean(xs));
  }

  /** The slope part of `CollinearFit`: the fitted slope of collinear points is the line's. */
  lemma CollinearSlope(xs: seq<real>, ys: seq<real>, a: real, b: real)
    requires OnLine(xs, ys, a, b) && Spread(xs)
    ensures Mean(ys) == a * Mean(xs) + b
    ensures FitLine(xs, ys).Success? && FitLine(xs, ys).value.slope == a
  {
    MeanAffine(xs, ys, a, b);
    DeviationsProportional(xs, ys, a, b);
    CrossProportional(xs, ys, Mean(xs), Mean(ys), a);
    SpreadIffPositive(xs);
    Cancel(Cross(xs, ys, Mean(xs), Mean(ys)), SquaredDeviation(xs, Mean(xs)), a);
    FitLineValue(xs, ys);
  }

  /** Used by `CollinearFit`, `CollinearSlope` and `NormalEquations`: the closed form of the fitted line. */
  lemma FitLineValue(xs: seq<real>, ys: seq<real>)
    requires |xs| == |ys| && |xs| > 0 && SquaredDeviation(xs, Mean(xs)) != 0.0
    ensures FitLine(xs, ys).Success?
    ensures FitLine(xs, ys).value.slope == Cross(xs, ys, Mean(xs), Mean(ys)) / SquaredDeviation(xs, Mean(xs))
    ensures FitLine(xs, ys).value.intercept == Mean(ys) - Mul(FitLine(xs, ys).value.slope, Mean(xs))
  {
  }

  /** The residuals `ys[i] - (slope * xs[i] + intercept)` of a line through the points. */
  function Residuals(xs: seq<real>, ys: seq<real>, line: Line): (rs: seq<real>)
    requires |xs| == |ys|
    ensures |rs| == |xs|
    ensures forall i :: 0 <= i < |xs| ==> rs[i] == ys[i] - (Mul(line.slope, xs[i]) + line.intercept)
  {
    seq(|xs|, i requires 0 <= i < |xs| => ys[i] - (Mul(line.slope, xs[i]) + line.intercept))
  }

  /**
   * The least-squares line is the one line that satisfies the normal equations:
   * its residuals sum to zero and are uncorrelated with the abscissae. Every other
   * line fails at least one of the two.
   */
  lemma NormalEquations(xs: seq<real>, ys: seq<real>, line: Line)
    requires |xs| == |ys| && Spread(xs)
    ensures FitLine(xs, ys).Success?
    ensures Sum(Residuals(xs, ys, line)) == 0.0 && Dot(Deviations(xs, Mean(xs)), Residuals(xs, ys, line)) == 0.0
      <==> FitLine(xs, ys).value == line
  {
    DeviationsFromMean(xs);
    DeviationsFromMean(ys);
    SpreadIffPositive(xs);
    FitLineValue(xs, ys);
    NormalCore(xs, ys, line, Mean(xs), Mean(ys), FitLine(xs, ys).value);
  }

  /** Used by `NormalEquations`: the normal equations about any centre `(mx, my)` the deviations balance on. */
  lemma NormalCore(xs: seq<real>, ys: seq<real>, line: Line, mx: real, my: real, fit: Line)
    requires |xs| == |ys| && |xs| > 0
    requires Sum(Deviations(xs, mx)) == 0.0 && Sum(Deviations(ys, my)) == 0.0
    requires SquaredDeviation(xs, mx) != 0.0
    requires fit.slope == Cross(xs, ys, mx, my) / SquaredDeviation(xs, mx)
    requires fit.intercept == my - Mul(fit.slope, mx)
    ensures Sum(Residuals(xs, ys, line)) == 0.0 && Dot(Deviations(xs, mx), Residuals(xs, ys, line)) == 0.0
      <==> fit == line
  {
    ResidualSum(xs, ys, line, mx, my);
    ResidualCross(xs, ys, line, mx, my);
    NormalSolve(Sum(Residuals(xs, ys, line)), Dot(Deviations(xs, mx), Residuals(xs, ys, line)),
                Cross(xs, ys, mx, my), SquaredDeviation(xs, mx), |xs| as real,
                line.slope, line.intercept, Height(line, mx, my), mx, my);
  }

  /** Used by `NormalEquations`: the two equations pin the slope and then the intercept. */
  lemma NormalSolve(s: real, d: real, cross: real, sxx: real, n: real, a: real, b: real, h: real, mx: real, my: real)
    requires n > 0.0 && sxx != 0.0
    requires h == b - (my - Mul(a, mx))
    requires s == -Mul(h, n) && d == cross - Mul(a, sxx)
    ensures s == 0.0 && d == 0.0 <==> a == cross / sxx && b == my - Mul(cross / sxx, mx)
  {
    if s == 0.0 {
      assert h * n == 0.0;
      assert h == 0.0;
    }
    if d == 0.0 {
      assert a * sxx == cross;
      assert a == cross / sxx;
    }
    if a == cross / sxx {
      assert a * sxx == cross;
    }
  }

  /** How far `line` passes above the point `(mx, my)`. */
  function Height(line: Line, mx: real, my: real): real
  {
    line.intercept - (my - Mul(line.slope, mx))
  }

  /**
   * Each residual is the y deviation from `my`, less the slope times the x deviation
   * from `mx`, less how far the line passes above the point `(mx, my)`.
   */
  lemma ResidualsSplit(xs: seq<real>, ys: seq<real>, line: Line, mx: real, my: real)
    requires |xs| == |ys|
    ensures forall i :: 0 <= i < |xs| ==>
      Residuals(xs, ys, line)[i] ==
        Deviations(ys, my)[i] - Scale(Deviations(xs, mx), line.slope)[i] - Height(line, mx, my)
  {
    var dx := Deviations(xs, mx);
    forall i | 0 <= i < |xs|
      ensures Residuals(xs, ys, line)[i] ==
        Deviations(ys, my)[i] - Scale(dx, line.slope)[i] - Height(line, mx, my)
    {
      ScaleAt(dx, line.slope, i);
      MulSub(line.slope, xs[i], mx);
    }
  }

  /** The residuals total the y deviations, less the scaled x deviations, less `|xs|` heights. */
  lemma ResidualTotal(xs: seq<real>, ys: seq<real>, line: Line, mx: real, my: real)
    requires |xs| == |ys|
    ensures Sum(Residuals(xs, ys, line)) ==
      Sum(Deviations(ys, my)) - Sum(Scale(Deviations(xs, mx), line.slope)) - Mul(Height(line, mx, my), |xs| as real)
  {
    ResidualsSplit(xs, ys, line, mx, my);
    SumOffset(Deviations(ys, my), Scale(Deviations(xs, mx), line.slope), Residuals(xs, ys, line),
              Height(line, mx, my), |xs|);
  }

  /** With deviations that sum to zero, the residuals of a line sum to minus `|xs|` times its height above `(mx, my)`. */
  lemma ResidualSum(xs: seq<real>, ys: seq<real>, line: Line, mx: real, my: real)
    requires |xs| == |ys|
    requires Sum(Deviations(xs, mx)) == 0.0 && Sum(Deviations(ys, my)) == 0.0
    ensures Sum(Residuals(xs, ys, line)) == -Mul(Height(line, mx, my), |xs| as real)
  {
    ResidualTotal(xs, ys, line, mx, my);
    ScaleKeepsZeroSum(Deviations(xs, mx), line.slope);
    DropZeros(Sum(Residuals(xs, ys, line)), Sum(Deviations(ys, my)), Sum(Scale(Deviations(xs, mx), line.slope)),
              Mul(Height(line, mx, my), |xs| as real));
  }

  /** Used by `ResidualSum`: two vanishing totals drop out of `u - v - t`. */
  lemma DropZeros(r: real, u: real, v: real, t: real)
    requires r == u - v - t && u == 0.0 && v == 0.0
    ensures r == -t
  {
  }

  /** Used by `ResidualSum`: scaling keeps a zero sum at zero. */
  lemma ScaleKeepsZeroSum(s: seq<real>, c: real)
    requires Sum(s) == 0.0
    ensures Sum(Scale(s, c)) == 0.0
  {
    SumScale(s, c);
  }

  /** The residuals weighted by the x deviations split the same way as the residuals themselves. */
  lemma ResidualWeighted(xs: seq<real>, ys: seq<real>, line: Line, mx: real, my: real)
    requires |xs| == |ys|
    ensures Dot(Deviations(xs, mx), Residuals(xs, ys, line)) ==
      Dot(Deviations(xs, mx), Deviations(ys, my)) - Dot(Deviations(xs, mx), Scale(Deviations(xs, mx), line.slope))
      - Mul(Height(line, mx, my), Sum(Deviations(xs, mx)))
  {
    ResidualsSplit(xs, ys, line, mx, my);
    DotOffset(Deviations(xs, mx), Deviations(ys, my), Scale(Deviations(xs, mx), line.slope),
              Residuals(xs, ys, line), Height(line, mx, my));
  }

  /** Used by `ResidualCross`: weighting the scaled deviations by the deviations gives the scaled spread. */
  lemma DotScaledDeviations(xs: seq<real>, mx: real, c: real)
    ensures Dot(Deviations(xs, mx), Scale(Deviations(xs, mx), c)) == Mul(c, SquaredDeviation(xs, mx))
  {
    var dx := Deviations(xs, mx);
    forall i | 0 <= i < |dx|
      ensures Scale(dx, c)[i] == Mul(c, dx[i])
    {
      ScaleAt(dx, c, i);
    }
    DotScaled(dx, dx, Scale(dx, c), c);
    SquaresAsDot(xs, mx);
  }

  /** Used by `ResidualCross`: a term whose second factor vanishes drops out, and equal totals substitute. */
  lemma DropVanishing(r: real, u: real, v: real, h: real, z: real, cross: real, w: real)
    requires r == u - v - Mul(h, z) && z == 0.0 && u == cross && v == w
    ensures r == cross - w
  {
  }

  /** With x deviations that sum to zero, the residuals weighted by them sum to the cross sum less slope times spread. */
  lemma ResidualCross(xs: seq<real>, ys: seq<real>, line: Line, mx: real, my: real)
    requires |xs| == |ys|
    requires Sum(Deviations(xs, mx)) == 0.0
    ensures Dot(Deviations(xs, mx), Residuals(xs, ys, line)) ==
      Cross(xs, ys, mx, my) - Mul(line.slope, SquaredDeviation(xs, mx))
  {
    ResidualWeighted(xs, ys, line, mx, my);
    DotScaledDeviations(xs, mx, line.slope);
    CrossAsDot(xs, ys, mx, my);
    DropVanishing(Dot(Deviations(xs, mx), Residuals(xs, ys, line)),
                  Dot(Deviations(xs, mx), Deviations(ys, my)),
                  Dot(Deviations(xs, mx), Scale(Deviations(xs, mx), line.slope)),
                  Height(line, mx, my), Sum(Deviations(xs, mx)),
                  Cross(xs, ys, mx, my), Mul(line.slope, SquaredDeviation(xs, mx)));
  }

  /** Used by `ResidualsSplit`: a factor distributes over a difference. */
  lemma MulSub(a: real, x: real, m: real)
    ensures Mul(a, x - m) == Mul(a, x) - Mul(a, m)
  {
  }

  /** The deviations from `m` sum to the sum less `|s|` times `m`. */
  lemma {:induction false} SumDeviations(s: seq<real>, m: real)
    ensures Sum(Deviations(s, m)) == Sum(s) - |s| as real * m
  {
    if |s| > 0 {
      var n := |s| - 1;
      SumDeviations(s[..n], m);
      assert Deviations(s, m)[..n] == Deviations(s[..n], m);
      assert (n as real + 1.0) * m == n as real * m + m;
    }
  }

  /** The deviations from the mean sum to zero. */
  lemma DeviationsFromMean(s: seq<real>)
    requires |s| > 0
    ensures Sum(Deviations(s, Mean(s))) == 0.0
  {
    SumDeviations(s, Mean(s));
    var n := |s| as real;
    assert n * (Sum(s) / n) == Sum(s);
  }

  /** Used by `SumOffset` and `DotOffset`: one more term of a combination `u - v - c*s`. */
  lemma OffsetStep(r0: real, u0: real, v0: real, s0: real, ru: real, uu: real, vu: real, su: real, c: real,
                   r: real, u: real, v: real, s: real)
    requires r0 == u0 - v0 - Mul(c, s0) && ru == uu - vu - Mul(c, su)
    requires r == r0 + ru && u == u0 + uu && v == v0 + vu && s == s0 + su
    ensures r == u - v - Mul(c, s)
  {
  }

  /** When `rs[i]` is `us[i] - vs[i] - c` entry by entry, the sums combine the same way. */
  lemma {:induction false} SumOffset(us: seq<real>, vs: seq<real>, rs: seq<real>, c: real, n: nat)
    requires |us| == |vs| == |rs| == n
    requires forall i :: 0 <= i < |rs| ==> rs[i] == us[i] - vs[i] - c
    ensures Sum(rs) == Sum(us) - Sum(vs) - Mul(c, n as real)
  {
    if n > 0 {
      var k := n - 1;
      SumOffset(us[..k], vs[..k], rs[..k], c, k);
      OffsetStep(Sum(rs[..k]), Sum(us[..k]), Sum(vs[..k]), k as real, rs[k], us[k], vs[k], 1.0, c,
                 Sum(rs), Sum(us), Sum(vs), n as real);
    }
  }

  /** Used by `DotOffset`: one product term of the combination. */
  lemma ProductOffset(d: real, u: real, v: real, c: real, r: real)
    requires r == u - v - c
    ensures Mul(d, r) == Mul(d, u) - Mul(d, v) - Mul(c, d)
  {
  }

  /** When `rs[i]` is `us[i] - vs[i] - c` entry by entry, dot products with `ds` combine the same way. */
  lemma {:induction false} DotOffset(ds: seq<real>, us: seq<real>, vs: seq<real>, rs: seq<real>, c: real)
    requires |ds| == |us| == |vs| == |rs|
    requires forall i :: 0 <= i < |rs| ==> rs[i] == us[i] - vs[i] - c
    ensures Dot(ds, rs) == Dot(ds, us) - Dot(ds, vs) - Mul(c, Sum(ds))
  {
    if |rs| > 0 {
      var n := |rs| - 1;
      DotOffset(ds[..n], us[..n], vs[..n], rs[..n], c);
      ProductOffset(ds[n], us[n], vs[n], c, rs[n]);
      OffsetStep(Dot(ds[..n], rs[..n]), Dot(ds[..n], us[..n]), Dot(ds[..n], vs[..n]), Sum(ds[..n]),
                 Mul(ds[n], rs[n]), Mul(ds[n], us[n]), Mul(ds[n], vs[n]), ds[n], c,
                 Dot(ds, rs), Dot(ds, us), Dot(ds, vs), Sum(ds));
    }
  }

  /** Used by `DotScaled`: one product term of a scaled list. */
  lemma ScaledProduct(d: real, w: real, v: real, a: real)
    requires v == Mul(a, w)
    ensures Mul(d, v) == Mul(a, Mul(d, w))
  {
  }

  /** When `vs` is `a` times `ws` entry by entry, its dot product with `ds` is `a` times that of `ws`. */
  lemma {:induction false} DotScaled(ds: seq<real>, ws: seq<real>, vs: seq<real>, a: real)
    requires |ds| == |ws| == |vs|
    requires forall i :: 0 <= i < |vs| ==> vs[i] == Mul(a, ws[i])
    ensures Dot(ds, vs) == Mul(a, Dot(ds, ws))
  {
    if |vs| > 0 {
      var n := |vs| - 1;
      DotScaled(ds[..n], ws[..n], vs[..n], a);
      ScaledProduct(ds[n], ws[n], vs[n], a);
      StepCombine(Dot(ds[..n], vs[..n]), Dot(ds[..n], ws[..n]), Mul(ds[n], vs[n]), Mul(ds[n], ws[n]), a,
                  Dot(ds, vs), Dot(ds, ws));
    }
  }

  /** `np.average` of samples that all lie in `[lo, hi]` lies in `[lo, hi]` too. */
  lemma MeanWithin(s: seq<real>, lo: real, hi: real)
    requires |s| > 0
    requires forall i :: 0 <= i < |s| ==> lo <= s[i] <= hi
    ensures lo <= Mean(s) <= hi
  {
    SumWithin(s, lo, hi);
    var n := |s| as real;
    assert n * lo <= Sum(s) <= n * hi;
    assert (n * lo) / n == lo && (n * hi) / n == hi;
  }

  /** Used by `MeanWithin`: `|s|` samples in `[lo, hi]` sum to between `|s| * lo` and `|s| * hi`. */
  lemma {:induction false} SumWithin(s: seq<real>, lo: real, hi: real)
    requires forall i :: 0 <= i < |s| ==> lo <= s[i] <= hi
    ensures |s| as real * lo <= Sum(s) <= |s| as real * hi
  {
    if |s| > 0 {
      var n := |s| - 1;
      SumWithin(s[..n], lo, hi);
      assert (n as real + 1.0) * lo == n as real * lo + lo;
      assert (n as real + 1.0) * hi == n as real * hi + hi;
    }
  }

  /** On a line `y = a*x + b`, deviations from the means are proportional with factor `a`. */
  lemma DeviationsProportional(xs: seq<real>, ys: seq<real>, a: real, b: real)
    requires OnLine(xs, ys, a, b) && |xs| > 0
    requires Mean(ys) == a * Mean(xs) + b
    ensures forall i :: 0 <= i < |xs| ==> ys[i] - Mean(ys) == Mul(a, xs[i] - Mean(xs))
  {
    var mx, my := Mean(xs), Mean(ys);
    forall i | 0 <= i < |xs|
      ensures ys[i] - my == Mul(a, xs[i] - mx)
    {
      assert ys[i] - my == a * xs[i] + b - (a * mx + b);
    }
  }

  /** Used by `CollinearSlope`: dividing `a * d` by `d` gives back `a`. */
  lemma Cancel(c: real, d: real, a: real)
    requires d != 0.0 && c == Mul(a, d)
    ensures c / d == a
  {
  }
}
