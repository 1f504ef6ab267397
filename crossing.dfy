/**
 * The threshold-crossing estimate `calcTOA` that both scripts carry a copy of.
 * The copies differ only in the averaging window around the peak and in how far
 * the fit window reaches past the crossing, so the shared steps live here and
 * each script instantiates them with its own offsets:
 *
 *   1. `peakLoc` is the first position of the maximum sample;
 *   2. the level is `peak * perc` ('fixed') or `perc` times the average of the
 *      samples from `peakLoc - before` up to `peakLoc + after` ('calc');
 *   3. `indexRight` is the left insertion point of the level in the samples
 *      before the peak, and `indexLeft = indexRight - 1`;
 *   4. a line is fitted to the samples from `indexLeft - n` up to
 *      `indexRight + n + extra`, and the estimate is where it reaches the level.
 */
module Crossing {
  import opened Wrappers
  import opened PySemantics
  import opened Numeric

  datatype Method = Fixed | Calc

  /**
   * Why no finite estimate comes out. `EmptyPulse` is `np.argmax` raising on an
   * empty pulse; `EmptyAverage` is the NaN that `np.average` yields for an empty
   * window; `FitFailed` is `np.polyfit` raising or warning; `ZeroSlope` is the
   * division by a zero slope, which yields +inf, -inf or NaN according to the sign
   * of `excess`, the level minus the intercept.
   */
  datatype TOAError = EmptyPulse | EmptyAverage | FitFailed(cause: FitError) | ZeroSlope(excess: real)

  /** The threshold level in either mode. */
  function Level(m: Method, y: seq<real>, peakLoc: nat, peak: real, perc: real, before: nat, after: nat)
    : (r: Result<real, TOAError>)
    ensures m == Fixed ==> r == Success(peak * perc)
    ensures m == Calc && before <= peakLoc && peakLoc + after <= |y| && 0 < before + after ==>
      r == Success(Mul(Mean(y[peakLoc - before..peakLoc + after]), perc))
    ensures m == Calc && peakLoc < before && before + after <= |y| ==> r == Failure(EmptyAverage)
  {
    if m == Fixed then Success(peak * perc)
    else
      var window := Slice(y, peakLoc - before, peakLoc + after);
      if |window| == 0 then Failure(EmptyAverage) else Success(Mul(Mean(window), perc))
  }

  /** `indexRight`: where the level would be inserted among the samples before the peak. */
  function IndexRight(y: seq<real>, peakLoc: nat, level: real): (right: nat)
    requires peakLoc <= |y|
    ensures right <= peakLoc
  {
    SearchSorted(y[..peakLoc], level)
  }

  /**
   * On a rising edge, `indexRight` is the first sample before the peak that reaches
   * the level, or the peak itself when none does; `indexLeft` is the last sample
   * still below the level.
   */
  lemma CrossingIndex(y: seq<real>, peakLoc: nat, level: real)
    requires peakLoc <= |y| && NonDecreasing(y[..peakLoc])
    ensures forall j :: 0 <= j < IndexRight(y, peakLoc, level) ==> y[j] < level
    ensures IndexRight(y, peakLoc, level) < peakLoc ==> level <= y[IndexRight(y, peakLoc, level)]
  {
    var prefix := y[..peakLoc];
    SearchSortedLeftmost(prefix, level);
    var right := IndexRight(y, peakLoc, level);
    forall j | 0 <= j < right
      ensures y[j] < level
    {
      assert prefix[j] == y[j];
    }
    if right < peakLoc {
      assert prefix[right] == y[right];
    }
  }

  /** The samples `s[indexLeft - n : indexRight + n + extra]` handed to the line fit. */
  function FitWindow<T>(s: seq<T>, right: nat, n: nat, extra: nat): (w: seq<T>)
    ensures n + 1 <= right && right + n + extra <= |s| ==>
      w == s[right - 1 - n..right + n + extra] && |w| == 2 * n + 1 + extra
  {
    Slice(s, right - 1 - n, right + n + extra)
  }

  /**
   * When the first sample already reaches the level, `indexLeft` is -1, the fit
   * window's start wraps to the end of the pulse and the window is empty.
   */
  lemma WrappedFitWindow<T>(s: seq<T>, n: nat, extra: nat)
    requires 2 * n + 1 + extra <= |s|
    ensures FitWindow(s, 0, n, extra) == []
  {
  }

  /**
   * The whole estimate; `EstimateReaches` states what a successful result means
   * and `NaNLevel` what follows an empty averaging window.
   */
  function Estimate(m: Method, x: seq<real>, y: seq<real>, n: nat, peak: real, perc: real,
                    before: nat, after: nat, extra: nat): (r: Result<real, TOAError>)
    ensures |y| == 0 ==> r == Failure(EmptyPulse)
  {
    if |y| == 0 then Failure(EmptyPulse)
    else
      var peakLoc := ArgMax(y);
      var level := Level(m, y, peakLoc, peak, perc, before, after);
      if level.Failure? then
        // The level is NaN. Every sample before the peak sorts below NaN, so
        // `indexRight` is `peakLoc` and the fit runs on the window around it; an
        // exception from that fit escapes, otherwise the estimate is NaN.
        var fit := FitLine(FitWindow(x, peakLoc, n, extra), FitWindow(y, peakLoc, n, extra));
        if fit.Failure? && !fit.error.RankDeficient? then Failure(FitFailed(fit.error))
        else Failure(level.error)
      else
        var right := IndexRight(y, peakLoc, level.value);
        var fit := FitLine(FitWindow(x, right, n, extra), FitWindow(y, right, n, extra));
        if fit.Failure? then Failure(FitFailed(fit.error))
        else Solve(level.value, fit.value)
  }

  /**
   * After an empty averaging window no estimate comes out: the estimate raises
   * exactly when the samples fitted around the peak are empty or do not pair up,
   * and is the NaN level otherwise.
   */
  lemma NaNLevel(m: Method, x: seq<real>, y: seq<real>, n: nat, peak: real, perc: real,
                 before: nat, after: nat, extra: nat)
    requires |y| > 0 && Level(m, y, ArgMax(y), peak, perc, before, after).Failure?
    ensures Estimate(m, x, y, n, peak, perc, before, after, extra).Failure?
    ensures
      var xs := FitWindow(x, ArgMax(y), n, extra);
      var ys := FitWindow(y, ArgMax(y), n, extra);
      var e := Estimate(m, x, y, n, peak, perc, before, after, extra).error;
      (e.FitFailed? <==> |xs| == 0 || |xs| != |ys|) && (!e.FitFailed? ==> e == EmptyAverage)
  {
    var xs := FitWindow(x, ArgMax(y), n, extra);
    var ys := FitWindow(y, ArgMax(y), n, extra);
    if |xs| == 0 {
      assert FitLine(xs, ys) == Failure(EmptyData);
    } else if |xs| != |ys| {
      assert FitLine(xs, ys) == Failure(LengthMismatch);
    } else {
      assert FitLine(xs, ys).Success? || FitLine(xs, ys).error == RankDeficient;
    }
  }

  /** The last step of the estimate: where the fitted line reaches the level. */
  function Solve(level: real, line: Line): (r: Result<real, TOAError>)
    ensures r.Success? ==> line.slope != 0.0 && Mul(line.slope, r.value) + line.intercept == level
  {
    if line.slope == 0.0 then Failure(ZeroSlope(level - line.intercept))
    else
      Reaches(level, line);
      Success((level - line.intercept) / line.slope)
  }

  /** A successful estimate is where the line fitted around the crossing reaches the level. */
  lemma EstimateReaches(m: Method, x: seq<real>, y: seq<real>, n: nat, peak: real, perc: real,
                        before: nat, after: nat, extra: nat)
    requires Estimate(m, x, y, n, peak, perc, before, after, extra).Success?
    ensures |y| > 0 && Level(m, y, ArgMax(y), peak, perc, before, after).Success?
    ensures
      var level := Level(m, y, ArgMax(y), peak, perc, before, after).value;
      var right := IndexRight(y, ArgMax(y), level);
      var fit := FitLine(FitWindow(x, right, n, extra), FitWindow(y, right, n, extra));
      fit.Success? && fit.value.slope != 0.0 &&
      Mul(fit.value.slope, Estimate(m, x, y, n, peak, perc, before, after, extra).value) + fit.value.intercept == level
  {
    var level := Level(m, y, ArgMax(y), peak, perc, before, after);
    assert level.Success?;
    var right := IndexRight(y, ArgMax(y), level.value);
    var fit := FitLine(FitWindow(x, right, n, extra), FitWindow(y, right, n, extra));
    assert Estimate(m, x, y, n, peak, perc, before, after, extra) == Solve(level.value, fit.value);
  }

  /** A line that is not flat reaches `level` at `(level - intercept) / slope`. */
  lemma Reaches(level: real, line: Line)
    requires line.slope != 0.0
    ensures Mul(line.slope, (level - line.intercept) / line.slope) + line.intercept == level
  {
  }

  /**
   * When the fitted samples lie exactly on a line `y = a*x + b` that is not flat,
   * the estimate is the exact time at which that line reaches the level.
   */
  lemma CollinearCrossing(m: Method, x: seq<real>, y: seq<real>, n: nat, peak: real, perc: real,
                          before: nat, after: nat, extra: nat, a: real, b: real)
    requires |y| > 0 && a != 0.0
    requires Level(m, y, ArgMax(y), peak, perc, before, after).Success?
    requires
      var right := IndexRight(y, ArgMax(y), Level(m, y, ArgMax(y), peak, perc, before, after).value);
      var xs := FitWindow(x, right, n, extra);
      var ys := FitWindow(y, right, n, extra);
      OnLine(xs, ys, a, b) && Spread(xs)
    ensures Estimate(m, x, y, n, peak, perc, before, after, extra).Success?
    ensures Mul(a, Estimate(m, x, y, n, peak, perc, before, after, extra).value) + b ==
      Level(m, y, ArgMax(y), peak, perc, before, after).value
  {
    var level := Level(m, y, ArgMax(y), peak, perc, before, after).value;
    var right := IndexRight(y, ArgMax(y), level);
    var xs := FitWindow(x, right, n, extra);
    var ys := FitWindow(y, right, n, extra);
    CollinearFit(xs, ys, a, b);
  }
}
