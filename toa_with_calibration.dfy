/**
 * The analysis pass (TOA_withCalibration.py): each event's sample times are
 * replaced by a calibrated time axis built from the cell-width tables of the
 * calibration pass, both channels are timed with the 'calc' threshold on that
 * axis, and the channel-0 minus channel-3 difference is collected per event.
 */
module TOAWithCalibration {
  import opened Wrappers
  import opened PySemantics
  import opened Numeric
  import opened Capture
  import opened Crossing

  /** `csvReader(inputFile, 1000)`; progress is reported every 1000 events. */
  const NumEvents: nat := 1000
  const ReportEvery: nat := 1000

  /** The calls `calcTOA('calc', x, y, 2, peak = 400, perc = 0.71)`. */
  const HalfWidth: nat := 2
  const CalcPeak: real := 400.0
  const CalcPerc: real := 0.71

  /** The uncalibrated axis is the sample time times 100. */
  const UncalibratedScale: real := 100.0

  // ---------------------------------------------------------------------------
  // calcTOA: five-sample average, fit window [indexLeft - n, indexRight + n + 1)
  // ---------------------------------------------------------------------------

  /** This script's `calcTOA`: averages `pulsey[peakLoc-2 : peakLoc+3]`, fits up to `indexRight + n + 1`. */
  function CalcTOA(m: Method, x: seq<real>, y: seq<real>, n: nat, peak: real, perc: real): (r: Result<real, TOAError>)
    ensures |y| == 0 ==> r == Failure(EmptyPulse)
    ensures r.Success? ==> |y| > 0 && Level(m, y, ArgMax(y), peak, perc, 2, 3).Success?
    ensures r.Success? ==>
      var level := Level(m, y, ArgMax(y), peak, perc, 2, 3).value;
      var right := IndexRight(y, ArgMax(y), level);
      var fit := FitLine(FitWindow(x, right, n, 1), FitWindow(y, right, n, 1));
      fit.Success? && fit.value.slope != 0.0 && Mul(fit.value.slope, r.value) + fit.value.intercept == level
  {
    var r := Estimate(m, x, y, n, peak, perc, 2, 3, 1);
    if r.Success? then
      EstimateReaches(m, x, y, n, peak, perc, 2, 3, 1);
      r
    else r
  }

  /** In 'calc' mode the level is `perc` times the mean of the five samples centred on the peak. */
  lemma FiveSampleAverage(y: seq<real>, peak: real, perc: real)
    requires |y| > 0 && 2 <= ArgMax(y) && ArgMax(y) + 3 <= |y|
    ensures |y[ArgMax(y) - 2..ArgMax(y) + 3]| == 5
    ensures Level(Calc, y, ArgMax(y), peak, perc, 2, 3) == Success(Mul(Mean(y[ArgMax(y) - 2..ArgMax(y) + 3]), perc))
  {
  }

  /** A peak in the first two samples wraps the averaging slice around and leaves it empty. */
  lemma EarlyPeakAverage(y: seq<real>, peak: real, perc: real)
    requires |y| >= 5 && ArgMax(y) < 2
    ensures Level(Calc, y, ArgMax(y), peak, perc, 2, 3) == Failure(EmptyAverage)
  {
  }

  /**
   * With six samples or more, the same early peak makes `calcTOA` raise: the NaN
   * level sends `indexRight` to the peak, the fit slice wraps round and is empty,
   * and `np.polyfit` rejects it.
   */
  lemma EarlyPeakRaises(x: seq<real>, y: seq<real>, peak: real, perc: real)
    requires |y| >= 6 && ArgMax(y) < 2
    ensures CalcTOA(Calc, x, y, HalfWidth, peak, perc).Failure?
    ensures Raises(CalcTOA(Calc, x, y, HalfWidth, peak, perc).error)
  {
    EarlyPeakAverage(y, peak, perc);
    var p: int := ArgMax(y);
    assert SliceBound(p - 3, |y|) >= SliceBound(p + 3, |y|);
    assert FitWindow(y, p, HalfWidth, 1) == [];
    NaNLevel(Calc, x, y, HalfWidth, peak, perc, 2, 3, 1);
  }

  /** The fit window holds `2n + 2` samples when it lies inside the pulse, as the comment promises. */
  lemma FitWindowHolds2nPlus2(s: seq<real>, right: nat, n: nat)
    requires n + 1 <= right && right + n + 1 <= |s|
    ensures |FitWindow(s, right, n, 1)| == 2 * n + 2
    ensures FitWindow(s, right, n, 1) == s[right - 1 - n..right + n + 1]
  {
  }

  /** Samples on a line `y = a*x + b` around the crossing give the exact crossing time. */
  lemma CollinearTOA(m: Method, x: seq<real>, y: seq<real>, n: nat, peak: real, perc: real, a: real, b: real)
    requires |y| > 0 && a != 0.0
    requires Level(m, y, ArgMax(y), peak, perc, 2, 3).Success?
    requires
      var right := IndexRight(y, ArgMax(y), Level(m, y, ArgMax(y), peak, perc, 2, 3).value);
      OnLine(FitWindow(x, right, n, 1), FitWindow(y, right, n, 1), a, b) && Spread(FitWindow(x, right, n, 1))
    ensures CalcTOA(m, x, y, n, peak, perc).Success?
    ensures Mul(a, CalcTOA(m, x, y, n, peak, perc).value) + b == Level(m, y, ArgMax(y), peak, perc, 2, 3).value
  {
    CollinearCrossing(m, x, y, n, peak, perc, 2, 3, 1, a, b);
  }

  // ---------------------------------------------------------------------------
  // fixTimeAxis
  // ---------------------------------------------------------------------------

  /** A row of a calibration table as written by the calibration pass: the cell index and its width. */
  datatype CalibRow = CalibRow(index: real, width: real)

  /** `table[:, 1]`: the widths column. */
  function Widths(rows: seq<CalibRow>): (w: seq<real>)
    ensures |w| == |rows|
    ensures forall i :: 0 <= i < |rows| ==> w[i] == rows[i].width
  {
    seq(|rows|, i requires 0 <= i < |rows| => rows[i].width)
  }

  /**
   * The cell widths of two consecutive windows, starting with the start window's
   * parity: even-then-odd when `startWin % 2 == 0`, odd-then-even when it is 1,
   * and no pattern at all when the remainder is neither.
   */
  function Pattern(startWin: real, even: seq<real>, odd: seq<real>): (p: Option<seq<real>>)
    ensures startWin == startWin.Floor as real && startWin.Floor % 2 == 0 ==> p == Some(even + odd)
    ensures startWin == startWin.Floor as real && startWin.Floor % 2 == 1 ==> p == Some(odd + even)
    ensures startWin != startWin.Floor as real ==> p == None
  {
    var parity := FMod(startWin, 2.0);
    WindowParity(startWin.Floor);
    var q := (startWin - parity) / 2.0;
    assert q == q.Floor as real;
    if parity == 0.0 || parity == 1.0 then
      assert startWin == 2.0 * q + parity;
      assert startWin == (2 * q.Floor + parity.Floor) as real;
      if parity == 0.0 then Some(even + odd) else Some(odd + even)
    else None
  }

  /** `(n as real / d as real).Floor` is the integer quotient `n / d`. */
  lemma FloorOfQuotient(n: int, d: nat)
    requires d > 0
    ensures (n as real / d as real).Floor == n / d
  {
    var q := n / d;
    var r := n % d;
    assert n == d * q + r;
    assert n as real == d as real * q as real + r as real;
    assert n as real / d as real == q as real + r as real / d as real;
  }

  /** Python's `int(n / d)` on naturals is the integer quotient. */
  lemma TruncOfQuotient(n: nat, d: nat)
    requires d > 0
    ensures Trunc(n as real / d as real) == n / d
  {
    FloorOfQuotient(n, d);
  }

  /** A window number `k` stored as a float has `k % 2` equal to the parity of `k`. */
  lemma WindowParity(k: int)
    ensures FMod(k as real, 2.0) == (k % 2) as real
  {
    FloorOfQuotient(k, 2);
  }

  /**
   * The running-sum axis after `k` appends of pattern entries: it starts at 0 and
   * each append adds the next entry, going round the pattern.
   */
  function Axis(dt: seq<real>, k: nat): (xs: seq<real>)
    requires k == 0 || |dt| > 0
    ensures |xs| == k + 1 && xs[0] == 0.0
  {
    if k == 0 then [0.0]
    else
      var prev := Axis(dt, k - 1);
      prev + [dt[(k - 1) % |dt|] + prev[k - 1]]
  }

  /** The axis `fixTimeAxis` returns for an event of `len` samples. */
  function TimeAxis(len: nat, startWin: real, even: seq<real>, odd: seq<real>): (xs: seq<real>)
    ensures |xs| >= 1 && xs[0] == 0.0
  {
    match Pattern(startWin, even, odd)
    case None => [0.0]
    case Some(dt) => Axis(dt, Steps(|dt|, (len / 64) / 2))
  }

  /** The number of appends: one per pattern entry for each pair of windows. */
  function Steps(width: nat, pairs: nat): (k: nat)
    ensures width == 0 ==> k == 0
  {
    if pairs == 0 then 0 else width + Steps(width, pairs - 1)
  }

  /** The number of appends is the product of the pattern width and the number of window pairs. */
  lemma {:induction false} StepsProduct(width: nat, pairs: nat)
    ensures Steps(width, pairs) == pairs * width
  {
    if pairs > 0 {
      StepsProduct(width, pairs - 1);
      assert (pairs - 1) * width + width == pairs * width;
    }
  }

  /** Appending pattern entries `pairs` times round: the nested loops of `fixTimeAxis`. */
  method RunningSum(dt: seq<real>, pairs: nat) returns (xNew: seq<real>)
    ensures xNew == Axis(dt, pairs * |dt|)
  {
    xNew := [0.0];
    var i := 0;
    while i < pairs
      invariant i <= pairs
      invariant xNew == Axis(dt, i * |dt|)
    {
      for j := 0 to |dt|
        invariant xNew == Axis(dt, i * |dt| + j)
      {
        var xLast := xNew[|xNew| - 1];
        OffsetInPattern(i, |dt|, j);
        xNew := xNew + [dt[j] + xLast];
      }
      assert i * |dt| + |dt| == (i + 1) * |dt|;
      i := i + 1;
    }
  }

  /** Used by `RunningSum` and `AxisPartialPass`: append `i * len + j` takes pattern entry `j`. */
  lemma OffsetInPattern(i: nat, len: nat, j: nat)
    requires j < len
    ensures (i * len + j) % len == j
  {
    var a := i * len + j;
    var q := a / len;
    var r := a % len;
    assert len * q + r == a;
    assert len * (q - i) == j - r;
    MultipleBeyond(len, q - i);
  }

  /** Used by `OffsetInPattern`: a non-zero multiple of `len` is at least `len` away from zero. */
  lemma {:induction false} MultipleBeyond(len: nat, d: int)
    ensures d >= 1 ==> len * d >= len
    ensures d <= -1 ==> len * d + len <= 0
    decreases if d < 0 then -d else d
  {
    if d > 1 {
      MultipleBeyond(len, d - 1);
      assert len * d == len * (d - 1) + len;
    } else if d < -1 {
      MultipleBeyond(len, d + 1);
      assert len * d == len * (d + 1) - len;
    }
  }

  /** `fixTimeAxis(x, startWin, dtEven, dtOdd)`. */
  method FixTimeAxis(x: seq<real>, startWin: real, dtEven: seq<CalibRow>, dtOdd: seq<CalibRow>)
    returns (xNew: seq<real>)
    ensures xNew == TimeAxis(|x|, startWin, Widths(dtEven), Widths(dtOdd))
  {
    TruncOfQuotient(|x|, 64);
    var totalWindows := Trunc(|x| as real / 64.0);
    TruncOfQuotient(totalWindows, 2);
    var pairs := Trunc(totalWindows as real / 2.0);
    var evenTime := Widths(dtEven);
    var oddTime := Widths(dtOdd);
    xNew := [0.0];
    if FMod(startWin, 2.0) == 0.0 {
      var dt := evenTime + oddTime;
      xNew := RunningSum(dt, pairs);
      AxisOfPattern(|x|, startWin, evenTime, oddTime, dt, pairs);
    }
    if FMod(startWin, 2.0) == 1.0 {
      var dt := oddTime + evenTime;
      xNew := RunningSum(dt, pairs);
      AxisOfPattern(|x|, startWin, evenTime, oddTime, dt, pairs);
    }
  }

  /** The rebuilt axis for a pattern `dt` and `pairs` window pairs. */
  lemma AxisOfPattern(len: nat, startWin: real, even: seq<real>, odd: seq<real>, dt: seq<real>, pairs: nat)
    requires pairs == (len / 64) / 2 && Pattern(startWin, even, odd) == Some(dt)
    ensures TimeAxis(len, startWin, even, odd) == Axis(dt, pairs * |dt|)
  {
    StepsProduct(|dt|, pairs);
  }

  /** A shorter axis is a prefix of a longer one. */
  lemma {:induction false} AxisPrefix(dt: seq<real>, j: nat, k: nat)
    requires j <= k && (k == 0 || |dt| > 0)
    ensures Axis(dt, k)[..j + 1] == Axis(dt, j)
    decreases k
  {
    if j < k {
      AxisPrefix(dt, j, k - 1);
      assert Axis(dt, k)[..k] == Axis(dt, k - 1);
      assert Axis(dt, k)[..j + 1] == Axis(dt, k)[..k][..j + 1];
    }
  }

  /** Each step of the axis is the pattern entry at that position, going round the pattern. */
  lemma AxisStep(dt: seq<real>, k: nat, j: nat)
    requires j < k && |dt| > 0
    ensures Axis(dt, k)[j + 1] - Axis(dt, k)[j] == dt[j % |dt|]
  {
    AxisPrefix(dt, j + 1, k);
    assert Axis(dt, k)[j + 1] == Axis(dt, j + 1)[j + 1];
    assert Axis(dt, k)[j] == Axis(dt, j + 1)[j];
    AxisPrefix(dt, j, j + 1);
  }

  /** With every width equal to `c`, the axis is `0, c, 2c, ...`. */
  lemma {:induction false} AxisUniform(dt: seq<real>, c: real, k: nat)
    requires |dt| > 0 && forall i :: 0 <= i < |dt| ==> dt[i] == c
    ensures forall i :: 0 <= i <= k ==> Axis(dt, k)[i] == i as real * c
  {
    if k > 0 {
      AxisUniform(dt, c, k - 1);
      var prev := Axis(dt, k - 1);
      assert Axis(dt, k)[k] == c + prev[k - 1];
      assert (k - 1) as real * c + c == k as real * c;
    }
  }

  /** With every width positive, the axis is strictly increasing. */
  lemma {:induction false} AxisIncreasing(dt: seq<real>, k: nat)
    requires |dt| > 0 && forall i :: 0 <= i < |dt| ==> dt[i] > 0.0
    ensures forall i, j :: 0 <= i < j <= k ==> Axis(dt, k)[i] < Axis(dt, k)[j]
  {
    if k > 0 {
      AxisIncreasing(dt, k - 1);
      var prev := Axis(dt, k - 1);
      assert forall i :: 0 <= i < k ==> Axis(dt, k)[i] == prev[i];
      assert prev[k - 1] < Axis(dt, k)[k];
    }
  }

  /** After `m` entries of a pass round the pattern the axis has grown by the sum of those entries. */
  lemma {:induction false} AxisPartialPass(dt: seq<real>, k: nat, p: nat, m: nat)
    requires |dt| > 0 && m <= |dt| && p * |dt| + m <= k
    ensures Axis(dt, k)[p * |dt| + m] == Axis(dt, k)[p * |dt|] + Sum(dt[..m])
  {
    if m > 0 {
      AxisPartialPass(dt, k, p, m - 1);
      AxisStep(dt, k, p * |dt| + m - 1);
      OffsetInPattern(p, |dt|, m - 1);
      assert dt[..m][..m - 1] == dt[..m - 1];
    } else {
      assert dt[..0] == [];
    }
  }

  /**
   * Every whole pass round the pattern adds the sum of the pattern to the axis;
   * `AxisWindowPairs` turns this into two window lengths per pass.
   */
  lemma {:induction false} AxisWholePasses(dt: seq<real>, k: nat, p: nat)
    requires |dt| > 0 && p * |dt| <= k
    ensures Axis(dt, k)[p * |dt|] == p as real * Sum(dt)
  {
    if p > 0 {
      assert (p - 1) * |dt| + |dt| == p * |dt|;
      AxisWholePasses(dt, k, p - 1);
      AxisPartialPass(dt, k, p - 1, |dt|);
      SameEntry(Axis(dt, k), (p - 1) * |dt| + |dt|, p * |dt|);
      assert dt[..|dt|] == dt;
      OneMoreTime(p, Sum(dt));
    }
  }

  /**
   * With two rescaled tables of 6400 ps each, in either order, the axis at the
   * start of pass `p` is `p` times the 12800 ps of a window pair.
   */
  lemma AxisWindowPairs(first: seq<real>, second: seq<real>, k: nat, p: nat)
    requires |first| + |second| > 0 && p * (|first| + |second|) <= k
    requires Sum(first) == 6400.0 && Sum(second) == 6400.0
    ensures Axis(first + second, k)[p * (|first| + |second|)] == p as real * 12800.0
  {
    SumAppend(first, second);
    AxisWholePasses(first + second, k, p);
  }

  /** Used by `AxisWholePasses`: `p - 1` passes plus one more make `p`. */
  lemma OneMoreTime(p: nat, s: real)
    requires p > 0
    ensures (p - 1) as real * s + s == p as real * s
  {
  }

  /** Used by `AxisWholePasses`: two equal positions name the same entry. */
  lemma SameEntry(xs: seq<real>, i: nat, j: nat)
    requires i == j < |xs|
    ensures xs[i] == xs[j]
  {
  }

  /** The length of the axis depends only on the number of samples: one plus a pattern per window pair. */
  lemma TimeAxisLength(len: nat, startWin: real, even: seq<real>, odd: seq<real>)
    ensures Pattern(startWin, even, odd).Some? ==>
      |TimeAxis(len, startWin, even, odd)| == 1 + (|even| + |odd|) * ((len / 64) / 2)
    ensures Pattern(startWin, even, odd).None? ==> TimeAxis(len, startWin, even, odd) == [0.0]
  {
    StepsProduct(|even| + |odd|, (len / 64) / 2);
  }

  /** A trailing window without a partner adds nothing to the axis. */
  lemma TrailingWindowDropped(pairs: nat, rest: nat, startWin: real, even: seq<real>, odd: seq<real>)
    requires rest < 128
    ensures TimeAxis(128 * pairs + rest, startWin, even, odd) == TimeAxis(128 * pairs, startWin, even, odd)
  {
    assert (128 * pairs + rest) / 64 / 2 == pairs;
    assert (128 * pairs) / 64 / 2 == pairs;
  }

  /** With 64-cell tables and whole window pairs, the axis has one point more than the event has samples. */
  lemma FullAxisLength(len: nat, startWin: real, even: seq<real>, odd: seq<real>)
    requires |even| == 64 && |odd| == 64 && len % 128 == 0
    requires Pattern(startWin, even, odd).Some?
    ensures |TimeAxis(len, startWin, even, odd)| == len + 1
  {
    assert len / 64 / 2 == len / 128;
    assert 128 * (len / 128) == len;
    StepsProduct(128, len / 128);
  }

  /** Tables whose widths are all `c` give the evenly spaced axis `0, c, 2c, ...`. */
  lemma UniformTables(len: nat, startWin: real, even: seq<real>, odd: seq<real>, c: real)
    requires forall i :: 0 <= i < |even| ==> even[i] == c
    requires forall i :: 0 <= i < |odd| ==> odd[i] == c
    ensures var xs := TimeAxis(len, startWin, even, odd);
      forall i :: 0 <= i < |xs| ==> xs[i] == i as real * c
  {
    match Pattern(startWin, even, odd)
    case None =>
    case Some(dt) =>
      if |dt| > 0 {
        assert forall i :: 0 <= i < |dt| ==> dt[i] == c;
        AxisUniform(dt, c, Steps(|dt|, (len / 64) / 2));
      }
  }

  /** The axis steps through the start window's table first, then the other one, and round again. */
  lemma TimeAxisSteps(len: nat, startWin: real, even: seq<real>, odd: seq<real>, j: nat)
    requires Pattern(startWin, even, odd).Some?
    requires j + 1 < |TimeAxis(len, startWin, even, odd)|
    ensures var xs := TimeAxis(len, startWin, even, odd);
      var dt := Pattern(startWin, even, odd).value;
      |dt| > 0 && xs[j + 1] - xs[j] == dt[j % |dt|]
  {
    var dt := Pattern(startWin, even, odd).value;
    AxisStep(dt, Steps(|dt|, (len / 64) / 2), j);
  }

  // ---------------------------------------------------------------------------
  // The per-event difference
  // ---------------------------------------------------------------------------

  /** Why an event gives no finite difference. */
  datatype DiffError = NoStartWindow | Channel0(cause: TOAError) | Channel3(cause: TOAError)

  /**
   * The causes that raise an exception inside `calcTOA`: `np.argmax` of an empty
   * pulse, and `np.polyfit` on columns of different or zero length, which after an
   * empty average is reported as `FitFailed` too (see `NaNLevel`). A rank-deficient
   * fit only warns; an empty average whose fit does not raise, and a flat line, give
   * `nan` or `inf`, and those values stay in the list.
   */
  predicate Raises(e: TOAError)
  {
    e.EmptyPulse? || (e.FitFailed? && !e.cause.RankDeficient?)
  }

  /** The errors that stop the analysis loop. */
  predicate Stops(d: DiffError)
  {
    match d
    case NoStartWindow => true
    case Channel0(e) => Raises(e)
    case Channel3(e) => Raises(e)
  }

  /**
   * `TOA_ch0 - TOA_ch3` from the two estimates. An exception in either estimate
   * wins over a non-finite value in the other, and channel 0 is evaluated first.
   */
  function Subtract(t0: Result<real, TOAError>, t3: Result<real, TOAError>): (r: Result<real, DiffError>)
    ensures r.Success? <==> t0.Success? && t3.Success?
    ensures r.Success? ==> r.value + t3.value == t0.value
    ensures (r.Failure? && Stops(r.error)) <==>
      (t0.Failure? && Raises(t0.error)) || (t3.Failure? && Raises(t3.error))
    ensures r.Failure? && !Stops(r.error) ==>
      (t0.Failure? && r.error == Channel0(t0.error)) || (t0.Success? && r.error == Channel3(t3.error))
  {
    if t0.Failure? && Raises(t0.error) then Failure(Channel0(t0.error))
    else if t3.Failure? && Raises(t3.error) then Failure(Channel3(t3.error))
    else if t0.Failure? then Failure(Channel0(t0.error))
    else if t3.Failure? then Failure(Channel3(t3.error))
    else Success(t0.value - t3.value)
  }

  /**
   * The result for one event. Channel 3 is timed on the CHANNEL-0 axis, as the
   * loop passes `x_new_ch0` for both.
   */
  function Difference(e: Event, cal: bool, ch0Even: seq<CalibRow>, ch0Odd: seq<CalibRow>): (r: Result<real, DiffError>)
    ensures |e.windnum| == 0 ==> r == Failure(NoStartWindow)
  {
    if |e.windnum| == 0 then Failure(NoStartWindow)
    else
      var xs := Axis0(e, cal, ch0Even, ch0Odd);
      Subtract(CalcTOA(Calc, xs, e.dataCh0, HalfWidth, CalcPeak, CalcPerc),
               CalcTOA(Calc, xs, e.dataCh3, HalfWidth, CalcPeak, CalcPerc))
  }

  /** The x axis both channels are timed on: the channel-0 calibrated axis, or the sample times times 100. */
  function Axis0(e: Event, cal: bool, ch0Even: seq<CalibRow>, ch0Odd: seq<CalibRow>): (xs: seq<real>)
    requires |e.windnum| > 0
    ensures cal ==> |xs| >= 1 && xs[0] == 0.0
    ensures !cal ==> |xs| == |e.time| && forall i :: 0 <= i < |xs| ==> xs[i] == e.time[i] * UncalibratedScale
  {
    if cal then TimeAxis(|e.time|, e.windnum[0], Widths(ch0Even), Widths(ch0Odd))
    else Scale(e.time, UncalibratedScale)
  }

  /** Two identical channels give a zero difference whenever they give one at all. */
  lemma IdenticalChannels(e: Event, cal: bool, ch0Even: seq<CalibRow>, ch0Odd: seq<CalibRow>)
    requires e.dataCh0 == e.dataCh3
    ensures Difference(e, cal, ch0Even, ch0Odd).Success? ==> Difference(e, cal, ch0Even, ch0Odd).value == 0.0
  {
  }

  /** An event whose channel-0 pulse peaks in its first two of six or more samples stops the loop. */
  lemma EarlyPeakStops(e: Event, cal: bool, ch0Even: seq<CalibRow>, ch0Odd: seq<CalibRow>)
    requires |e.windnum| > 0 && |e.dataCh0| >= 6 && ArgMax(e.dataCh0) < 2
    ensures Difference(e, cal, ch0Even, ch0Odd).Failure?
    ensures Stops(Difference(e, cal, ch0Even, ch0Odd).error)
  {
    EarlyPeakRaises(Axis0(e, cal, ch0Even, ch0Odd), e.dataCh0, CalcPeak, CalcPerc);
  }

  /** The result of each event, as one function. */
  function PerEvent(cal: bool, ch0Even: seq<CalibRow>, ch0Odd: seq<CalibRow>): Event -> Result<real, DiffError>
  {
    e => Difference(e, cal, ch0Even, ch0Odd)
  }

  /** `f` gives the difference of every event; only a `Difference` term brings that fact into play. */
  ghost predicate Realises(f: Event -> Result<real, DiffError>, cal: bool, ch0Even: seq<CalibRow>, ch0Odd: seq<CalibRow>)
  {
    forall e {:trigger Difference(e, cal, ch0Even, ch0Odd)} :: f(e) == Difference(e, cal, ch0Even, ch0Odd)
  }

  /** No result stops the loop. */
  predicate Completes(ds: seq<Result<real, DiffError>>)
  {
    forall j :: 0 <= j < |ds| ==> !(ds[j].Failure? && Stops(ds[j].error))
  }

  /** The results of events `1 .. len - 2`. */
  function Differences(events: seq<Event>, cal: bool, ch0Even: seq<CalibRow>, ch0Odd: seq<CalibRow>)
    : (ds: seq<Result<real, DiffError>>)
    ensures |ds| == if |events| >= 2 then |events| - 2 else 0
  {
    EachInner(PerEvent(cal, ch0Even, ch0Odd), events)
  }

  /** Entry `i - 1` of the differences is the difference of event `i`. */
  lemma DifferenceAt(events: seq<Event>, i: nat, cal: bool, ch0Even: seq<CalibRow>, ch0Odd: seq<CalibRow>)
    requires 1 <= i < |events| - 1
    ensures Differences(events, cal, ch0Even, ch0Odd)[i - 1] == Difference(events[i], cal, ch0Even, ch0Odd)
  {
    EachInnerAt(PerEvent(cal, ch0Even, ch0Odd), events, i);
    PerEventIs(cal, ch0Even, ch0Odd, events[i]);
  }

  /** The function the loop computes per event is `Difference`. */
  lemma PerEventIs(cal: bool, ch0Even: seq<CalibRow>, ch0Odd: seq<CalibRow>, e: Event)
    ensures PerEvent(cal, ch0Even, ch0Odd)(e) == Difference(e, cal, ch0Even, ch0Odd)
  {
  }

  /** Once an event stops the loop, the results of every later prefix contain that stop. */
  lemma {:induction false} StopPersists(f: Event -> Result<real, DiffError>, events: seq<Event>, k: nat, m: nat)
    requires k <= m < |events|
    requires !Completes(EachEvent(f, events, k))
    ensures !Completes(EachEvent(f, events, m))
    decreases m
  {
    if k < m {
      StopPersists(f, events, k, m - 1);
      var p := EachEvent(f, events, m - 1);
      var j :| 0 <= j < |p| && p[j].Failure? && Stops(p[j].error);
      assert EachEvent(f, events, m)[j] == p[j];
    }
  }

  /** What one turn of the loop does to the list of results. */
  lemma ResultsStep(f: Event -> Result<real, DiffError>, events: seq<Event>, i: nat)
    requires 1 <= i < |events| - 1
    ensures EachEvent(f, events, i) == EachEvent(f, events, i - 1) + [f(events[i])]
    ensures Completes(EachEvent(f, events, i)) <==>
      Completes(EachEvent(f, events, i - 1)) && !(f(events[i]).Failure? && Stops(f(events[i]).error))
    ensures f(events[i]).Failure? && Stops(f(events[i]).error) ==> !Completes(EachEvent(f, events, |events| - 2))
  {
    var done := EachEvent(f, events, i - 1);
    var d := f(events[i]);
    var now := EachEvent(f, events, i);
    assert now == done + [d];
    assert now[|done|] == d;
    assert forall j :: 0 <= j < |done| ==> now[j] == done[j];
    if d.Failure? && Stops(d.error) {
      StopPersists(f, events, i, |events| - 2);
    }
  }

  /** One event of the analysis loop, as the loop body computes it. */
  method EventDifference(e: Event, cal: bool, ch0Even: seq<CalibRow>, ch0Odd: seq<CalibRow>,
                         ch3Even: seq<CalibRow>, ch3Odd: seq<CalibRow>) returns (d: Result<real, DiffError>)
    ensures d == Difference(e, cal, ch0Even, ch0Odd)
  {
    if |e.windnum| == 0 {
      return Failure(NoStartWindow);
    }
    var startWindow := e.windnum[0];
    var xOld := e.time;
    var xNewCh0 := FixTimeAxis(xOld, startWindow, ch0Even, ch0Odd);
    var xNewCh3 := FixTimeAxis(xOld, startWindow, ch3Even, ch3Odd);
    var t0: Result<real, TOAError>;
    var t3: Result<real, TOAError>;
    if cal {
      t0 := CalcTOA(Calc, xNewCh0, e.dataCh0, HalfWidth, CalcPeak, CalcPerc);
      t3 := CalcTOA(Calc, xNewCh0, e.dataCh3, HalfWidth, CalcPeak, CalcPerc);
    } else {
      var xs := Scale(xOld, UncalibratedScale);
      t0 := CalcTOA(Calc, xs, e.dataCh0, HalfWidth, CalcPeak, CalcPerc);
      t3 := CalcTOA(Calc, xs, e.dataCh3, HalfWidth, CalcPeak, CalcPerc);
    }
    d := Subtract(t0, t3);
  }

  /**
   * The analysis loop over events `1 .. len - 2`: one result per event, no
   * acceptance filter. It stops at the first event that raises; non-finite
   * differences stay in the list as failures.
   */
  method AnalyzeEvents(events: seq<Event>, cal: bool, ch0Even: seq<CalibRow>, ch0Odd: seq<CalibRow>,
                       ch3Even: seq<CalibRow>, ch3Odd: seq<CalibRow>)
    returns (r: Result<seq<Result<real, DiffError>>, DiffError>)
    ensures r.Success? <==> Completes(Differences(events, cal, ch0Even, ch0Odd))
    ensures r.Success? ==> r.value == Differences(events, cal, ch0Even, ch0Odd)
    ensures r.Failure? ==> Stops(r.error)
  {
    forall e: Event
      ensures PerEvent(cal, ch0Even, ch0Odd)(e) == Difference(e, cal, ch0Even, ch0Odd)
    {
      PerEventIs(cal, ch0Even, ch0Odd, e);
    }
    r := CollectDifferences(PerEvent(cal, ch0Even, ch0Odd), events, cal, ch0Even, ch0Odd, ch3Even, ch3Odd);
  }

  /**
   * The loop of `AnalyzeEvents`, stated for `f`, the per-event result that its body
   * computes; `f` is a parameter so that the loop reasons about one event at a time.
   */
  method CollectDifferences(ghost f: Event -> Result<real, DiffError>, events: seq<Event>, cal: bool,
                            ch0Even: seq<CalibRow>, ch0Odd: seq<CalibRow>,
                            ch3Even: seq<CalibRow>, ch3Odd: seq<CalibRow>)
    returns (r: Result<seq<Result<real, DiffError>>, DiffError>)
    requires Realises(f, cal, ch0Even, ch0Odd)
    ensures r.Success? <==> Completes(EachInner(f, events))
    ensures r.Success? ==> r.value == EachInner(f, events)
    ensures r.Failure? ==> Stops(r.error)
  {
    var toaList: seq<Result<real, DiffError>> := [];
    if |events| < 2 {
      return Success(toaList);
    }
    var i := 1;
    while i < |events| - 1
      invariant 1 <= i <= |events| - 1
      invariant toaList == EachEvent(f, events, i - 1)
      invariant Completes(toaList)
    {
      var d := NextDifference(f, events[i], cal, ch0Even, ch0Odd, ch3Even, ch3Odd);
      ResultsStep(f, events, i);
      if d.Failure? && Stops(d.error) {
        return Failure(d.error);
      }
      toaList := toaList + [d];
      i := i + 1;
    }
    r := Success(toaList);
  }

  /** The loop body of `CollectDifferences`: `EventDifference`, whose result is `f` of the event. */
  method NextDifference(ghost f: Event -> Result<real, DiffError>, e: Event, cal: bool,
                        ch0Even: seq<CalibRow>, ch0Odd: seq<CalibRow>, ch3Even: seq<CalibRow>, ch3Odd: seq<CalibRow>)
    returns (d: Result<real, DiffError>)
    requires Realises(f, cal, ch0Even, ch0Odd)
    ensures d == f(e)
  {
    d := EventDifference(e, cal, ch0Even, ch0Odd, ch3Even, ch3Odd);
  }

  /**
   * The whole pass over the rows of a capture file and the four calibration
   * tables. The channel-3 odd table is loaded from the channel-3 EVEN file, as
   * the script does.
   */
  method Run(rows: seq<Row>, cal: bool, calib0Even: seq<CalibRow>, calib0Odd: seq<CalibRow>,
             calib1Even: seq<CalibRow>, calib1Odd: seq<CalibRow>)
    returns (r: Result<seq<Result<real, DiffError>>, RunError>)
    ensures !ReadsCleanly(rows, NumEvents, true, ReportEvery) ==> r.Failure? && r.error.ReadFailed?
    ensures r.Success? ==> ReadsCleanly(rows, NumEvents, true, ReportEvery)
    ensures r.Success? ==>
      r.value == Differences(EventsRead(rows, NumEvents, true, ReportEvery), cal, calib0Even, calib0Odd)
    ensures ReadsCleanly(rows, NumEvents, true, ReportEvery) ==>
      (r.Success? <==> Completes(Differences(EventsRead(rows, NumEvents, true, ReportEvery), cal, calib0Even, calib0Odd)))
    ensures r.Failure? && ReadsCleanly(rows, NumEvents, true, ReportEvery) ==> r.error.EventFailed? && Stops(r.error.cause)
  {
    var read := ReadEvents(rows, NumEvents, true, ReportEvery);
    if read.Failure? {
      return Failure(ReadFailed(read.error));
    }
    var ch3Odd := calib1Even;
    var diffs := AnalyzeEvents(read.value, cal, calib0Even, calib0Odd, calib1Even, ch3Odd);
    if diffs.Failure? {
      return Failure(EventFailed(diffs.error));
    }
    r := Success(diffs.value);
  }

  /** Why the pass stops before the histogram of differences. */
  datatype RunError = ReadFailed(read: ReadError) | EventFailed(cause: DiffError)
}
