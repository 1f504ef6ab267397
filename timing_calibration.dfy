/**
 * The calibration pass (TimingCalibration.py): every event's channel-0 pulse is
 * timed with the 'fixed' threshold, the crossing is placed in one of the 64
 * sampling cells of an even or an odd window, the per-cell counts are optionally
 * "exaggerated" by removing a common offset, and each table is rescaled so that
 * its cells add up to one 6400 ps window.
 */
module TimingCalibration {
  import opened Wrappers
  import opened PySemantics
  import opened Numeric
  import opened Capture
  import opened Crossing

  /** Samples per digitiser window, and so cells per calibration table. */
  const Cells: nat := 64

  /** The length of one window in picoseconds, the total each table is rescaled to. */
  const WindowLength: real := 6400.0

  /** `csvReader(inputFile, 20000)`; progress is reported every 10000 events. */
  const NumEvents: nat := 20000
  const ReportEvery: nat := 10000

  /** The call `calcTOA('fixed', x, y, 1)` with its defaults `peak = 800`, `perc = 0.7`. */
  const HalfWidth: nat := 1
  const FixedPeak: real := 800.0
  const FixedPerc: real := 0.7

  // ---------------------------------------------------------------------------
  // calcTOA: six-sample average, fit window [indexLeft - n, indexRight + n)
  // ---------------------------------------------------------------------------

  /** This script's `calcTOA`: averages `pulsey[peakLoc-3 : peakLoc+3]`, fits up to `indexRight + n`. */
  function CalcTOA(m: Method, x: seq<real>, y: seq<real>, n: nat, peak: real, perc: real): (r: Result<real, TOAError>)
    ensures |y| == 0 ==> r == Failure(EmptyPulse)
    ensures r.Success? ==> |y| > 0 && Level(m, y, ArgMax(y), peak, perc, 3, 3).Success?
    ensures r.Success? ==>
      var level := Level(m, y, ArgMax(y), peak, perc, 3, 3).value;
      var right := IndexRight(y, ArgMax(y), level);
      var fit := FitLine(FitWindow(x, right, n, 0), FitWindow(y, right, n, 0));
      fit.Success? && fit.value.slope != 0.0 && Mul(fit.value.slope, r.value) + fit.value.intercept == level
  {
    var r := Estimate(m, x, y, n, peak, perc, 3, 3, 0);
    if r.Success? then
      EstimateReaches(m, x, y, n, peak, perc, 3, 3, 0);
      r
    else r
  }

  /** In 'calc' mode the level is `perc` times the mean of the six samples from three before the peak. */
  lemma SixSampleAverage(y: seq<real>, peak: real, perc: real)
    requires |y| > 0 && 3 <= ArgMax(y) && ArgMax(y) + 3 <= |y|
    ensures |y[ArgMax(y) - 3..ArgMax(y) + 3]| == 6
    ensures Level(Calc, y, ArgMax(y), peak, perc, 3, 3) == Success(Mul(Mean(y[ArgMax(y) - 3..ArgMax(y) + 3]), perc))
  {
  }

  /** The fit window holds `2n + 1` samples when it lies inside the pulse. */
  lemma FitWindowHolds2nPlus1(s: seq<real>, right: nat, n: nat)
    requires n + 1 <= right && right + n <= |s|
    ensures |FitWindow(s, right, n, 0)| == 2 * n + 1
    ensures FitWindow(s, right, n, 0) == s[right - 1 - n..right + n]
  {
  }

  /**
   * With `n = 0` the window is the single sample `indexLeft`, not the two points the
   * function's comment describes, and the fit has nothing to draw a line through.
   */
  lemma SingleSampleFit(x: seq<real>, y: seq<real>, right: nat)
    requires 1 <= right <= |x| && right <= |y|
    ensures |FitWindow(x, right, 0, 0)| == 1
    ensures FitLine(FitWindow(x, right, 0, 0), FitWindow(y, right, 0, 0)) == Failure(RankDeficient)
  {
    var xs := FitWindow(x, right, 0, 0);
    assert !Spread(xs);
  }

  /** Samples on a line `y = a*x + b` around the crossing give the exact crossing time. */
  lemma CollinearTOA(m: Method, x: seq<real>, y: seq<real>, n: nat, peak: real, perc: real, a: real, b: real)
    requires |y| > 0 && a != 0.0
    requires Level(m, y, ArgMax(y), peak, perc, 3, 3).Success?
    requires
      var right := IndexRight(y, ArgMax(y), Level(m, y, ArgMax(y), peak, perc, 3, 3).value);
      OnLine(FitWindow(x, right, n, 0), FitWindow(y, right, n, 0), a, b) && Spread(FitWindow(x, right, n, 0))
    ensures CalcTOA(m, x, y, n, peak, perc).Success?
    ensures Mul(a, CalcTOA(m, x, y, n, peak, perc).value) + b == Level(m, y, ArgMax(y), peak, perc, 3, 3).value
  {
    CollinearCrossing(m, x, y, n, peak, perc, 3, 3, 0, a, b);
  }

  // ---------------------------------------------------------------------------
  // Placing one crossing in the histogram
  // ---------------------------------------------------------------------------

  /** A sampling cell of a window. */
  type Cell = k: int | 0 <= k < 64

  /** Why the pass stops with an exception on an event. */
  datatype Fault = NoEstimate(cause: TOAError) | WindowIndexError

  /** What one event does to the histogram. */
  datatype Outcome = Skipped | Counted(even: bool, cell: Cell) | Crash(fault: Fault)

  /**
   * After the outlier guard: `win = windnum[int(TOA)]`, the cell is `int(TOA % 64)`,
   * and the count goes to the even table when `win % 2 == 0`.
   */
  function Place(toa: real, windnum: seq<real>): (o: Outcome)
    ensures o.Crash? <==> Index(windnum, Trunc(toa)).None?
    ensures o.Crash? ==> o.fault == WindowIndexError
    ensures !o.Skipped?
  {
    match Index(windnum, Trunc(toa))
    case None => Crash(WindowIndexError)
    case Some(win) =>
      var cell := Trunc(FMod(toa, Cells as real));
      CellOfSample(toa);
      Counted(FMod(win, 2.0) == 0.0, cell)
  }

  /**
   * A crossing inside the event is counted in the table of its window's parity, in
   * the cell of the sample it follows, counted from the start of that window.
   */
  lemma PlaceInWindow(toa: real, windnum: seq<real>)
    requires 0.0 <= toa < |windnum| as real
    ensures Trunc(toa) < |windnum|
    ensures Place(toa, windnum) == Counted(FMod(windnum[Trunc(toa)], 2.0) == 0.0, Trunc(toa) % Cells)
  {
    CellOfSample(toa);
  }

  /**
   * For a crossing at or after the first sample, the cell `int(TOA % 64)` is the
   * position within its window of the sample the crossing follows.
   */
  lemma CellOfSample(toa: real)
    ensures 0 <= Trunc(FMod(toa, Cells as real)) < Cells
    ensures 0.0 <= toa ==> Trunc(FMod(toa, Cells as real)) == Trunc(toa) % Cells
  {
    var r := FMod(toa, 64.0);
    var q := (toa - r) / 64.0;
    assert q == q.Floor as real;
    if 0.0 <= toa {
      var k := Trunc(toa);
      var c := Trunc(r);
      assert toa == 64.0 * q + r;
      assert k == 64 * q.Floor + c;
      assert 0 <= c < 64;
    }
  }

  /** The guard as written, `if TOA > len(windnum): continue`, then the placement. */
  function ClassifyAsWritten(toa: Result<real, TOAError>, windnum: seq<real>): (o: Outcome)
    ensures toa.Success? && toa.value > |windnum| as real ==> o == Skipped
    ensures toa.Success? && toa.value <= |windnum| as real ==> o == Place(toa.value, windnum)
  {
    match toa
    case Success(t) => if t > |windnum| as real then Skipped else Place(t, windnum)
    case Failure(e) => Overflowed(e)
  }

  /**
   * The guard as intended: skip every crossing that does not fall inside a sample
   * of the event, `TOA >= len(windnum)`.
   */
  function Classify(toa: Result<real, TOAError>, windnum: seq<real>): (o: Outcome)
    ensures toa.Success? ==> (o == Skipped <==> toa.value >= |windnum| as real)
  {
    match toa
    case Success(t) => if t >= |windnum| as real then Skipped else Place(t, windnum)
    case Failure(e) => Overflowed(e)
  }

  /**
   * The corrected guard never lets an index error through for a non-empty event:
   * only a crossing more than one window-list length before the first sample can
   * still make `windnum[int(TOA)]` raise.
   */
  lemma GuardCorrected(toa: real, windnum: seq<real>)
    ensures |windnum| > 0 && toa > -(|windnum| as real) - 1.0 ==>
      Classify(Success(toa), windnum) != Crash(WindowIndexError)
    ensures Classify(Success(toa), windnum) == Crash(WindowIndexError) ==>
      |windnum| == 0 || toa <= -(|windnum| as real) - 1.0
  {
    if toa < |windnum| as real {
      TruncAbove(toa, |windnum|);
      assert |windnum| > 0 && toa > -(|windnum| as real) - 1.0 ==> Index(windnum, Trunc(toa)).Some?;
    }
  }

  /** `int(t)` of a `t` above `-len - 1` is a valid (possibly negative) index into a list of length `len`. */
  lemma TruncAbove(t: real, len: nat)
    ensures t > -(len as real) - 1.0 ==> 0 <= Trunc(t) + len
  {
  }

  /**
   * A missing estimate: a zero slope with a positive excess is `+inf`, which the
   * guard skips; `-inf` and NaN pass the guard and make `int(TOA)` raise; the
   * other causes raise inside `calcTOA` already.
   */
  function Overflowed(e: TOAError): (o: Outcome)
    ensures o == Skipped <==> e.ZeroSlope? && e.excess > 0.0
    ensures o != Skipped ==> o == Crash(NoEstimate(e))
  {
    if e.ZeroSlope? && e.excess > 0.0 then Skipped else Crash(NoEstimate(e))
  }

  /** A crossing exactly at `len(windnum)` passes the written guard and indexes past the end. */
  lemma GuardAdmitsLength(windnum: seq<real>)
    ensures ClassifyAsWritten(Success(|windnum| as real), windnum) == Crash(WindowIndexError)
    ensures Classify(Success(|windnum| as real), windnum) == Skipped
  {
    assert Trunc(|windnum| as real) == |windnum|;
  }

  /** The two guards disagree only on a crossing exactly at `len(windnum)`. */
  lemma GuardsAgreeElsewhere(toa: Result<real, TOAError>, windnum: seq<real>)
    requires toa.Success? ==> toa.value != |windnum| as real
    ensures Classify(toa, windnum) == ClassifyAsWritten(toa, windnum)
  {
  }

  /** The crossing `calcTOA('fixed', x, y, 1)` of event `e`'s channel 0. */
  function EventTOA(e: Event): Result<real, TOAError>
  {
    CalcTOA(Fixed, e.time, e.dataCh0, HalfWidth, FixedPeak, FixedPerc)
  }

  /**
   * What event `e` does to the histogram with the corrected guard: it is skipped
   * exactly when its crossing lies at or past the end of the event or is `+inf`,
   * and it is counted only for a crossing inside the event, where it is placed.
   */
  function EventOutcome(e: Event): (o: Outcome)
    ensures o == Skipped <==>
      (EventTOA(e).Success? && EventTOA(e).value >= |e.windnum| as real) ||
      (EventTOA(e).Failure? && EventTOA(e).error.ZeroSlope? && EventTOA(e).error.excess > 0.0)
    ensures o.Counted? ==>
      EventTOA(e).Success? && EventTOA(e).value < |e.windnum| as real && o == Place(EventTOA(e).value, e.windnum)
    ensures o.Crash? ==> EventTOA(e).Failure? || Index(e.windnum, Trunc(EventTOA(e).value)).None?
  {
    Classify(EventTOA(e), e.windnum)
  }

  /** What event `e` does to the histogram with the guard as written, `TOA > len(windnum)`. */
  function EventOutcomeAsWritten(e: Event): (o: Outcome)
    ensures o == Skipped <==>
      (EventTOA(e).Success? && EventTOA(e).value > |e.windnum| as real) ||
      (EventTOA(e).Failure? && EventTOA(e).error.ZeroSlope? && EventTOA(e).error.excess > 0.0)
  {
    ClassifyAsWritten(EventTOA(e), e.windnum)
  }

  /** The outcomes of the events `1 .. len - 2` under the corrected guard. */
  function Outcomes(events: seq<Event>): (outs: seq<Outcome>)
    ensures |outs| == if |events| >= 2 then |events| - 2 else 0
  {
    EachInner(EventOutcome, events)
  }

  /** Entry `i - 1` of the outcomes is what event `i` does. */
  lemma OutcomeAt(events: seq<Event>, i: nat)
    requires 1 <= i < |events| - 1
    ensures Outcomes(events)[i - 1] == EventOutcome(events[i])
  {
    EachInnerAt(EventOutcome, events, i);
  }

  /** The outcomes of the events `1 .. len - 2` under the guard as written. */
  function OutcomesAsWritten(events: seq<Event>): (outs: seq<Outcome>)
    ensures |outs| == if |events| >= 2 then |events| - 2 else 0
  {
    EachInner(EventOutcomeAsWritten, events)
  }

  /**
   * The pass as written and the corrected pass produce the same outcomes unless
   * some event's crossing lands exactly on `len(windnum)`.
   */
  lemma PassesAgree(events: seq<Event>)
    requires forall i :: 1 <= i < |events| - 1 ==> EventTOA(events[i]) != Success(|events[i].windnum| as real)
    ensures OutcomesAsWritten(events) == Outcomes(events)
  {
    forall j | 0 <= j < |Outcomes(events)|
      ensures OutcomesAsWritten(events)[j] == Outcomes(events)[j]
    {
      OutcomeAt(events, j + 1);
      EachInnerAt(EventOutcomeAsWritten, events, j + 1);
      GuardsAgreeElsewhere(EventTOA(events[j + 1]), events[j + 1].windnum);
    }
  }

  /**
   * An event whose crossing lands exactly on `len(windnum)` makes the pass as
   * written raise, where the corrected pass skips it.
   */
  lemma PassesDiffer(events: seq<Event>, i: nat)
    requires 1 <= i < |events| - 1 && EventTOA(events[i]) == Success(|events[i].windnum| as real)
    ensures OutcomesAsWritten(events)[i - 1] == Crash(WindowIndexError)
    ensures !NoCrash(OutcomesAsWritten(events))
    ensures Outcomes(events)[i - 1] == Skipped
  {
    OutcomeAt(events, i);
    EachInnerAt(EventOutcomeAsWritten, events, i);
    GuardAdmitsLength(events[i].windnum);
  }

  // ---------------------------------------------------------------------------
  // The histogram
  // ---------------------------------------------------------------------------

  /** The two count tables `dtEven` and `dtOdd`. */
  datatype Counts = Counts(even: seq<int>, odd: seq<int>)

  /** Both tables have one counter per cell. */
  predicate WellFormed(c: Counts)
  {
    |c.even| == Cells && |c.odd| == Cells
  }

  /** The counts after one more outcome. */
  function Record(c: Counts, o: Outcome): (r: Counts)
    requires WellFormed(c)
    ensures WellFormed(r)
    ensures !o.Counted? ==> r == c
    ensures o.Counted? && o.even ==>
      r.odd == c.odd && forall k :: 0 <= k < Cells ==> r.even[k] == c.even[k] + (if k == o.cell then 1 else 0)
    ensures o.Counted? && !o.even ==>
      r.even == c.even && forall k :: 0 <= k < Cells ==> r.odd[k] == c.odd[k] + (if k == o.cell then 1 else 0)
    ensures Total(r.even) + Total(r.odd) == Total(c.even) + Total(c.odd) + (if o.Counted? then 1 else 0)
  {
    match o
    case Counted(even, cell) =>
      if even then
        TotalIncrement(c.even, cell);
        c.(even := c.even[cell := c.even[cell] + 1])
      else
        TotalIncrement(c.odd, cell);
        c.(odd := c.odd[cell := c.odd[cell] + 1])
    case _ => c
  }

  /** The tables after a sequence of outcomes, starting from `np.zeros(64)` twice. */
  function Tally(outs: seq<Outcome>): (c: Counts)
    ensures WellFormed(c)
    ensures forall k :: 0 <= k < Cells ==> c.even[k] >= 0 && c.odd[k] >= 0
  {
    if |outs| == 0 then Counts(Zeros(Cells), Zeros(Cells))
    else Record(Tally(outs[..|outs| - 1]), outs[|outs| - 1])
  }

  /** Used by `HistogramStep`: the tally of one more outcome records it on the previous tally. */
  lemma TallyStep(outs: seq<Outcome>, o: Outcome)
    ensures Tally(outs + [o]) == Record(Tally(outs), o)
  {
    assert (outs + [o])[..|outs|] == outs;
  }

  /** No outcome is an exception. */
  predicate NoCrash(outs: seq<Outcome>)
  {
    forall j :: 0 <= j < |outs| ==> !outs[j].Crash?
  }

  /** An outcome that raises makes the longer outcome list contain an exception. */
  lemma CrashStays(outs: seq<Outcome>, o: Outcome)
    requires o.Crash?
    ensures !NoCrash(outs + [o])
  {
    assert (outs + [o])[|outs|] == o;
  }

  /** Used by `HistogramStep`: one more outcome keeps the list exception-free exactly when it does not raise. */
  lemma NoCrashStep(outs: seq<Outcome>, o: Outcome)
    ensures NoCrash(outs + [o]) <==> NoCrash(outs) && !o.Crash?
  {
    assert (outs + [o])[|outs|] == o;
    assert forall j :: 0 <= j < |outs| ==> (outs + [o])[j] == outs[j];
  }

  /** Once an event raises, the outcomes of every later prefix contain the exception. */
  lemma {:induction false} CrashPersists(f: Event -> Outcome, events: seq<Event>, k: nat, m: nat)
    requires k <= m < |events|
    requires !NoCrash(EachEvent(f, events, k))
    ensures !NoCrash(EachEvent(f, events, m))
    decreases m
  {
    if k < m {
      CrashPersists(f, events, k, m - 1);
      var p := EachEvent(f, events, m - 1);
      var j :| 0 <= j < |p| && p[j].Crash?;
      assert EachEvent(f, events, m)[j] == p[j];
    }
  }

  /** Used by `Histogram`: two zero-filled tables of 64 cells are the tally of no outcome. */
  lemma EmptyTally(even: seq<int>, odd: seq<int>)
    requires |even| == Cells && |odd| == Cells
    requires forall k :: 0 <= k < Cells ==> even[k] == 0 && odd[k] == 0
    ensures Tally([]) == Counts(even, odd)
  {
    assert even == Zeros(Cells);
    assert odd == Zeros(Cells);
  }

  /** What one turn of the histogram loop does to the outcome prefix and its tally. */
  lemma HistogramStep(f: Event -> Outcome, events: seq<Event>, i: nat)
    requires 1 <= i < |events| - 1
    ensures Tally(EachEvent(f, events, i)) == Record(Tally(EachEvent(f, events, i - 1)), f(events[i]))
    ensures NoCrash(EachEvent(f, events, i)) <==>
      NoCrash(EachEvent(f, events, i - 1)) && !f(events[i]).Crash?
  {
    var done := EachEvent(f, events, i - 1);
    var o := f(events[i]);
    assert EachEvent(f, events, i) == done + [o];
    TallyStep(done, o);
    NoCrashStep(done, o);
  }

  /** An event that raises ends the pass: the outcomes of the whole loop contain the exception. */
  lemma CrashEndsPass(f: Event -> Outcome, events: seq<Event>, i: nat)
    requires 1 <= i < |events| - 1 && f(events[i]).Crash?
    ensures !NoCrash(EachInner(f, events))
  {
    var done := EachEvent(f, events, i - 1);
    assert EachEvent(f, events, i) == done + [f(events[i])];
    CrashStays(done, f(events[i]));
    CrashPersists(f, events, i, |events| - 2);
  }

  /** The number of counted outcomes of a parity. */
  function Kept(outs: seq<Outcome>, even: bool): nat
  {
    if |outs| == 0 then 0
    else
      var o := outs[|outs| - 1];
      Kept(outs[..|outs| - 1], even) + (if o.Counted? && o.even == even then 1 else 0)
  }

  /**
   * Conservation: `lenEven` and `lenOdd`, the sums of the two tables, are the numbers
   * of crossings placed in even and in odd windows.
   */
  lemma {:induction false} TallyConserves(outs: seq<Outcome>)
    ensures Total(Tally(outs).even) == Kept(outs, true)
    ensures Total(Tally(outs).odd) == Kept(outs, false)
  {
    if |outs| > 0 {
      TallyConserves(outs[..|outs| - 1]);
      var c := Tally(outs[..|outs| - 1]);
      assert Tally(outs) == Record(c, outs[|outs| - 1]);
      match outs[|outs| - 1]
      case Counted(even, cell) =>
        if even {
          TotalIncrement(c.even, cell);
        } else {
          TotalIncrement(c.odd, cell);
        }
      case _ =>
    }
  }

  /** A skipped event leaves both tables as they were. */
  lemma SkipLeavesCounts(outs: seq<Outcome>)
    ensures Tally(outs + [Skipped]) == Tally(outs)
  {
    assert (outs + [Skipped])[..|outs|] == outs;
  }

  /** A counted event adds one to exactly one cell of exactly one table. */
  lemma {:induction false} CountTouchesOneCell(outs: seq<Outcome>, even: bool, cell: Cell)
    ensures var before := Tally(outs);
      var after := Tally(outs + [Counted(even, cell)]);
      (even ==> after.odd == before.odd) && (!even ==> after.even == before.even) &&
      forall k :: 0 <= k < Cells ==>
        after.even[k] + after.odd[k] == before.even[k] + before.odd[k] + (if k == cell then 1 else 0)
  {
    assert (outs + [Counted(even, cell)])[..|outs|] == outs;
  }

  /** The body of the histogram loop for one outcome: skip, raise, or add one to a cell. */
  method Count(dtEven: array<int>, dtOdd: array<int>, o: Outcome) returns (crashed: bool)
    requires dtEven.Length == Cells && dtOdd.Length == Cells && dtEven != dtOdd
    modifies dtEven, dtOdd
    ensures crashed <==> o.Crash?
    ensures !crashed ==> dtEven[..] == Record(Counts(old(dtEven[..]), old(dtOdd[..])), o).even
    ensures !crashed ==> dtOdd[..] == Record(Counts(old(dtEven[..]), old(dtOdd[..])), o).odd
    ensures crashed ==> dtEven[..] == old(dtEven[..]) && dtOdd[..] == old(dtOdd[..])
  {
    crashed := false;
    match o {
      case Skipped =>
      case Crash(_) =>
        crashed := true;
      case Counted(even, cell) =>
        if even {
          dtEven[cell] := dtEven[cell] + 1;
        } else {
          dtOdd[cell] := dtOdd[cell] + 1;
        }
    }
  }

  /**
   * The histogram loop over events `1 .. len - 2`. `ok` is false when an event
   * raises; otherwise the two arrays hold the tallies of all outcomes.
   */
  method FillHistogram(events: seq<Event>) returns (ok: bool, dtEven: array<int>, dtOdd: array<int>)
    ensures fresh(dtEven) && fresh(dtOdd)
    ensures dtEven.Length == Cells && dtOdd.Length == Cells
    ensures ok <==> NoCrash(Outcomes(events))
    ensures ok ==> dtEven[..] == Tally(Outcomes(events)).even && dtOdd[..] == Tally(Outcomes(events)).odd
  {
    ok, dtEven, dtOdd := Histogram(EventOutcome, events);
  }

  /** The histogram loop with the guard as written. */
  method FillHistogramAsWritten(events: seq<Event>) returns (ok: bool, dtEven: array<int>, dtOdd: array<int>)
    ensures fresh(dtEven) && fresh(dtOdd)
    ensures dtEven.Length == Cells && dtOdd.Length == Cells
    ensures ok <==> NoCrash(OutcomesAsWritten(events))
    ensures ok ==> dtEven[..] == Tally(OutcomesAsWritten(events)).even && dtOdd[..] == Tally(OutcomesAsWritten(events)).odd
  {
    ok, dtEven, dtOdd := Histogram(EventOutcomeAsWritten, events);
  }

  /** The same loop, for any way `outcome` of turning one event into an outcome. */
  method Histogram(outcome: Event -> Outcome, events: seq<Event>) returns (ok: bool, dtEven: array<int>, dtOdd: array<int>)
    ensures fresh(dtEven) && fresh(dtOdd)
    ensures dtEven.Length == Cells && dtOdd.Length == Cells
    ensures ok <==> NoCrash(EachInner(outcome, events))
    ensures ok ==> dtEven[..] == Tally(EachInner(outcome, events)).even && dtOdd[..] == Tally(EachInner(outcome, events)).odd
  {
    dtOdd := new int[Cells](_ => 0);
    dtEven := new int[Cells](_ => 0);
    EmptyTally(dtEven[..], dtOdd[..]);
    ok := Tabulate(outcome, events, dtEven, dtOdd);
  }

  /**
   * The loop itself, over events `1 .. len - 2`, on two tables that start at zero;
   * it stops at the first event that raises.
   */
  method Tabulate(outcome: Event -> Outcome, events: seq<Event>, dtEven: array<int>, dtOdd: array<int>) returns (ok: bool)
    requires dtEven.Length == Cells && dtOdd.Length == Cells && dtEven != dtOdd
    requires Tally([]) == Counts(dtEven[..], dtOdd[..])
    modifies dtEven, dtOdd
    ensures ok <==> NoCrash(EachInner(outcome, events))
    ensures ok ==> Tally(EachInner(outcome, events)) == Counts(dtEven[..], dtOdd[..])
  {
    if |events| < 2 {
      return true;
    }
    var i := 1;
    while i < |events| - 1
      invariant 1 <= i <= |events| - 1
      invariant Tally(EachEvent(outcome, events, i - 1)) == Counts(dtEven[..], dtOdd[..])
      invariant NoCrash(EachEvent(outcome, events, i - 1))
    {
      var o := outcome(events[i]);
      HistogramStep(outcome, events, i);
      var crashed := Count(dtEven, dtOdd, o);
      if crashed {
        CrashEndsPass(outcome, events, i);
        return false;
      }
      i := i + 1;
    }
    ok := true;
  }

  // ---------------------------------------------------------------------------
  // Exaggerate and rescale
  // ---------------------------------------------------------------------------

  /** An integer table as floats. */
  function ToReal(s: seq<int>): (r: seq<real>)
    ensures |r| == |s| && forall i :: 0 <= i < |s| ==> r[i] == s[i] as real
  {
    seq(|s|, i requires 0 <= i < |s| => s[i] as real)
  }

  /** Used by `Tables`: the float table adds up to the integer total. */
  lemma {:induction false} SumToReal(s: seq<int>)
    ensures Sum(ToReal(s)) == Total(s) as real
  {
    if |s| > 0 {
      var n := |s| - 1;
      SumToReal(s[..n]);
      assert ToReal(s)[..n] == ToReal(s[..n]);
    }
  }

  /** `dt - np.min(dt) * percent`: one common amount taken off every cell. */
  function Exaggerate(t: seq<real>, percent: real): (r: seq<real>)
    requires |t| > 0
    ensures |r| == |t|
    ensures forall i, j :: 0 <= i < |t| && 0 <= j < |t| ==> r[i] - r[j] == t[i] - t[j]
    ensures 0.0 <= percent <= 1.0 && (forall i :: 0 <= i < |t| ==> t[i] >= 0.0) ==>
      forall i :: 0 <= i < |t| ==> r[i] >= 0.0
  {
    var m := Min(t);
    OffsetBelowMin(m, percent);
    Shift(t, Mul(m, percent))
  }

  /** Taking a fraction of at most one of a non-negative minimum leaves it non-negative. */
  lemma OffsetBelowMin(m: real, percent: real)
    ensures 0.0 <= percent <= 1.0 && m >= 0.0 ==> 0.0 <= m - Mul(m, percent)
  {
    if 0.0 <= percent <= 1.0 && m >= 0.0 {
      assert m - m * percent == m * (1.0 - percent);
      PositiveOrZeroProduct(m, 1.0 - percent);
    }
  }

  /** Used by `OffsetBelowMin`: two non-negative factors give a non-negative product. */
  lemma PositiveOrZeroProduct(a: real, b: real)
    requires a >= 0.0 && b >= 0.0
    ensures a * b >= 0.0
  {
  }

  /** Why a rescaled table is not a number: its cells add up to zero (0/0 gives NaN). */
  datatype CalibError = ZeroTotal

  /** `(dt / np.sum(dt)) * 6400`: the table rescaled to one window length. */
  function Rescale(t: seq<real>): (r: Result<seq<real>, CalibError>)
    ensures r.Success? <==> Sum(t) != 0.0
    ensures r.Success? ==> |r.value| == |t| && Sum(r.value) == WindowLength
    ensures r.Success? ==> forall i :: 0 <= i < |t| ==> r.value[i] * Sum(t) == t[i] * WindowLength
  {
    var total := Sum(t);
    if total == 0.0 then Failure(ZeroTotal)
    else
      var r := Scale(t, WindowLength / total);
      SumScale(t, WindowLength / total);
      RescaledShare(t, total);
      Success(r)
  }

  /** Every rescaled cell keeps its share of the total. */
  lemma RescaledShare(t: seq<real>, total: real)
    requires total != 0.0
    ensures forall i :: 0 <= i < |t| ==> Scale(t, WindowLength / total)[i] * total == t[i] * WindowLength
  {
    forall i | 0 <= i < |t|
      ensures Scale(t, WindowLength / total)[i] * total == t[i] * WindowLength
    {
      ScaleAt(t, WindowLength / total, i);
      QuotientShare(t[i], total);
    }
  }

  /** Used by `RescaledShare`: one cell scaled by `6400 / total`, times the total. */
  lemma QuotientShare(x: real, total: real)
    requires total != 0.0
    ensures Mul(WindowLength / total, x) * total == x * WindowLength
  {
  }

  /** A histogram with the same count in every cell rescales to 100 ps per cell. */
  lemma UniformRescale(t: seq<real>, c: real)
    requires |t| == Cells && c != 0.0
    requires forall i :: 0 <= i < |t| ==> t[i] == c
    ensures Rescale(t).Success?
    ensures forall i :: 0 <= i < |t| ==> Rescale(t).value[i] == 100.0
  {
    SumConstant(t, c);
    assert Sum(t) == 64.0 * c;
    forall i | 0 <= i < |t|
      ensures Rescale(t).value[i] == 100.0
    {
      assert Rescale(t).value[i] * (64.0 * c) == c * 6400.0;
    }
  }

  /** One table as written out: optionally exaggerated, then rescaled. */
  function Calibrate(counts: seq<int>, exaggerate: bool, percent: real): (r: Result<seq<real>, CalibError>)
    requires |counts| > 0
    ensures r.Success? ==> |r.value| == |counts| && Sum(r.value) == WindowLength
    ensures !exaggerate ==> r == Rescale(ToReal(counts))
  {
    var t := ToReal(counts);
    Rescale(if exaggerate then Exaggerate(t, percent) else t)
  }

  /** The two rescaled tables the pass writes out. */
  datatype Calibration = Calibration(even: Result<seq<real>, CalibError>, odd: Result<seq<real>, CalibError>)

  /** Why the pass stops before writing the tables. */
  datatype RunError = ReadFailed(read: ReadError) | EventFailed

  /** The tables the pass writes out for the outcomes of all events. */
  function Tables(outs: seq<Outcome>, exaggerate: bool, percent: real): (t: Calibration)
    ensures t.even.Success? ==> |t.even.value| == Cells && Sum(t.even.value) == WindowLength
    ensures t.odd.Success? ==> |t.odd.value| == Cells && Sum(t.odd.value) == WindowLength
    ensures !exaggerate ==> (t.even.Success? <==> Kept(outs, true) > 0)
    ensures !exaggerate ==> (t.odd.Success? <==> Kept(outs, false) > 0)
  {
    var c := Tally(outs);
    TallyConserves(outs);
    SumToReal(c.even);
    SumToReal(c.odd);
    Calibration(Calibrate(c.even, exaggerate, percent), Calibrate(c.odd, exaggerate, percent))
  }

  /** The whole pass over the rows of a capture file. */
  method Run(rows: seq<Row>, exaggerate: bool, percent: real) returns (r: Result<Calibration, RunError>)
    ensures !ReadsCleanly(rows, NumEvents, false, ReportEvery) ==> r.Failure? && r.error.ReadFailed?
    ensures r.Success? ==> ReadsCleanly(rows, NumEvents, false, ReportEvery)
    ensures r.Success? ==>
      var outs := Outcomes(EventsRead(rows, NumEvents, false, ReportEvery));
      NoCrash(outs) && r.value == Tables(outs, exaggerate, percent)
    ensures ReadsCleanly(rows, NumEvents, false, ReportEvery) ==>
      (r.Success? <==> NoCrash(Outcomes(EventsRead(rows, NumEvents, false, ReportEvery))))
    ensures r.Failure? && ReadsCleanly(rows, NumEvents, false, ReportEvery) ==> r.error == EventFailed
  {
    var read := ReadEvents(rows, NumEvents, false, ReportEvery);
    if read.Failure? {
      return Failure(ReadFailed(read.error));
    }
    var ok, dtEven, dtOdd := FillHistogram(read.value);
    if !ok {
      return Failure(EventFailed);
    }
    var odd := Calibrate(dtOdd[..], exaggerate, percent);
    var even := Calibrate(dtEven[..], exaggerate, percent);
    r := Success(Calibration(even, odd));
  }
}
