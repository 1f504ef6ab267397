# TimingCalibration in Dafny

The repository has two scripts for a waveform digitiser. The digitiser samples
every trigger in windows of 64 storage cells, and consecutive windows alternate
between an even and an odd bank.

- **`TimingCalibration.py`** finds the threshold crossing of every event.
  - Crossings are histogrammed by cell, separately for even and odd windows.
  - The two histograms become cell-width tables that each sum to one window length, 6400.
- **`TOA_withCalibration.py`** uses those tables.
  - It rebuilds each event's time axis from the tables.
  - It times channel 0 and channel 3 on that axis with a constant-fraction threshold.
  - It collects the channel-0 minus channel-3 difference per event.

The model follows the code of both scripts, with one deliberate departure: the
outlier guard of the histogram loop (see "## Findings"). The calibration pass
uses the corrected guard, and the pass with the guard as written is modelled
beside it and compared with it. Numbers are `real`. Python's
`int()`, float `%`, slicing and negative indexing are written out in
`PySemantics`. numpy's `argmax`, `searchsorted`, `polyfit(…, 1)`, `average` and
`min` are written out in `Numeric`. An exception, or a NaN or infinite value, is a
`Failure` value that names its cause.

Modules:

- `Wrappers`: `Option` and `Result`.
- `PySemantics`: `int()`, float `%`, slices and indexing as Python defines them.
- `Numeric`: sums, means, minimum, first maximum, left binary search and the
  least-squares line.
- `Capture`: the capture-file rows and the `csvReader` loop that both scripts share.
  The calibration script reads channel 0 and reports every 10000 events. The
  analysis script also reads channel 3 and reports every 1000 events.
- `Crossing`: the `calcTOA` estimate both scripts carry a copy of. The copies
  differ only in their offsets, which are parameters here:
  - the averaging window, which is `[-3, +3)` in one copy and `[-2, +3)` in the other;
  - the end of the fit window, which is `indexRight + n` in one copy and `indexRight + n + 1` in the other.
- `TimingCalibration`: the calibration pass.
  - Each event's crossing is classified.
  - The two histograms are filled in place in 64-cell arrays.
  - The tables are exaggerated and rescaled.
- `TOAWithCalibration`: the analysis pass.
  - `fixTimeAxis` is an imperative method with its nested loops.
  - The per-event difference is modelled, as is the analysis loop.

The two scripts are driven by configuration globals and file reads. In the model,
the rows of the capture file and the calibration tables are parameters.

## Model

| member | source | states |
|---|---|---|
| PySemantics.Trunc | TimingCalibration.py:112 | `int(x)` truncates toward zero: the result lies within one of `x`, on the same side of zero |
| PySemantics.FMod | TimingCalibration.py:113 | float `a % m` for `m > 0` lies in `[0, m)` and differs from `a` by a whole multiple of `m` |
| PySemantics.SliceBound | TimingCalibration.py:79-80 | a slice bound is clipped to `[0, len]`, and a negative bound counts from the end |
| PySemantics.Slice | TimingCalibration.py:72 | `s[a:b]` is the plain subsequence for in-range bounds and empty when `b <= a`, and it is never longer than `s` |
| PySemantics.Index | TimingCalibration.py:112 | `s[i]` exists exactly when `-len <= i < len`; a negative `i` reads from the end |
| PySemantics.Position | TimingCalibration.py:39 | the list position reached by `EventsList[i]` exists exactly when `-len <= i < len` |
| Numeric.Zeros | TimingCalibration.py:100-101 | `np.zeros(64)` has 64 entries, all zero, with total 0 |
| Numeric.TotalIncrement | TimingCalibration.py:118-124 | adding one to one cell raises the histogram total by exactly one |
| Numeric.SumUpdate | TimingCalibration.py:123-124 | replacing one entry changes the sum by the difference |
| Numeric.Scale | TimingCalibration.py:142-143 | multiplying an array by a constant keeps its length |
| Numeric.ScaleAt | TimingCalibration.py:142-143 | entry `i` of `array * c` is `c` times entry `i` |
| Numeric.SumScale | TimingCalibration.py:142-143 | the sum of a scaled array is the scaled sum |
| Numeric.Shift | TimingCalibration.py:139-140 | subtracting a constant from an array subtracts it from every entry |
| Numeric.SumConstant | TimingCalibration.py:142-143 | an array of `n` equal entries `c` sums to `n*c` |
| Numeric.Min | TimingCalibration.py:133-137 | `np.min` is an entry of the array and is at most every entry |
| Numeric.ArgMax | TimingCalibration.py:65 | `np.argmax` is the FIRST position of a maximum: no entry is larger, and every earlier entry is smaller |
| Numeric.BisectLeft | TimingCalibration.py:77 | the left binary search stays inside its range |
| Numeric.SearchSorted | TimingCalibration.py:77 | `np.searchsorted` returns an insertion point in `[0, len]` |
| Numeric.BisectLeftSplits | TimingCalibration.py:77 | on sorted data, the search splits the array into entries below the value and entries at least the value |
| Numeric.SearchSortedLeftmost | TimingCalibration.py:77 | on sorted data, `searchsorted(a, v)` (side 'left') is the leftmost insertion point: entries before it are `< v`, entries from it are `>= v` |
| Numeric.FitLine | TimingCalibration.py:82 | the degree-1 `np.polyfit` raises for columns of different length or zero length; a line exists exactly when the lengths agree, are non-zero, and the abscissae are not all equal |
| Numeric.SquaredDeviationBound | TimingCalibration.py:82 | the spread of the abscissae is non-negative and at least any single squared deviation |
| Numeric.SpreadIffPositive | TimingCalibration.py:82 | the fit's denominator is non-zero exactly when the abscissae are not all equal |
| Numeric.ConstantDeviation | TimingCalibration.py:82 | equal abscissae have zero spread |
| Numeric.SumAffine | TimingCalibration.py:82 | points on `y = a*x + b` have `sum(y) = a*sum(x) + b*n` |
| Numeric.MeanWithin | TimingCalibration.py:72 | `np.average` of values that all lie in `[lo, hi]` lies in `[lo, hi]` |
| Numeric.MeanAffine | TimingCalibration.py:72 | points on `y = a*x + b` have `mean(y) = a*mean(x) + b` |
| Numeric.CrossProportional | TimingCalibration.py:82 | for points on a line, the cross-deviation sum is the slope times the squared-deviation sum |
| Numeric.NormalEquations | TimingCalibration.py:82 | for abscissae that are not all equal, the fitted line is the one and only line whose residuals sum to zero and are uncorrelated with the abscissae (the least-squares normal equations) |
| Numeric.NormalCore | TimingCalibration.py:82 | a line meets both normal equations exactly when it has the closed-form slope and passes through the means |
| Numeric.ResidualSum | TimingCalibration.py:82 | the residuals of any line sum to minus the number of points times the line's height above the means' point |
| Numeric.ResidualCross | TimingCalibration.py:82 | the residuals of any line, weighted by the abscissa deviations, sum to the cross-deviation sum less the slope times the squared-deviation sum |
| Numeric.CollinearSlope | TimingCalibration.py:82 | for points on `y = a*x + b` with spread abscissae, the means lie on the line and the fitted slope is `a` |
| Numeric.CollinearFit | TimingCalibration.py:82 | points that lie exactly on a line with spread abscissae give back exactly that line |
| Capture.Fresh | TimingCalibration.py:34 | the fresh event list has `numEvents` empty events |
| Capture.Append | TimingCalibration.py:39-41 | appending a row adds one entry to the window, time and channel-0 lists and keeps the earlier entries; channel 3 grows only in the two-channel reader; lists of equal length stay equal |
| Capture.Slot | TimingCalibration.py:38-39 | `EventsList[int(row[1])]` reaches an event exactly when `-numEvents <= int(row[1]) < numEvents`: position `int(row[1])` when it is non-negative, `numEvents + int(row[1])` when it is negative |
| Capture.Grouped | TimingCalibration.py:37-45 | appending rows keeps the list at `numEvents` events |
| Capture.GroupedStep | TimingCalibration.py:38-41 | one more row is appended to the event it names, and a row naming no event in the list fails the read |
| Capture.StopRow | TimingCalibration.py:37-38 | the loop stops after the FIRST row that names event `numEvents - 1`; when none does, no row names it |
| Capture.EventsRead | TimingCalibration.py:29-46 | a clean read hands back exactly `numEvents` events |
| Capture.GroupedStaysNone | TimingCalibration.py:39 | once a row names an event outside the list, the read has failed for good |
| Capture.NoStopNotClean | TimingCalibration.py:37-38 | running past the last row without meeting the last event raises |
| Capture.BadSlotNotClean | TimingCalibration.py:39 | a row whose event index is outside the list raises before the last event is reached |
| Capture.LastRowNotClean | TimingCalibration.py:43 | the progress check on a multiple of the report interval reads one row past the last and raises |
| Capture.StopClean | TimingCalibration.py:37-46 | a read that reaches the last event without an index error is clean and stops at that event's first row |
| Capture.ReadEvents | TimingCalibration.py:29-46 | with one event or none the list is fresh; otherwise the reader succeeds exactly when the read is clean, and its list groups exactly the rows up to the first row of the last event |
| Capture.ScanRows | TimingCalibration.py:35-45 | the row loop finishes without an exception exactly when the read is clean, and then its list groups exactly the rows up to and including the first row of the last event |
| Capture.ScanTurn | TimingCalibration.py:38-43 | one pass of the loop body over a row before the stop row either raises, and then the read is not clean, or leaves the grouping of one more row, with the row's event number below `numEvents` and, when the progress check runs, a next row to read |
| Capture.ReadRow | TimingCalibration.py:38-41 | one turn of the row loop leaves the grouping of one more row, or nothing when the row names no event of the list |
| Capture.EachEvent | TimingCalibration.py:93-103 | a loop over `range(1, numEvents - 1)` collects one value per turn, so `k` values after `k` turns |
| Capture.EachEventAt | TimingCalibration.py:93-103 | value `i - 1` of what the loop collects comes from event `i` |
| Capture.EachInner | TimingCalibration.py:93 | a loop over `range(1, len - 1)` collects one value per event but the first and the last, and nothing for fewer than two events |
| Capture.EachInnerAt | TimingCalibration.py:93-103 | value `i - 1` of what that loop collects comes from event `i` |
| Capture.GroupedMembers | TimingCalibration.py:38-41 | each event holds exactly the rows that name it, in file order |
| Capture.AppendHolds | TOA_withCalibration.py:40-44 | an event whose lists hold the fields of some rows, after one more row is appended, holds the fields of those rows and that row |
| Capture.BuildLockstep | TOA_withCalibration.py:40-44 | the window, time and amplitude lists of an event get one entry per row, entry `i` taken from row `i`, and channel 3 only in the two-channel reader |
| Capture.GroupedLockstep | TOA_withCalibration.py:40-44 | every event read has equally long window, time and channel lists |
| Crossing.Level | TimingCalibration.py:67-73 | 'fixed' gives `peak*perc`; 'calc' gives `perc` times the mean of the window around the peak, or NaN when the wrapped slice is empty |
| Crossing.IndexRight | TimingCalibration.py:77 | `indexRight` never passes the peak |
| Crossing.CrossingIndex | TimingCalibration.py:77-78 | on a rising edge, every sample before `indexRight` is below the level, and the sample at `indexRight` reaches it |
| Crossing.FitWindow | TimingCalibration.py:79-80 | an in-range fit window is the plain slice from `indexLeft - n` and holds `2n + 1 + extra` samples |
| Crossing.WrappedFitWindow | TimingCalibration.py:78-80 | a crossing at the first sample makes `indexLeft = -1`, which wraps the slice start round, so the fit window is empty |
| Crossing.Estimate | TimingCalibration.py:65 | an empty pulse raises at `np.argmax` |
| Crossing.NaNLevel | TOA_withCalibration.py:72-84 | after an empty averaging window no estimate comes out: NaN sorts after every sample, so the fit runs on the slices around the peak, and the estimate raises exactly when those slices are empty or of different lengths; otherwise it is the NaN level |
| Crossing.EstimateReaches | TimingCalibration.py:65-85 | any estimate returned comes from a level that exists and is where a non-flat line, fitted to the window around `indexRight`, reaches that level |
| Crossing.Solve | TimingCalibration.py:83 | a crossing returned by the last step is where the non-flat fitted line reaches the level |
| Crossing.Reaches | TimingCalibration.py:83 | `(level - b) / a` is where the line `a*x + b` reaches `level` |
| Crossing.CollinearCrossing | TimingCalibration.py:65-85 | samples lying exactly on a non-flat line give exactly that line's crossing time |
| TimingCalibration.CalcTOA | TimingCalibration.py:48-85 | an empty pulse raises; a crossing returned is where the non-flat line fitted to `pulsex[indexLeft-n : indexRight+n]` reaches the threshold level of the chosen method, which exists |
| TimingCalibration.SixSampleAverage | TimingCalibration.py:70-73 | the 'calc' level averages the six samples `peakLoc-3 .. peakLoc+2` |
| TimingCalibration.FitWindowHolds2nPlus1 | TimingCalibration.py:79-80 | this copy fits `2n + 1` samples, not the `2 + 2n` its comment promises |
| TimingCalibration.SingleSampleFit | TimingCalibration.py:61-82 | with `n = 0` the fit window holds one sample, and the fit is rank deficient |
| TimingCalibration.CollinearTOA | TimingCalibration.py:48-85 | samples on a line give that line's exact crossing |
| TimingCalibration.Place | TimingCalibration.py:112-121 | placing a crossing raises exactly when `windnum[int(TOA)]` does, and otherwise counts it in one cell |
| TimingCalibration.PlaceInWindow | TimingCalibration.py:112-121 | a crossing inside the event is counted in cell `int(TOA) % 64`, in the bank given by the parity of its window |
| TimingCalibration.CellOfSample | TimingCalibration.py:113-118 | `int(TOA % 64)` is a cell index, equal to `int(TOA) % 64` for a non-negative crossing |
| TimingCalibration.ClassifyAsWritten | TimingCalibration.py:109-112 | the written guard skips a crossing only when `TOA > len(windnum)` |
| TimingCalibration.Classify | TimingCalibration.py:109-112 | the corrected guard skips a crossing exactly when `TOA >= len(windnum)` |
| TimingCalibration.GuardCorrected | TimingCalibration.py:109-112 | with the corrected guard, a non-empty event raises an index error only for a crossing more than a list length before the start |
| TimingCalibration.TruncAbove | TimingCalibration.py:112 | a crossing above `-len - 1` truncates to an index that Python can wrap |
| TimingCalibration.Overflowed | TimingCalibration.py:107-112 | a `+inf` crossing is skipped by the guard; every other missing estimate stops the run |
| TimingCalibration.GuardAdmitsLength | TimingCalibration.py:109-112 | a crossing equal to `len(windnum)` passes the written guard and raises, but the corrected guard skips it |
| TimingCalibration.GuardsAgreeElsewhere | TimingCalibration.py:109-112 | the two guards differ only at `TOA == len(windnum)` |
| TimingCalibration.EventOutcome | TimingCalibration.py:106-112 | with the corrected guard an event is skipped exactly when its crossing is at or past `len(windnum)` or `+inf`; it is counted only for a crossing inside the event, in the cell `Place` gives; it raises only when the estimate fails or `windnum[int(TOA)]` does not exist |
| TimingCalibration.EventOutcomeAsWritten | TimingCalibration.py:106-112 | with the guard as written an event is skipped exactly when its crossing is strictly past `len(windnum)` or `+inf` |
| TimingCalibration.Outcomes | TimingCalibration.py:93 | events `1 .. len - 2` each give one outcome; the first and the last events are left out |
| TimingCalibration.OutcomesAsWritten | TimingCalibration.py:93-112 | the pass as written gives one outcome for each of events `1 .. len - 2` |
| TimingCalibration.PassesAgree | TimingCalibration.py:103-112 | when no event's crossing is exactly `len(windnum)`, the pass as written and the corrected pass give the same outcomes |
| TimingCalibration.PassesDiffer | TimingCalibration.py:103-112 | an event whose crossing is exactly `len(windnum)` makes the pass as written raise an IndexError, where the corrected pass skips the event |
| TimingCalibration.OutcomeAt | TimingCalibration.py:103-107 | outcome `i - 1` is what event `i` does |
| TimingCalibration.Record | TimingCalibration.py:117-121 | counting one outcome keeps 64 cells per table, leaves the tables alone unless the outcome is counted, otherwise adds one to exactly the outcome's cell of the outcome's bank, and raises the two totals together by one exactly when the outcome is counted |
| TimingCalibration.Tally | TimingCalibration.py:100-121 | the histograms have 64 non-negative cells each |
| TimingCalibration.TallyStep | TimingCalibration.py:103-121 | each event adds its outcome to the histograms it finds |
| TimingCalibration.CrashStays | TimingCalibration.py:103-112 | an exception ends the run whatever came before |
| TimingCalibration.CrashPersists | TimingCalibration.py:103-112 | an exception in an early event stops the whole pass |
| TimingCalibration.HistogramStep | TimingCalibration.py:103-121 | one loop turn adds one outcome to the histograms, and the run survives the turn exactly when that outcome is not a crash |
| TimingCalibration.TallyConserves | TimingCalibration.py:123-124 | `np.sum(dtEven)` and `np.sum(dtOdd)` count exactly the crossings placed in even and in odd windows |
| TimingCalibration.SkipLeavesCounts | TimingCalibration.py:109-110 | a skipped event leaves both histograms unchanged |
| TimingCalibration.CountTouchesOneCell | TimingCalibration.py:117-121 | counting a crossing raises exactly one cell of one bank by one and leaves every other cell alone |
| TimingCalibration.Count | TimingCalibration.py:112-121 | the in-place array update raises exactly when the outcome is a crash, leaves both arrays untouched when it raises, and otherwise leaves them equal to the recorded counts |
| TimingCalibration.FillHistogram | TimingCalibration.py:99-121 | the loop over events succeeds exactly when no event raises, and its two 64-cell arrays are the histograms of the outcomes |
| TimingCalibration.FillHistogramAsWritten | TimingCalibration.py:99-121 | the loop with the guard as written succeeds exactly when none of its outcomes raises, and its arrays are then the histograms of those outcomes |
| TimingCalibration.CrashEndsPass | TimingCalibration.py:103-112 | one event that raises makes the outcomes of the whole loop contain an exception |
| TimingCalibration.Tabulate | TimingCalibration.py:103-121 | on two zeroed 64-cell arrays, the loop succeeds exactly when no outcome raises, and the arrays are then the tallies of all outcomes |
| TimingCalibration.Histogram | TimingCalibration.py:99-121 | for any per-event outcome, the loop succeeds exactly when no outcome is a crash, and its two 64-cell arrays are then the tallies of the outcomes |
| TimingCalibration.ToReal | TimingCalibration.py:139-143 | the integer counts become floats entry by entry |
| TimingCalibration.Exaggerate | TimingCalibration.py:132-140 | removing a fraction of the minimum keeps every difference between cells, and keeps counts non-negative for a fraction in `[0, 1]` |
| TimingCalibration.OffsetBelowMin | TimingCalibration.py:136-140 | removing at most the whole minimum leaves it non-negative |
| TimingCalibration.Rescale | TimingCalibration.py:142-143 | a table with a non-zero sum is rescaled to sum exactly 6400, with every cell in proportion to its count |
| TimingCalibration.RescaledShare | TimingCalibration.py:142-143 | each rescaled cell times the old total is its count times 6400 |
| TimingCalibration.UniformRescale | TimingCalibration.py:142-143 | 64 equal counts give 100 per cell |
| TimingCalibration.Calibrate | TimingCalibration.py:132-143 | a calibration table that exists has one entry per cell and sums to 6400; without exaggeration it is the plain rescaling |
| TimingCalibration.Tables | TimingCalibration.py:132-143 | each table written has 64 cells summing to 6400; without exaggeration a table exists exactly when some crossing was placed in its bank |
| TimingCalibration.Run | TimingCalibration.py:91-143 | the pass fails with a read error exactly on a read that is not clean; after a clean read it succeeds exactly when no event of `1 .. len - 2` raises, fails otherwise with an event error, and a result it returns is the two tables of the histograms of those events |
| TOAWithCalibration.CalcTOA | TOA_withCalibration.py:51-87 | an empty pulse raises; a crossing returned is where the non-flat line fitted to `pulsex[indexLeft-n : indexRight+n+1]` reaches the threshold level of the chosen method, which exists |
| TOAWithCalibration.FiveSampleAverage | TOA_withCalibration.py:71-75 | this copy's 'calc' level averages the five samples `peakLoc-2 .. peakLoc+2` |
| TOAWithCalibration.EarlyPeakAverage | TOA_withCalibration.py:72-74 | a peak in the first two samples wraps the averaging slice round and leaves it empty |
| TOAWithCalibration.EarlyPeakRaises | TOA_withCalibration.py:72-84 | with six samples or more, a peak in the first two samples makes `calcTOA('calc', …, 2)` raise: the fit slices around the peak wrap round and are empty, so `np.polyfit` rejects them |
| TOAWithCalibration.FitWindowHolds2nPlus2 | TOA_withCalibration.py:64-82 | this copy fits `2n + 2` samples, as its comment promises |
| TOAWithCalibration.CollinearTOA | TOA_withCalibration.py:51-87 | samples on a line give that line's exact crossing |
| TOAWithCalibration.Widths | TOA_withCalibration.py:92-93 | `table[:, 1]` is the widths column, row by row |
| TOAWithCalibration.FloorOfQuotient | TOA_withCalibration.py:91 | the floor of `n / d` computed in floats is the integer quotient |
| TOAWithCalibration.TruncOfQuotient | TOA_withCalibration.py:91-99 | `int(len(x)/64)` and `int(totalWindows/2)` are integer quotients |
| TOAWithCalibration.WindowParity | TOA_withCalibration.py:97-107 | a whole window number `k` has `k % 2` equal to its parity |
| TOAWithCalibration.Pattern | TOA_withCalibration.py:97-108 | an even start window takes the even-then-odd widths; an odd one takes odd-then-even; a fractional one takes neither |
| TOAWithCalibration.Axis | TOA_withCalibration.py:95-112 | the axis after `k` appends has `k + 1` points and starts at 0 |
| TOAWithCalibration.TimeAxis | TOA_withCalibration.py:90-117 | the rebuilt axis always starts at 0 |
| TOAWithCalibration.StepsProduct | TOA_withCalibration.py:99-110 | the nested loops append once per width per window pair |
| TOAWithCalibration.RunningSum | TOA_withCalibration.py:99-102 | the nested loops leave exactly the running-sum axis over `pairs` passes of the widths |
| TOAWithCalibration.OffsetInPattern | TOA_withCalibration.py:100-102 | entry `j` of pass `i` is width `j` of the pattern |
| TOAWithCalibration.AxisOfPattern | TOA_withCalibration.py:97-112 | for a width pattern and `int(int(len/64)/2)` window pairs, the rebuilt axis is the running sum over `pairs` passes of the pattern |
| TOAWithCalibration.FixTimeAxis | TOA_withCalibration.py:90-117 | `fixTimeAxis` returns exactly the rebuilt axis for the event's length, start window and tables |
| TOAWithCalibration.AxisPrefix | TOA_withCalibration.py:100-102 | the axis only grows at the end: a shorter axis is a prefix of a longer one |
| TOAWithCalibration.AxisStep | TOA_withCalibration.py:101-102 | each step of the axis is the next width of the pattern, going round the pattern |
| TOAWithCalibration.AxisUniform | TOA_withCalibration.py:100-102 | equal widths `c` give the axis `0, c, 2c, ...` |
| TOAWithCalibration.AxisIncreasing | TOA_withCalibration.py:100-102 | positive widths give a strictly increasing axis |
| TOAWithCalibration.AxisPartialPass | TOA_withCalibration.py:100-102 | within a pass, the axis grows by the sum of the widths used so far |
| TOAWithCalibration.AxisWholePasses | TOA_withCalibration.py:99-102 | the axis at the start of pass `p` is `p` times the sum of the widths |
| TOAWithCalibration.AxisWindowPairs | TOA_withCalibration.py:99-102 | with two tables that each sum to 6400, in either order, the axis at the start of pass `p` is `p` times 12800, two window lengths |
| TOAWithCalibration.TimeAxisLength | TOA_withCalibration.py:91-112 | the axis has `1 + (len(even) + len(odd)) * int(int(len/64)/2)` points, or is `[0]` when the start window is neither even nor odd |
| TOAWithCalibration.TrailingWindowDropped | TOA_withCalibration.py:91-99 | a trailing window without a partner adds nothing to the axis |
| TOAWithCalibration.FullAxisLength | TOA_withCalibration.py:91-112 | with 64-cell tables and a whole number of window pairs, the axis has one point more than the event has samples |
| TOAWithCalibration.UniformTables | TOA_withCalibration.py:90-117 | tables of equal widths `c` give the evenly spaced axis `0, c, 2c, ...` |
| TOAWithCalibration.TimeAxisSteps | TOA_withCalibration.py:97-112 | the axis steps through the start window's table first, then the other table, and then round again |
| TOAWithCalibration.Subtract | TOA_withCalibration.py:145-155 | a difference exists exactly when both estimates do, and it is `TOA_ch0 - TOA_ch3`; an exception in either estimate stops the loop, and otherwise a non-finite estimate is named |
| TOAWithCalibration.Difference | TOA_withCalibration.py:131 | an event without windows raises at `windnum[0]` |
| TOAWithCalibration.Axis0 | TOA_withCalibration.py:143-151 | with calibration the axis is the rebuilt channel-0 axis, which starts at 0; without it, it is the sample times times 100, one entry per sample |
| TOAWithCalibration.IdenticalChannels | TOA_withCalibration.py:143-155 | identical channels give a zero difference |
| TOAWithCalibration.EarlyPeakStops | TOA_withCalibration.py:131-146 | an event whose channel-0 pulse has six samples or more and peaks in its first two stops the analysis loop |
| TOAWithCalibration.Differences | TOA_withCalibration.py:130 | the list has one entry for each of events `1 .. len - 2`, with no acceptance filter |
| TOAWithCalibration.DifferenceAt | TOA_withCalibration.py:130-156 | entry `i - 1` of the list is the difference of event `i` |
| TOAWithCalibration.StopPersists | TOA_withCalibration.py:130-156 | an exception in an early event stops the whole loop |
| TOAWithCalibration.ResultsStep | TOA_withCalibration.py:130-156 | one loop turn appends one result, and the loop survives the turn exactly when that result does not raise |
| TOAWithCalibration.EventDifference | TOA_withCalibration.py:131-155 | the loop body computes both axes and both estimates, and its result is the event's difference, timed on the channel-0 axis |
| TOAWithCalibration.AnalyzeEvents | TOA_withCalibration.py:128-156 | the loop succeeds exactly when no event raises, and its list is then the differences of events `1 .. len - 2` |
| TOAWithCalibration.NextDifference | TOA_withCalibration.py:131-155 | one turn of the event loop yields the per-event result the loop is specified by |
| TOAWithCalibration.CollectDifferences | TOA_withCalibration.py:128-156 | for per-event results that the loop body computes, the loop succeeds exactly when no result raises, its list is then those results, and a failure is an exception |
| TOAWithCalibration.Run | TOA_withCalibration.py:121-156 | the pass fails on a read that is not clean; after a clean read it succeeds exactly when no event raises, fails otherwise with an event error whose cause is an exception, and a result it returns is the list of differences of the events read |

## Left out

- File reading and writing are not modelled: `np.genfromtxt` and the header skip, pandas `to_csv`, and the output file names (TimingCalibration.py:145-146, 166-175). The rows of the capture file and the calibration tables are parameters.
- Plotting, `mplhep` styles and every `print` are not modelled. This includes the progress messages, the even and odd totals, and the mean and standard deviation of the differences. The totals are stated by `TimingCalibration.TallyConserves`. The row read that the progress check makes is kept, because it can raise.
- The configuration globals are not modelled as globals. `Exaggerate` and `exaggerate_percent` are parameters of `TimingCalibration.Run`, and `Cal` is a parameter of `TOAWithCalibration.Run`. `plotHist`, `plotSpread`, `output` and `channel` only affect output, so they are left out.
- Floating point is not modelled. Numbers are exact reals, so rounding, overflow and the precision of `np.polyfit` (a least-squares solve, written here in closed form) are outside the model.
- Non-finite values are modelled as named failures, not as values. A NaN or infinite estimate is a `Failure` that names its cause: an empty average, a flat line with the sign of the excess, or a rank-deficient fit.
- `TimingCalibration.FillHistogram`: uses the corrected outlier guard `TOA >= len(windnum)`, not the written `TOA > len(windnum)`. The loop with the written guard is `TimingCalibration.FillHistogramAsWritten`, and `TimingCalibration.PassesAgree` and `TimingCalibration.PassesDiffer` state where the two differ.
- `TimingCalibration.Run`: runs the corrected pass, for the same reason. With the written guard, an event whose crossing is exactly `len(windnum)` makes the script raise, where `Run` skips it.
- `Crossing.Estimate`: after an empty averaging window, the model takes `indexRight` to be `peakLoc`, where numpy's `searchsorted` puts NaN among finite samples. Whatever the fit then returns, the estimate is the NaN level unless the fit raises.
- `Numeric.FitLine`: a rank-deficient fit, where all abscissae are equal, is a failure. numpy warns and returns a minimum-norm line, whose crossing the model does not compute.
- `TimingCalibration.Overflowed`: a rank-deficient fit is treated as stopping the run. In numpy it only warns, and the crossing it gives would be placed like any other.
- `TimingCalibration.Rescale`: a zero-sum table is a failure. numpy yields a table of NaN (or `inf`) entries.
- `Capture.ReadEvents`: genfromtxt turns an unparsable cell into NaN, and `int(NaN)` raises. Rows are already numbers here.
- `PySemantics.Trunc`: `int()` of an infinite or NaN float raises in Python. The model's reals are always finite.
- Method names other than 'fixed' and 'calc' are not modelled. In the source they leave `percPeak` unbound, and the source never passes one.
- `TOAWithCalibration.Widths`: a table with fewer than two columns makes `dtEven[:, 1]` raise. Rows here always carry both columns.
- `TOAWithCalibration.EventDifference`: the channel-3 axis is computed and then unused, as in the source. Its value is not checked.
- The copy slips are modelled as written, not corrected:
  - TOA_withCalibration.py:125 loads the channel-3 odd table from the channel-3 EVEN file.
  - TOA_withCalibration.py:146 times channel 3 on the channel-0 axis.
  - Because of the second slip, the channel-3 tables have no effect on any difference.
- Commented-out code is not modelled: `trimGauss` (TOA_withCalibration.py:140-141) and the filter at TOA_withCalibration.py:157-158.
- Unused imports are left out: scipy, iminuit and math.
- Where the comments disagree with the code, the code is followed:
  - The comment at TimingCalibration.py:61 promises `2 + 2n` fit points. That copy fits `2n + 1`: see `TimingCalibration.FitWindowHolds2nPlus1` and `TimingCalibration.SingleSampleFit`.
  - The rebuilt axis has `1 + 128 * int(int(len/64)/2)` points, which is `len + 1` only for a whole number of window pairs: see `TOAWithCalibration.TimeAxisLength` and `TOAWithCalibration.FullAxisLength`.

## Findings

| source | as written | input that shows it | evidently intended | confidence | as-written member | corrected member |
|---|---|---|---|---|---|---|
| TimingCalibration.py:109-112 | `if TOA > len(windnum): continue`, then `windnum[int(TOA)]` | a crossing with `TOA == len(windnum)`: it passes the guard and `windnum[len(windnum)]` raises IndexError | skip every crossing at or beyond the end, `TOA >= len(windnum)`, as the comment "omit some code-breaking outliers" intends | high, not executed | TimingCalibration.ClassifyAsWritten (pass: TimingCalibration.FillHistogramAsWritten; counterexample: TimingCalibration.GuardAdmitsLength, TimingCalibration.PassesDiffer) | TimingCalibration.Classify (proved: TimingCalibration.GuardCorrected; used by TimingCalibration.FillHistogram) |
