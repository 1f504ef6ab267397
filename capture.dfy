/**
 * The event store both scripts build in `csvReader`: rows of the capture file,
 * already parsed into numbers, are appended one by one to the event named in
 * column 1 until the first row of the last event has been read.
 */
module Capture {
  import opened Wrappers
  import opened PySemantics

  /** The columns the readers use: event index (1), window number (2), sample time (3), channel 0 (4), channel 3 (5). */
  datatype Row = Row(event: real, windnum: real, time: real, ch0: real, ch3: real)

  /** One trigger: parallel per-sample lists. `dataCh3` stays empty for a one-channel reader. */
  datatype Event = Event(windnum: seq<real>, time: seq<real>, dataCh0: seq<real>, dataCh3: seq<real>)

  /** Why reading stops with an exception: a row past the end of the file, or an event index past the list. */
  datatype ReadError = RowIndexError | EventIndexError

  const Empty := Event([], [], [], [])

  /** A fresh `[Event() for _ in range(numEvents)]`. */
  function Fresh(numEvents: nat): (evs: seq<Event>)
    ensures |evs| == numEvents
    ensures forall k :: 0 <= k < numEvents ==> evs[k] == Empty
  {
    seq(numEvents, _ => Empty)
  }

  /** The per-sample lists of an event have one entry per row read into it (channel 3 only when it is read). */
  predicate Parallel(e: Event, withCh3: bool)
  {
    |e.time| == |e.windnum| && |e.dataCh0| == |e.windnum| && (withCh3 ==> |e.dataCh3| == |e.windnum|)
  }

  /**
   * The appends of one loop iteration, for a reader with or without channel 3:
   * every list keeps what it held and gains the row's value at its end; channel 3
   * is left alone by a reader without it. The lists stay parallel.
   */
  function Append(e: Event, r: Row, withCh3: bool): (a: Event)
    ensures |a.windnum| == |e.windnum| + 1 && a.windnum[..|e.windnum|] == e.windnum && a.windnum[|e.windnum|] == r.windnum
    ensures |a.time| == |e.time| + 1 && a.time[..|e.time|] == e.time && a.time[|e.time|] == r.time
    ensures |a.dataCh0| == |e.dataCh0| + 1 && a.dataCh0[..|e.dataCh0|] == e.dataCh0 && a.dataCh0[|e.dataCh0|] == r.ch0
    ensures withCh3 ==>
      |a.dataCh3| == |e.dataCh3| + 1 && a.dataCh3[..|e.dataCh3|] == e.dataCh3 && a.dataCh3[|e.dataCh3|] == r.ch3
    ensures !withCh3 ==> a.dataCh3 == e.dataCh3
    ensures Parallel(e, withCh3) ==> Parallel(a, withCh3)
  {
    Event(e.windnum + [r.windnum], e.time + [r.time], e.dataCh0 + [r.ch0],
          if withCh3 then e.dataCh3 + [r.ch3] else e.dataCh3)
  }

  /** The list position `EventsList[int(row[1])]` reaches, negative indices counting from the end. */
  function Slot(r: Row, numEvents: nat): (k: Option<nat>)
    ensures k.Some? <==> -(numEvents as int) <= Trunc(r.event) < numEvents
    ensures k.Some? ==> k.value < numEvents
    ensures k.Some? && Trunc(r.event) >= 0 ==> k.value == Trunc(r.event)
    ensures k.Some? && Trunc(r.event) < 0 ==> k.value == numEvents + Trunc(r.event)
  {
    Position(Trunc(r.event), numEvents)
  }

  /** The event list after appending every row of `rows` in order; `None` if a row names no event. */
  function Grouped(rows: seq<Row>, numEvents: nat, withCh3: bool): (g: Option<seq<Event>>)
    ensures g.Some? ==> |g.value| == numEvents
  {
    if |rows| == 0 then Some(Fresh(numEvents))
    else
      var n := |rows| - 1;
      match Grouped(rows[..n], numEvents, withCh3)
      case None => None
      case Some(evs) =>
        match Slot(rows[n], numEvents)
        case None => None
        case Some(k) => Some(evs[k := Append(evs[k], rows[n], withCh3)])
  }

  /** The position of the first row that names the last event, `numEvents - 1`. */
  function StopRow(rows: seq<Row>, numEvents: nat): (k: Option<nat>)
    ensures k.Some? ==> k.value < |rows| && Trunc(rows[k.value].event) == numEvents - 1
    ensures k.Some? ==> forall j :: 0 <= j < k.value ==> Trunc(rows[j].event) != numEvents - 1
    ensures k.None? ==> forall j :: 0 <= j < |rows| ==> Trunc(rows[j].event) != numEvents - 1
  {
    if |rows| == 0 then None
    else
      var n := |rows| - 1;
      match StopRow(rows[..n], numEvents)
      case Some(k) => Some(k)
      case None => if Trunc(rows[n].event) == numEvents - 1 then Some(n) else None
  }

  /**
   * The reader finishes without an exception: some row names the last event, every
   * row up to it names an event of the list, and the progress check after it
   * (which looks at the NEXT row when the event index is a multiple of
   * `reportEvery`) still finds a row.
   */
  predicate ReadsCleanly(rows: seq<Row>, numEvents: nat, withCh3: bool, reportEvery: nat)
    requires reportEvery > 0
  {
    numEvents <= 1 ||
    (StopRow(rows, numEvents).Some? &&
     var k := StopRow(rows, numEvents).value;
     Grouped(rows[..k + 1], numEvents, withCh3).Some? &&
     !(k + 1 == |rows| && (numEvents - 1) % reportEvery == 0))
  }

  /** The event list a clean read hands back. */
  function EventsRead(rows: seq<Row>, numEvents: nat, withCh3: bool, reportEvery: nat): (evs: seq<Event>)
    requires reportEvery > 0 && ReadsCleanly(rows, numEvents, withCh3, reportEvery)
    ensures |evs| == numEvents
  {
    if numEvents <= 1 then Fresh(numEvents)
    else Grouped(rows[..StopRow(rows, numEvents).value + 1], numEvents, withCh3).value
  }

  /** One more row: the grouping of the longer prefix appends it to the event it names. */
  lemma GroupedStep(rows: seq<Row>, row: nat, numEvents: nat, withCh3: bool, events: seq<Event>)
    requires row < |rows| && Grouped(rows[..row], numEvents, withCh3) == Some(events)
    ensures Slot(rows[row], numEvents).None? ==> Grouped(rows[..row + 1], numEvents, withCh3).None?
    ensures Slot(rows[row], numEvents).Some? ==>
      var k := Slot(rows[row], numEvents).value;
      Grouped(rows[..row + 1], numEvents, withCh3) == Some(events[k := Append(events[k], rows[row], withCh3)])
  {
    assert rows[..row + 1][..row] == rows[..row];
  }

  /** A grouping that succeeded placed its last row in some event. */
  lemma GroupedSome(rows: seq<Row>, row: nat, numEvents: nat, withCh3: bool)
    requires 0 < row <= |rows| && Grouped(rows[..row], numEvents, withCh3).Some?
    ensures Slot(rows[row - 1], numEvents).Some?
  {
    assert rows[..row][row - 1] == rows[row - 1];
  }

  /** Once a prefix names a missing event, every longer prefix does too. */
  lemma {:induction false} GroupedStaysNone(rows: seq<Row>, i: nat, j: nat, numEvents: nat, withCh3: bool)
    requires i <= j <= |rows|
    requires Grouped(rows[..i], numEvents, withCh3).None?
    ensures Grouped(rows[..j], numEvents, withCh3).None?
    decreases j
  {
    if i < j {
      GroupedStaysNone(rows, i, j - 1, numEvents, withCh3);
      assert rows[..j][..j - 1] == rows[..j - 1];
    }
  }

  /** No row up to position `row` names the last event: reading cannot finish cleanly. */
  lemma NoStopNotClean(rows: seq<Row>, numEvents: nat, withCh3: bool, reportEvery: nat, row: nat)
    requires reportEvery > 0 && numEvents > 1 && row == |rows|
    requires forall j :: 0 <= j < row ==> Trunc(rows[j].event) != numEvents - 1
    ensures !ReadsCleanly(rows, numEvents, withCh3, reportEvery)
  {
    assert StopRow(rows, numEvents).None?;
  }

  /** A row before the stop row names no event: reading cannot finish cleanly. */
  lemma BadSlotNotClean(rows: seq<Row>, numEvents: nat, withCh3: bool, reportEvery: nat, row: nat)
    requires reportEvery > 0 && numEvents > 1 && row < |rows|
    requires forall j :: 0 <= j < row ==> Trunc(rows[j].event) != numEvents - 1
    requires Grouped(rows[..row + 1], numEvents, withCh3).None?
    ensures !ReadsCleanly(rows, numEvents, withCh3, reportEvery)
  {
    var k := StopRow(rows, numEvents);
    if k.Some? {
      GroupedStaysNone(rows, row + 1, k.value + 1, numEvents, withCh3);
    }
  }

  /** The progress check after the last row of the file fails: reading cannot finish cleanly. */
  lemma LastRowNotClean(rows: seq<Row>, numEvents: nat, withCh3: bool, reportEvery: nat)
    requires reportEvery > 0 && numEvents > 1 && |rows| > 0
    requires forall j :: 0 <= j < |rows| - 1 ==> Trunc(rows[j].event) != numEvents - 1
    requires Trunc(rows[|rows| - 1].event) % reportEvery == 0
    ensures !ReadsCleanly(rows, numEvents, withCh3, reportEvery)
  {
  }

  /** The stop row has been appended and the check after it passed: reading finishes cleanly. */
  lemma StopClean(rows: seq<Row>, numEvents: nat, withCh3: bool, reportEvery: nat, row: nat)
    requires reportEvery > 0 && numEvents > 1 && 0 < row <= |rows|
    requires forall j :: 0 <= j < row - 1 ==> Trunc(rows[j].event) != numEvents - 1
    requires Trunc(rows[row - 1].event) == numEvents - 1
    requires Grouped(rows[..row], numEvents, withCh3).Some?
    requires (numEvents - 1) % reportEvery == 0 ==> row < |rows|
    ensures StopRow(rows, numEvents) == Some(row - 1)
    ensures ReadsCleanly(rows, numEvents, withCh3, reportEvery)
  {
  }

  /**
   * `csvReader`: a fresh list of `numEvents` events, filled by the row loop below
   * when there is more than one event. The result is the grouping of exactly the
   * rows up to and including the first row of event `numEvents - 1`.
   */
  method ReadEvents(rows: seq<Row>, numEvents: nat, withCh3: bool, reportEvery: nat)
    returns (r: Result<seq<Event>, ReadError>)
    requires reportEvery > 0
    ensures numEvents <= 1 ==> r == Success(Fresh(numEvents))
    ensures r.Success? <==> ReadsCleanly(rows, numEvents, withCh3, reportEvery)
    ensures r.Success? && numEvents > 1 ==>
      Grouped(rows[..StopRow(rows, numEvents).value + 1], numEvents, withCh3) == Some(r.value)
    ensures r.Success? ==> r.value == EventsRead(rows, numEvents, withCh3, reportEvery)
  {
    if numEvents <= 1 {
      // `while eventNo < numEvents - 1` does not run once
      return Success(Fresh(numEvents));
    }
    r := ScanRows(rows, numEvents, withCh3, reportEvery);
  }

  /**
   * `csvReader`'s loop: rows are appended to the event they name until the first
   * row of event `numEvents - 1` has been appended.
   */
  method ScanRows(rows: seq<Row>, numEvents: nat, withCh3: bool, reportEvery: nat)
    returns (r: Result<seq<Event>, ReadError>)
    requires reportEvery > 0 && numEvents > 1
    ensures r.Success? <==> ReadsCleanly(rows, numEvents, withCh3, reportEvery)
    ensures r.Success? ==>
      Grouped(rows[..StopRow(rows, numEvents).value + 1], numEvents, withCh3) == Some(r.value)
  {
    var events := Fresh(numEvents);
    var eventNo := 0;
    var row := 0;
    while eventNo < numEvents - 1
      invariant row <= |rows|
      invariant Grouped(rows[..row], numEvents, withCh3) == Some(events)
      invariant row == 0 ==> eventNo == 0
      invariant eventNo < numEvents
      invariant row > 0 ==> eventNo == Trunc(rows[row - 1].event)
      invariant forall j :: 0 <= j < row - 1 ==> Trunc(rows[j].event) != numEvents - 1
      invariant row > 0 && eventNo % reportEvery == 0 ==> row < |rows|
      decreases |rows| - row
    {
      if row == |rows| {
        // fullCSV[row] is past the last row: no row names the last event
        NoStopNotClean(rows, numEvents, withCh3, reportEvery, row);
        return Failure(RowIndexError);
      }
      assert forall j :: 0 <= j < row ==> Trunc(rows[j].event) != numEvents - 1;
      eventNo := Trunc(rows[row].event);
      var turn, next := ScanTurn(rows, numEvents, withCh3, reportEvery, row, events);
      if turn.Failure? {
        return Failure(turn.error);
      }
      events, row := turn.value, next;
    }
    StopClean(rows, numEvents, withCh3, reportEvery, row);
    r := Success(events);
  }

  /**
   * One pass of `csvReader`'s loop body over a row before the stop row: the row is
   * appended to the event it names, then the progress check reads the next row
   * when the event index is a multiple of `reportEvery`.
   */
  method ScanTurn(rows: seq<Row>, numEvents: nat, withCh3: bool, reportEvery: nat, row: nat, events: seq<Event>)
    returns (r: Result<seq<Event>, ReadError>, next: nat)
    requires reportEvery > 0 && numEvents > 1 && row < |rows|
    requires Grouped(rows[..row], numEvents, withCh3) == Some(events)
    requires forall j :: 0 <= j < row ==> Trunc(rows[j].event) != numEvents - 1
    ensures r.Failure? ==> !ReadsCleanly(rows, numEvents, withCh3, reportEvery)
    ensures next == row + 1
    ensures r.Success? ==> Grouped(rows[..next], numEvents, withCh3) == Some(r.value)
    ensures r.Success? ==> Trunc(rows[next - 1].event) < numEvents
    ensures r.Success? && Trunc(rows[next - 1].event) % reportEvery == 0 ==> next < |rows|
  {
    next := row + 1;
    var grown := ReadRow(rows, row, numEvents, withCh3, events);
    if grown.None? {
      BadSlotNotClean(rows, numEvents, withCh3, reportEvery, row);
      return Failure(EventIndexError), next;
    }
    GroupedSome(rows, row + 1, numEvents, withCh3);
    if Trunc(rows[row].event) % reportEvery == 0 && row + 1 >= |rows| {
      // the progress message reads fullCSV[row][3], one past the last row
      LastRowNotClean(rows, numEvents, withCh3, reportEvery);
      return Failure(RowIndexError), next;
    }
    r := Success(grown.value);
  }

  /** One turn of `csvReader`'s loop: the row is appended to the event it names, if the list has one. */
  method ReadRow(rows: seq<Row>, row: nat, numEvents: nat, withCh3: bool, events: seq<Event>)
    returns (next: Option<seq<Event>>)
    requires row < |rows| && Grouped(rows[..row], numEvents, withCh3) == Some(events)
    ensures next == Grouped(rows[..row + 1], numEvents, withCh3)
  {
    GroupedStep(rows, row, numEvents, withCh3, events);
    match Slot(rows[row], numEvents) {
      case None =>
        next := None;
      case Some(k) =>
        next := Some(events[k := Append(events[k], rows[row], withCh3)]);
    }
  }

  /**
   * `f` of events `1 .. k` in order: what a loop over `range(1, numEvents - 1)`
   * collects, after `k` turns.
   */
  function EachEvent<T>(f: Event -> T, events: seq<Event>, k: nat): (r: seq<T>)
    requires k < |events|
    ensures |r| == k
  {
    if k == 0 then [] else EachEvent(f, events, k - 1) + [f(events[k])]
  }

  /** Entry `i - 1` of what the loop collects comes from event `i`. */
  lemma {:induction false} EachEventAt<T>(f: Event -> T, events: seq<Event>, k: nat, i: nat)
    requires 1 <= i <= k < |events|
    ensures EachEvent(f, events, k)[i - 1] == f(events[i])
  {
    if i < k {
      EachEventAt(f, events, k - 1, i);
    }
  }

  /** What a loop over `range(1, len - 1)` collects: `f` of every event but the first and the last. */
  function EachInner<T>(f: Event -> T, events: seq<Event>): (r: seq<T>)
    ensures |r| == if |events| >= 2 then |events| - 2 else 0
  {
    if |events| < 2 then [] else EachEvent(f, events, |events| - 2)
  }

  /** Entry `i - 1` of what that loop collects comes from event `i`. */
  lemma EachInnerAt<T>(f: Event -> T, events: seq<Event>, i: nat)
    requires 1 <= i < |events| - 1
    ensures EachInner(f, events)[i - 1] == f(events[i])
  {
    EachEventAt(f, events, |events| - 2, i);
  }

  // ---------------------------------------------------------------------------
  // What the grouping holds
  // ---------------------------------------------------------------------------

  /** The rows that land in event `k`, in file order. */
  function Members(rows: seq<Row>, k: nat, numEvents: nat): seq<Row>
  {
    if |rows| == 0 then []
    else
      var n := |rows| - 1;
      Members(rows[..n], k, numEvents) + (if Slot(rows[n], numEvents) == Some(k) then [rows[n]] else [])
  }

  /** The event built by appending `rs` in order to an empty one. */
  function Build(rs: seq<Row>, withCh3: bool): Event
  {
    if |rs| == 0 then Empty else Append(Build(rs[..|rs| - 1], withCh3), rs[|rs| - 1], withCh3)
  }

  /** Each event of the grouping holds exactly the rows that name it, in file order. */
  lemma {:induction false} GroupedMembers(rows: seq<Row>, numEvents: nat, withCh3: bool, k: nat)
    requires Grouped(rows, numEvents, withCh3).Some? && k < numEvents
    ensures Grouped(rows, numEvents, withCh3).value[k] == Build(Members(rows, k, numEvents), withCh3)
  {
    if |rows| > 0 {
      var n := |rows| - 1;
      GroupedMembers(rows[..n], numEvents, withCh3, k);
      var ms := Members(rows[..n], k, numEvents);
      if Slot(rows[n], numEvents) == Some(k) {
        assert (ms + [rows[n]])[..|ms|] == ms;
      } else {
        assert ms + [] == ms;
      }
    }
  }

  /**
   * The per-sample lists of `e` hold the fields of `rs`, one entry each per row,
   * and channel 3 only for the two-channel reader.
   */
  predicate Holds(e: Event, rs: seq<Row>, withCh3: bool)
  {
    |e.windnum| == |rs| && |e.time| == |rs| && |e.dataCh0| == |rs| &&
    |e.dataCh3| == (if withCh3 then |rs| else 0) &&
    forall i :: 0 <= i < |rs| ==>
      e.windnum[i] == rs[i].windnum && e.time[i] == rs[i].time && e.dataCh0[i] == rs[i].ch0
  }

  /** Appending the last row of `rs` to an event that holds the others gives one that holds `rs`. */
  lemma AppendHolds(e: Event, rs: seq<Row>, withCh3: bool)
    requires |rs| > 0 && Holds(e, rs[..|rs| - 1], withCh3)
    ensures Holds(Append(e, rs[|rs| - 1], withCh3), rs, withCh3)
  {
    var n := |rs| - 1;
    var a := Append(e, rs[n], withCh3);
    forall i | 0 <= i < n
      ensures a.windnum[i] == rs[i].windnum && a.time[i] == rs[i].time && a.dataCh0[i] == rs[i].ch0
    {
      assert rs[..n][i] == rs[i];
      assert a.windnum[..n][i] == a.windnum[i];
      assert a.time[..n][i] == a.time[i];
      assert a.dataCh0[..n][i] == a.dataCh0[i];
    }
  }

  /** The per-sample lists of an event grow in lockstep, one entry per row appended. */
  lemma {:induction false} BuildLockstep(rs: seq<Row>, withCh3: bool)
    ensures Holds(Build(rs, withCh3), rs, withCh3)
  {
    if |rs| > 0 {
      BuildLockstep(rs[..|rs| - 1], withCh3);
      AppendHolds(Build(rs[..|rs| - 1], withCh3), rs, withCh3);
    }
  }

  /** Every event read has equally long window, time and amplitude lists. */
  lemma GroupedLockstep(rows: seq<Row>, numEvents: nat, withCh3: bool, k: nat)
    requires Grouped(rows, numEvents, withCh3).Some? && k < numEvents
    ensures var e := Grouped(rows, numEvents, withCh3).value[k];
      |e.windnum| == |e.time| == |e.dataCh0| == |Members(rows, k, numEvents)| &&
      |e.dataCh3| == (if withCh3 then |e.time| else 0)
  {
    GroupedMembers(rows, numEvents, withCh3, k);
    BuildLockstep(Members(rows, k, numEvents), withCh3);
  }
}
