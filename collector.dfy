/**
 * The consumer loop of main: one queue item per iteration, an ESP poll while
 * the latch is open, one appended row per Fluke value, and the exit once the
 * latch is closed and the queue is empty. The queue and its producer thread are
 * abstracted into the sequence of what each get() returned.
 */
module Collector {

  import opened Options
  import opened Sensor
  import opened Liveness
  import opened CapacityIntegrator
  import opened RowMerger
  import TimeFormat

  /**
   * One iteration of main's loop. Timeout: get(timeout=5) raised queue.Empty.
   * Dequeued: the Fluke value taken from the queue (None for a failed read),
   * what the ESP request would yield were it made, the clock readings, and what
   * fluke_data_queue.empty() reports after the row is written.
   */
  datatype Tick =
    | Timeout
    | Dequeued(fluke: Option<real>, http: HttpOutcome, clock: TickClock, queueEmpty: bool)

  /** The module globals the loop updates, and the data rows appended to the file by this run. */
  datatype CollectorState = CollectorState(latch: Latch, capacity: Capacity, rows: seq<Row>)

  const Initial: CollectorState := CollectorState(InitialLatch, InitialCapacity, [])

  datatype StepKind = Continue | Exit | Crash

  datatype Stepped = Stepped(kind: StepKind, state: CollectorState)

  /** The data main passes on: the fetched payload, or None when the ESP was not polled or gave nothing. */
  function DataOf(f: Fetched): Option<Payload> {
    if f.Data? then Some(f.payload) else None
  }

  /** One iteration of the loop body; Crash is a KeyError that ends the program. */
  function Step(st: CollectorState, t: Tick): Stepped {
    match t
    case Timeout => Stepped(Continue, st)
    case Dequeued(fluke, http, clock, queueEmpty) =>
      if fluke.None? then Stepped(Continue, st)
      else
        var obs := if st.latch.espRunning then FetchSensorData(st.latch, http, clock) else Observation(st.latch, NoData);
        if obs.result.KeyErrorRaised? then Stepped(Crash, st.(latch := obs.latch))
        else
          var a := AppendData(st.capacity, DataOf(obs.result), fluke, obs.latch.espRunning, clock);
          var next := CollectorState(obs.latch, a.capacity, if a.row.Some? then st.rows + [a.row.value] else st.rows);
          if a.row.None? then Stepped(Crash, next)
          else if !obs.latch.espRunning && queueEmpty then Stepped(Exit, next)
          else Stepped(Continue, next)
  }

  datatype DrainEnd = Exited | Crashed | Exhausted

  datatype Drained = Drained(end: DrainEnd, state: CollectorState)

  /** The loop run over the ticks until it breaks, crashes, or the ticks run out (main would keep waiting). */
  function Drain(st: CollectorState, ticks: seq<Tick>): Drained
    decreases |ticks|
  {
    if ticks == [] then Drained(Exhausted, st)
    else
      var s := Step(st, ticks[0]);
      match s.kind
      case Continue => Drain(s.state, ticks[1..])
      case Exit => Drained(Exited, s.state)
      case Crash => Drained(Crashed, s.state)
  }

  /** The end-of-run summary main prints: the two instants, the time between them, and the total charge. */
  datatype Summary = Summary(startTime: Option<Instant>, stopTime: Option<Instant>, duration: Option<int>, totalMah: real)

  function SummaryOf(st: CollectorState): Summary {
    var l := st.latch;
    Summary(l.espStartTime, l.espStopTime,
            if l.espStartTime.Some? && l.espStopTime.Some? then Some(l.espStopTime.value - l.espStartTime.value) else None,
            st.capacity.totalMah)
  }

  datatype RunEnd = Finished(summary: Summary) | CrashedRun | Waiting

  datatype Ran = Ran(end: RunEnd, state: CollectorState)

  /** main from the loop on: after the break, the summary, then only the start and stop instants are reset. */
  function Run(st: CollectorState, ticks: seq<Tick>): Ran {
    var d := Drain(st, ticks);
    match d.end
    case Exited => Ran(Finished(SummaryOf(d.state)),
                       d.state.(latch := d.state.latch.(espStartTime := None, espStopTime := None)))
    case Crashed => Ran(CrashedRun, d.state)
    case Exhausted => Ran(Waiting, d.state)
  }

  /** The collector script's globals as an object, and its functions as methods over them. */
  class DataCollector {
    var espRunning: bool
    var espStartTime: Option<Instant>
    var espStopTime: Option<Instant>
    var totalMah: real
    var previousTime: Option<Instant>
    var previousCurrent: Option<real>
    var rows: seq<Row>

    function State(): CollectorState
      reads this
    {
      CollectorState(Latch(espRunning, espStartTime, espStopTime),
                     Capacity(totalMah, previousTime, previousCurrent), rows)
    }

    constructor ()
      ensures State() == Initial
    {
      espRunning, espStartTime, espStopTime := true, None, None;
      totalMah, previousTime, previousCurrent := 0.0, None, None;
      rows := [];
    }

    method FetchSensorDataFromEsp(http: HttpOutcome, clock: TickClock) returns (result: Fetched)
      modifies this
      ensures Observation(State().latch, result) == FetchSensorData(old(State().latch), http, clock)
      ensures State().capacity == old(State().capacity) && rows == old(rows)
    {
      match http
      case RequestFailed =>
        espRunning := false;
        if espStopTime.None? {
          espStopTime := Some(clock.stopAt);
        }
        result := NoData;
      case Response(p) =>
        if p.ina219.None? || p.ina219.value.busV.None? {
          return KeyErrorRaised;
        }
        var busVoltage := p.ina219.value.busV.value;
        if busVoltage < EspLowerThreshold {
          espRunning := false;
          if espStopTime.None? {
            espStopTime := Some(clock.stopAt);
          }
        }
        if espStartTime.None? {
          espStartTime := Some(clock.startAt);
        }
        result := Data(p);
    }

    /** The trapezoidal integration step of append_data_to_csv; `current` is present exactly when the call has ESP data. */
    method IntegrateCurrent(current: Option<real>, now: Instant, later: Instant)
      modifies this
      ensures State() == old(State()).(capacity := Integrate(old(State().capacity), current, now, later))
    {
      if current.Some? && previousTime.Some? && previousCurrent.Some? {
        var dtHours := (now as int - previousTime.value as int) as real / MicrosPerHour;
        var avgCurrent := (current.value + previousCurrent.value) / 2.0;
        totalMah := totalMah + avgCurrent * dtHours;
      }
      previousTime := Some(later);
      previousCurrent := current;
    }

    method AppendDataToCsv(data: Option<Payload>, fluke: Option<real>, clock: TickClock) returns (written: bool)
      modifies this
      ensures var a := AppendData(old(State().capacity), data, fluke, old(espRunning), clock);
              && State() == old(State()).(capacity := a.capacity,
                                          rows := if a.row.Some? then old(rows) + [a.row.value] else old(rows))
              && written == a.row.Some?
    {
      var electrical := ElectricalOf(data);
      if electrical.KeyError? {
        return false;
      }
      var e := electrical.value;
      var esp8266Active := espRunning;
      IntegrateCurrent(e.current, clock.integrateAt, clock.recordAt);
      var motion := MotionOf(data);
      if motion.KeyError? {
        return false;
      }
      rows := rows + [MergeRow(clock.stampAt, e, fluke, LoadOf(data), motion.value, esp8266Active)];
      written := true;
    }

    /** main's loop over the queue items, then the summary and the reset of the start and stop instants. */
    method MainLoop(ticks: seq<Tick>) returns (end: RunEnd)
      modifies this
      ensures Ran(end, State()) == Run(old(State()), ticks)
    {
      var i := 0;
      while i < |ticks|
        invariant 0 <= i <= |ticks|
        invariant Drain(old(State()), ticks) == Drain(State(), ticks[i..])
      {
        var t := ticks[i];
        assert ticks[i..] == [t] + ticks[i + 1..];
        if t.Dequeued? && t.fluke.Some? {
          var data: Option<Payload> := None;
          if espRunning {
            var fetched := FetchSensorDataFromEsp(t.http, t.clock);
            if fetched.KeyErrorRaised? {
              return CrashedRun;
            }
            data := DataOf(fetched);
          }
          var written := AppendDataToCsv(data, t.fluke, t.clock);
          if !written {
            return CrashedRun;
          }
          if !espRunning && t.queueEmpty {
            end := Finished(SummaryOf(State()));
            espStartTime := None;
            espStopTime := None;
            return;
          }
        }
        i := i + 1;
      }
      end := Waiting;
    }
  }
}
