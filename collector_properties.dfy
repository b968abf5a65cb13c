/** What the consumer loop guarantees over a whole run. */
module CollectorProperties {

  import opened Options
  import opened Sensor
  import opened Liveness
  import opened CapacityIntegrator
  import opened RowMerger
  import opened Collector

  /** How the latch may evolve: it only closes, and its instants are recorded once. */
  predicate LatchFollows(before: Latch, after: Latch) {
    && (!before.espRunning ==> !after.espRunning)
    && (before.espStopTime.Some? ==> after.espStopTime == before.espStopTime)
    && (before.espStartTime.Some? ==> after.espStartTime == before.espStartTime)
  }

  /** Over any number of iterations the latch only closes, its instants are never overwritten, rows are only appended. */
  lemma {:induction false} DrainKeepsLatch(st: CollectorState, ticks: seq<Tick>)
    ensures LatchFollows(st.latch, Drain(st, ticks).state.latch)
    ensures Consistent(st.latch) ==> Consistent(Drain(st, ticks).state.latch)
    ensures st.rows <= Drain(st, ticks).state.rows
    decreases |ticks|
  {
    if ticks != [] {
      var s := Step(st, ticks[0]);
      if s.kind == Continue {
        DrainKeepsLatch(s.state, ticks[1..]);
      }
    }
  }

  /** The number of Fluke values (not None) among the queue items. */
  function Readings(ticks: seq<Tick>): nat {
    if ticks == [] then 0
    else (if ticks[0].Dequeued? && ticks[0].fluke.Some? then 1 else 0) + Readings(ticks[1..])
  }

  /** Rows written never outnumber the Fluke values dequeued; if the loop is still waiting, each got exactly one. */
  lemma {:induction false} RowsPerReading(st: CollectorState, ticks: seq<Tick>)
    ensures |Drain(st, ticks).state.rows| <= |st.rows| + Readings(ticks)
    ensures Drain(st, ticks).end == Exhausted ==> |Drain(st, ticks).state.rows| == |st.rows| + Readings(ticks)
    decreases |ticks|
  {
    if ticks != [] {
      var s := Step(st, ticks[0]);
      if s.kind == Continue {
        RowsPerReading(s.state, ticks[1..]);
      }
    }
  }

  /** Every row of the run has Voltage Difference = Fluke − Bus when both are present, and is empty otherwise. */
  lemma {:induction false} DrainRowsConsistent(st: CollectorState, ticks: seq<Tick>)
    requires forall r :: r in st.rows ==> DifferenceConsistent(r)
    ensures forall r :: r in Drain(st, ticks).state.rows ==> DifferenceConsistent(r)
    decreases |ticks|
  {
    if ticks != [] {
      var s := Step(st, ticks[0]);
      if s.kind == Continue {
        DrainRowsConsistent(s.state, ticks[1..]);
      }
    }
  }

  /** A queue item with the ESP outcome erased. */
  function Unpolled(t: Tick): Tick {
    if t.Dequeued? then t.(http := RequestFailed) else t
  }

  /** Once the latch is closed the ESP is never polled: what it would have answered cannot matter. */
  lemma {:induction false} NoPollWhileClosed(st: CollectorState, a: seq<Tick>, b: seq<Tick>)
    requires !st.latch.espRunning
    requires |a| == |b| && forall i :: 0 <= i < |a| ==> Unpolled(a[i]) == Unpolled(b[i])
    ensures Drain(st, a) == Drain(st, b)
    decreases |a|
  {
    if a != [] {
      assert Unpolled(a[0]) == Unpolled(b[0]);
      assert Step(st, a[0]) == Step(st, b[0]);
      var s := Step(st, a[0]);
      if s.kind == Continue {
        assert forall i :: 0 <= i < |a| - 1 ==> a[1..][i] == a[i + 1] && b[1..][i] == b[i + 1];
        NoPollWhileClosed(s.state, a[1..], b[1..]);
      }
    }
  }

  /**
   * Once the latch is closed every further row has empty ESP fields and ESP8266 Active
   * False, and the charge total stays where it was.
   */
  lemma {:induction false} ClosedRunIsBare(st: CollectorState, ticks: seq<Tick>)
    requires !st.latch.espRunning
    ensures var fin := Drain(st, ticks).state;
            && fin.capacity.totalMah == st.capacity.totalMah
            && forall i :: |st.rows| <= i < |fin.rows| ==> !fin.rows[i].espActive && NoEspFields(fin.rows[i])
    decreases |ticks|
  {
    DrainKeepsLatch(st, ticks);
    if ticks != [] {
      var s := Step(st, ticks[0]);
      if s.kind == Continue {
        ClosedRunIsBare(s.state, ticks[1..]);
        DrainKeepsLatch(s.state, ticks[1..]);
      }
    }
  }

  /** The loop breaks only right after writing a row with the latch closed, that row showing ESP8266 Active False. */
  lemma {:induction false} ExitAfterClosedRow(st: CollectorState, ticks: seq<Tick>)
    ensures var d := Drain(st, ticks);
            d.end == Exited ==>
              && !d.state.latch.espRunning
              && |d.state.rows| > |st.rows|
              && !d.state.rows[|d.state.rows| - 1].espActive
    decreases |ticks|
  {
    if ticks != [] {
      var s := Step(st, ticks[0]);
      if s.kind == Continue {
        ExitAfterClosedRow(s.state, ticks[1..]);
        DrainKeepsLatch(s.state, ticks[1..]);
      }
    }
  }

  /** A dequeued Fluke value that was written ends the loop exactly when the latch is closed and the queue is empty. */
  lemma ExitRule(st: CollectorState, t: Tick)
    requires t.Dequeued? && t.fluke.Some? && Step(st, t).kind != Crash
    ensures Step(st, t).kind == Exit <==> !Step(st, t).state.latch.espRunning && t.queueEmpty
    ensures |Step(st, t).state.rows| == |st.rows| + 1
  {
  }

  /**
   * The tick whose bus voltage falls below the threshold still writes its row: the
   * payload's sensor values, flagged ESP8266 Active False.
   */
  lemma LowVoltageTickRow(st: CollectorState, v: real, http: HttpOutcome, clock: TickClock, queueEmpty: bool)
    requires st.latch.espRunning && http.Response?
    requires CompleteIna(http.payload) && CompleteMotion(http.payload)
    requires http.payload.ina219.value.busV.value < EspLowerThreshold
    ensures var s := Step(st, Dequeued(Some(v), http, clock, queueEmpty));
            && s.kind != Crash && !s.state.latch.espRunning
            && |s.state.rows| == |st.rows| + 1
            && !s.state.rows[|st.rows|].espActive
            && EspFieldsFrom(s.state.rows[|st.rows|], http.payload)
  {
  }

  /** A queue timeout or a failed Fluke read skips the iteration: no poll, no row, nothing changes. */
  lemma SkippedTick(st: CollectorState, t: Tick)
    requires t.Timeout? || t.fluke.None?
    ensures Step(st, t) == Stepped(Continue, st)
  {
  }

  /**
   * A run that ends normally from the initial globals reports a stop instant, and leaves
   * esp_running False: only the two instants are reset for the next run.
   */
  lemma {:induction false} FinishedRunFromStart(ticks: seq<Tick>)
    ensures var r := Run(Initial, ticks);
            r.end.Finished? ==>
              && r.end.summary.stopTime.Some?
              && r.end.summary.totalMah == r.state.capacity.totalMah
              && r.state.latch == Latch(false, None, None)
  {
    DrainKeepsLatch(Initial, ticks);
    ExitAfterClosedRow(Initial, ticks);
  }
}
