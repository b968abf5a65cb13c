/**
 * The trapezoidal charge integrator of append_data_to_csv, over the module
 * globals total_mAh, previous_time and previous_current.
 */
module CapacityIntegrator {

  import opened Options
  import opened Sensor

  datatype Capacity = Capacity(totalMah: real, previousTime: Option<Instant>, previousCurrent: Option<real>)

  /** The values the globals have when the script is loaded. */
  const InitialCapacity: Capacity := Capacity(0.0, None, None)

  const MicrosPerHour: real := 3600000000.0

  /** Charge in mAh for currents (mA) at the two ends of an interval: their mean times the interval in hours. */
  function Trapezoid(current: real, previous: real, from: int, to: int): real {
    (current + previous) / 2.0 * ((to - from) as real / MicrosPerHour)
  }

  /**
   * One update: `sample` is this tick's current (None when the tick has no ESP data),
   * `now` the end of the interval and `later` the instant stored as previous_time.
   */
  function Integrate(c: Capacity, sample: Option<real>, now: Instant, later: Instant): (r: Capacity)
    // previous_time and previous_current are replaced on every call
    ensures r.previousTime == Some(later) && r.previousCurrent == sample
    // the total moves only across an interval with a current at both ends, by its trapezoid
    ensures r.totalMah != c.totalMah ==> sample.Some? && c.previousTime.Some? && c.previousCurrent.Some?
    ensures sample.Some? && c.previousTime.Some? && c.previousCurrent.Some? ==>
              r.totalMah == c.totalMah + Trapezoid(sample.value, c.previousCurrent.value, c.previousTime.value, now)
  {
    var total :=
      if sample.Some? && c.previousTime.Some? && c.previousCurrent.Some?
      then c.totalMah + Trapezoid(sample.value, c.previousCurrent.value, c.previousTime.value, now)
      else c.totalMah;
    Capacity(total, Some(later), sample)
  }

  /** A tick without a current leaves the total alone, and so does the tick after it. */
  lemma GapSkipsNextInterval(c: Capacity, now0: Instant, later0: Instant, sample: Option<real>, now1: Instant, later1: Instant)
    ensures Integrate(c, None, now0, later0).totalMah == c.totalMah
    ensures Integrate(Integrate(c, None, now0, later0), sample, now1, later1).totalMah == c.totalMah
  {
  }

  lemma ProductNonNegative(a: real, b: real)
    requires 0.0 <= a && 0.0 <= b
    ensures 0.0 <= a * b
  {
  }

  /** A non-negative current over an interval that does not run backwards adds non-negative charge. */
  lemma DischargeAccumulates(c: Capacity, sample: real, now: Instant, later: Instant)
    requires c.previousTime.Some? && c.previousCurrent.Some?
    requires 0.0 <= sample && 0.0 <= c.previousCurrent.value && c.previousTime.value <= now
    ensures Integrate(c, Some(sample), now, later).totalMah >= c.totalMah
  {
    var dt := (now as int - c.previousTime.value as int) as real / MicrosPerHour;
    var mean := (sample + c.previousCurrent.value) / 2.0;
    ProductNonNegative(mean, dt);
    assert Trapezoid(sample, c.previousCurrent.value, c.previousTime.value, now) == mean * dt;
  }

  /** One update as recorded for a whole run: the current and the two instants of that tick. */
  datatype Sample = Sample(current: Option<real>, integrateAt: Instant, recordAt: Instant)

  /** The integrator applied to the samples in order. */
  function IntegrateAll(c: Capacity, samples: seq<Sample>): Capacity
    decreases |samples|
  {
    if samples == [] then c
    else
      var s := samples[|samples| - 1];
      Integrate(IntegrateAll(c, samples[..|samples| - 1]), s.current, s.integrateAt, s.recordAt)
  }

  /** Reference definition: the trapezoids of consecutive samples that both carry a current, summed. */
  function TrapezoidTotal(samples: seq<Sample>): real
    decreases |samples|
  {
    if |samples| < 2 then 0.0
    else
      var p, s := samples[|samples| - 2], samples[|samples| - 1];
      TrapezoidTotal(samples[..|samples| - 1])
        + (if p.current.Some? && s.current.Some? then Trapezoid(s.current.value, p.current.value, p.recordAt, s.integrateAt) else 0.0)
  }

  /** From the initial globals, the running total is exactly the reference sum, and the last sample is remembered. */
  lemma {:induction false} IntegrateAllIsTrapezoidTotal(samples: seq<Sample>)
    requires |samples| >= 1
    ensures IntegrateAll(InitialCapacity, samples).totalMah == TrapezoidTotal(samples)
    ensures IntegrateAll(InitialCapacity, samples).previousTime == Some(samples[|samples| - 1].recordAt)
    ensures IntegrateAll(InitialCapacity, samples).previousCurrent == samples[|samples| - 1].current
    decreases |samples|
  {
    if |samples| >= 2 {
      var init := samples[..|samples| - 1];
      IntegrateAllIsTrapezoidTotal(init);
      assert init[|init| - 1] == samples[|samples| - 2];
      assert init[..|init| - 1] == samples[..|samples| - 1][..|samples| - 2];
    }
  }
}
