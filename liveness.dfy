/**
 * The liveness latch kept by fetch_sensor_data_from_esp in the module globals
 * esp_running, esp_start_time and esp_stop_time.
 */
module Liveness {

  import opened Options
  import opened Sensor

  /** ESP8266_LOWER_THRESHOLD, in volts. */
  const EspLowerThreshold: real := 3.2

  datatype Latch = Latch(espRunning: bool, espStartTime: Option<Instant>, espStopTime: Option<Instant>)

  /** The values the globals have when the script is loaded. */
  const InitialLatch: Latch := Latch(true, None, None)

  /** The latch is closed exactly when its stop instant has been recorded. */
  predicate Consistent(l: Latch) {
    l.espRunning <==> l.espStopTime.None?
  }

  /** What fetch_sensor_data_from_esp hands back: the decoded data, None, or a KeyError that escapes it. */
  datatype Fetched = Data(payload: Payload) | NoData | KeyErrorRaised

  datatype Observation = Observation(latch: Latch, result: Fetched)

  /** Records that the latch closed, keeping the first stop instant. */
  function Close(l: Latch, now: Instant): Latch {
    Latch(false, l.espStartTime, if l.espStopTime.None? then Some(now) else l.espStopTime)
  }

  /**
   * One call of fetch_sensor_data_from_esp, given what the HTTP request yielded.
   * A payload without ina219.busV raises KeyError, which is not a RequestException
   * and leaves the function with the latch untouched.
   */
  function FetchSensorData(l: Latch, outcome: HttpOutcome, clock: TickClock): (r: Observation)
    // the latch only ever closes
    ensures !l.espRunning ==> !r.latch.espRunning
    // the first stop and start instants are never overwritten
    ensures l.espStopTime.Some? ==> r.latch.espStopTime == l.espStopTime
    ensures l.espStartTime.Some? ==> r.latch.espStartTime == l.espStartTime
    // a newly recorded stop instant comes with a closed latch; a newly recorded start instant with data
    ensures r.latch.espStopTime != l.espStopTime ==> !r.latch.espRunning && r.latch.espStopTime == Some(clock.stopAt)
    ensures r.latch.espStartTime != l.espStartTime ==> r.result.Data? && r.latch.espStartTime == Some(clock.startAt)
    ensures Consistent(l) ==> Consistent(r.latch)
    // a failed request closes the latch, returns None and never records a start instant
    ensures outcome.RequestFailed? ==> r.result == NoData && !r.latch.espRunning && r.latch.espStartTime == l.espStartTime
    // data is returned exactly when the response carries a bus voltage, whatever its value
    ensures r.result.Data? <==> outcome.Response? && BusVoltageOf(outcome.payload).Some?
    ensures r.result.Data? ==> r.result.payload == outcome.payload && r.latch.espStartTime.Some?
    // a response without ina219.busV raises KeyError, leaving the latch untouched
    ensures r.result.KeyErrorRaised? <==> outcome.Response? && BusVoltageOf(outcome.payload).None?
    ensures r.result.KeyErrorRaised? ==> r.latch == l
  {
    match outcome
    case RequestFailed => Observation(Close(l, clock.stopAt), NoData)
    case Response(p) =>
      match BusVoltageOf(p)
      case None => Observation(l, KeyErrorRaised)
      case Some(busV) =>
        var closed := if busV < EspLowerThreshold then Close(l, clock.stopAt) else l;
        var started := if closed.espStartTime.None? then Some(clock.startAt) else closed.espStartTime;
        Observation(closed.(espStartTime := started), Data(p))
  }

  /** A response below the threshold closes the latch, but its data still goes into this tick's row. */
  lemma LowVoltageClosesLatchKeepsData(l: Latch, p: Payload, clock: TickClock)
    requires BusVoltageOf(p).Some? && BusVoltageOf(p).value < EspLowerThreshold
    ensures FetchSensorData(l, Response(p), clock).result == Data(p)
    ensures !FetchSensorData(l, Response(p), clock).latch.espRunning
    ensures l.espStopTime.None? ==> FetchSensorData(l, Response(p), clock).latch.espStopTime == Some(clock.stopAt)
  {
  }

  /** A response at or above the threshold leaves the latch as it was, apart from the first start instant. */
  lemma HealthyResponseKeepsLatch(l: Latch, p: Payload, clock: TickClock)
    requires BusVoltageOf(p).Some? && BusVoltageOf(p).value >= EspLowerThreshold
    ensures FetchSensorData(l, Response(p), clock).latch.espRunning == l.espRunning
    ensures FetchSensorData(l, Response(p), clock).latch.espStopTime == l.espStopTime
  {
  }
}
