/**
 * What one poll of the ESP8266 web server can return, and the clock readings a
 * tick of the collector makes. The HTTP request and JSON decoding are outside
 * the model: their outcome is an input.
 */
module Sensor {

  import opened Options

  /** A wall-clock instant as datetime.now() returns it, in microseconds. */
  type Instant = nat

  /**
   * The datetime.now() readings taken while one dequeued Fluke value is processed,
   * in the order the code takes them: the stop instant of the liveness latch
   * (set on a low bus voltage or a failed request), its start instant, the
   * row's Timestamp, the end of the integration interval, and the instant stored
   * as the start of the next interval.
   */
  datatype TickClock = TickClock(stopAt: Instant, startAt: Instant, stampAt: Instant,
                                 integrateAt: Instant, recordAt: Instant)

  /** The "ina219" object of the JSON payload; a field is None when its key is absent. */
  datatype Ina219 = Ina219(busV: Option<real>, shuntV: Option<real>, loadV: Option<real>,
                           curr: Option<real>, power: Option<real>)

  /** The "mpu6050" object of the JSON payload. */
  datatype Mpu6050 = Mpu6050(accX: Option<real>, accY: Option<real>, accZ: Option<real>,
                             gyroX: Option<real>, gyroY: Option<real>, gyroZ: Option<real>,
                             temp: Option<real>)

  /** The decoded JSON object; "time" is the device's elapsed whole seconds. */
  datatype Payload = Payload(time: Option<int>, ina219: Option<Ina219>, mpu6050: Option<Mpu6050>)

  /** What requests.get + raise_for_status + json() yield: a payload, or a RequestException. */
  datatype HttpOutcome = Response(payload: Payload) | RequestFailed

  /** `if data:` — None and the empty dict are false. */
  predicate Truthy(data: Option<Payload>) {
    data.Some? && (data.value.time.Some? || data.value.ina219.Some? || data.value.mpu6050.Some?)
  }

  /** data['ina219']['busV'], when both keys are present. */
  function BusVoltageOf(p: Payload): Option<real> {
    if p.ina219.Some? then p.ina219.value.busV else None
  }
}
