/**
 * The row that append_data_to_csv builds from one Fluke reading and one
 * (possibly absent) ESP payload, together with the capacity update it makes
 * between reading the payload and building the row.
 */
module RowMerger {

  import opened Options
  import opened Sensor
  import opened Schema
  import opened CapacityIntegrator
  import TimeFormat

  /** One record of the CSV file, field by field in csv_columns order; None is written as an empty cell. */
  datatype Row = Row(timestamp: nat, time: Option<string>, busVoltage: Option<real>, flukeVoltage: Option<real>,
                     voltageDifference: Option<real>, shuntVoltage: Option<real>, loadVoltage: Option<real>,
                     current: Option<real>, power: Option<real>,
                     accelerationX: Option<real>, accelerationY: Option<real>, accelerationZ: Option<real>,
                     rotationX: Option<real>, rotationY: Option<real>, rotationZ: Option<real>,
                     temperature: Option<real>, espActive: bool)

  /** A dictionary lookup: the value, or the KeyError raised when a key is absent. */
  datatype Lookup<T> = Found(value: T) | KeyError

  /** The fields read from the "ina219" object and the formatted device time. */
  datatype Electrical = Electrical(time: Option<string>, busVoltage: Option<real>, shuntVoltage: Option<real>,
                                   current: Option<real>, power: Option<real>)

  /** The seven fields read from the "mpu6050" object. */
  datatype Motion = Motion(accX: Option<real>, accY: Option<real>, accZ: Option<real>,
                           gyroX: Option<real>, gyroY: Option<real>, gyroZ: Option<real>, temp: Option<real>)

  /** The defaults used when there is no ESP data. */
  const NoElectrical: Electrical := Electrical(None, None, None, None, None)
  const NoMotion: Motion := Motion(None, None, None, None, None, None, None)

  /** Time, bus and shunt voltage, current and power: present data must carry all four ina219 keys. */
  function ElectricalOf(data: Option<Payload>): (r: Lookup<Electrical>)
    // the current the integrator sees is there exactly when the call has data
    ensures r.Found? ==> (r.value.current.Some? <==> Truthy(data))
    ensures r.KeyError? <==> Truthy(data) && !CompleteIna(data.value)
  {
    if !Truthy(data) then Found(NoElectrical)
    else
      match data.value.ina219
      case None => KeyError
      case Some(ina) =>
        if ina.busV.Some? && ina.shuntV.Some? && ina.curr.Some? && ina.power.Some?
        then Found(Electrical(Some(TimeFormat.FormatTime(data.value.time.GetOr(0))),
                              ina.busV, ina.shuntV, ina.curr, ina.power))
        else KeyError
  }

  /** The load voltage is looked up only when its keys are present. */
  function LoadOf(data: Option<Payload>): Option<real> {
    if Truthy(data) && data.value.ina219.Some? then data.value.ina219.value.loadV else None
  }

  /** The motion fields: when the "mpu6050" object is present, all seven of its keys must be. */
  function MotionOf(data: Option<Payload>): Lookup<Motion> {
    if Truthy(data) && data.value.mpu6050.Some? then
      var m := data.value.mpu6050.value;
      if m.accX.Some? && m.accY.Some? && m.accZ.Some? && m.gyroX.Some? && m.gyroY.Some? && m.gyroZ.Some? && m.temp.Some?
      then Found(Motion(m.accX, m.accY, m.accZ, m.gyroX, m.gyroY, m.gyroZ, m.temp))
      else KeyError
    else Found(NoMotion)
  }

  /** The current sample the integrator sees: data['ina219']['curr'] when there is data. */
  function CurrentOf(data: Option<Payload>): Option<real> {
    if Truthy(data) && data.value.ina219.Some? then data.value.ina219.value.curr else None
  }

  /** Fluke minus bus voltage, when there are both. */
  function Difference(fluke: Option<real>, bus: Option<real>): Option<real> {
    if fluke.Some? && bus.Some? then Some(fluke.value - bus.value) else None
  }

  /** The row dictionary, with the Timestamp cut to milliseconds. */
  function MergeRow(stampAt: Instant, e: Electrical, fluke: Option<real>, load: Option<real>, m: Motion, active: bool): Row {
    Row(stampAt / 1000, e.time, e.busVoltage, fluke, Difference(fluke, e.busVoltage), e.shuntVoltage, load,
        e.current, e.power, m.accX, m.accY, m.accZ, m.gyroX, m.gyroY, m.gyroZ, m.temp, active)
  }

  /** The voltage difference of a row is its Fluke minus its bus voltage, and is empty unless both are there. */
  predicate DifferenceConsistent(r: Row) {
    && (r.voltageDifference.Some? <==> r.flukeVoltage.Some? && r.busVoltage.Some?)
    && (r.voltageDifference.Some? ==> r.voltageDifference.value == r.flukeVoltage.value - r.busVoltage.value)
  }

  /** Every field that comes from the ESP is empty. */
  predicate NoEspFields(r: Row) {
    && r.time.None? && r.busVoltage.None? && r.shuntVoltage.None? && r.loadVoltage.None?
    && r.current.None? && r.power.None?
    && r.accelerationX.None? && r.accelerationY.None? && r.accelerationZ.None?
    && r.rotationX.None? && r.rotationY.None? && r.rotationZ.None? && r.temperature.None?
  }

  /** The ESP fields of the row are those of the payload. */
  predicate EspFieldsFrom(r: Row, p: Payload) {
    && p.ina219.Some?
    && r.time == Some(TimeFormat.FormatTime(p.time.GetOr(0)))
    && r.busVoltage == p.ina219.value.busV && r.shuntVoltage == p.ina219.value.shuntV
    && r.loadVoltage == p.ina219.value.loadV && r.current == p.ina219.value.curr && r.power == p.ina219.value.power
    && (p.mpu6050.Some? ==>
          && r.accelerationX == p.mpu6050.value.accX && r.accelerationY == p.mpu6050.value.accY
          && r.accelerationZ == p.mpu6050.value.accZ && r.rotationX == p.mpu6050.value.gyroX
          && r.rotationY == p.mpu6050.value.gyroY && r.rotationZ == p.mpu6050.value.gyroZ
          && r.temperature == p.mpu6050.value.temp)
    && (p.mpu6050.None? ==>
          && r.accelerationX.None? && r.accelerationY.None? && r.accelerationZ.None?
          && r.rotationX.None? && r.rotationY.None? && r.rotationZ.None? && r.temperature.None?)
  }

  /** Every ina219 key that append_data_to_csv indexes without a guard is present. */
  predicate CompleteIna(p: Payload) {
    p.ina219.Some? && p.ina219.value.busV.Some? && p.ina219.value.shuntV.Some?
    && p.ina219.value.curr.Some? && p.ina219.value.power.Some?
  }

  /** ... and so is every mpu6050 key, when that object is there. */
  predicate CompleteMotion(p: Payload) {
    p.mpu6050.Some? ==>
      var m := p.mpu6050.value;
      m.accX.Some? && m.accY.Some? && m.accZ.Some? && m.gyroX.Some? && m.gyroY.Some? && m.gyroZ.Some? && m.temp.Some?
  }

  /** The capacity state after the call and the row it writes; None when a KeyError escaped first. */
  datatype Appended = Appended(capacity: Capacity, row: Option<Row>)

  /**
   * append_data_to_csv(data, fluke_voltage), where `active` is esp_running at the call.
   * A KeyError on the ina219 fields escapes before the capacity update, one on the
   * mpu6050 fields after it; either way no row is written.
   */
  function AppendData(c: Capacity, data: Option<Payload>, fluke: Option<real>, active: bool, clock: TickClock): (r: Appended)
    // every written row keeps the Fluke reading, the liveness flag and the millisecond timestamp
    ensures r.row.Some? ==> r.row.value.flukeVoltage == fluke && r.row.value.espActive == active
                              && r.row.value.timestamp == clock.stampAt / 1000
    ensures r.row.Some? ==> DifferenceConsistent(r.row.value)
    // without data: a row of empty ESP fields, and a capacity state that forgets the previous current
    ensures !Truthy(data) ==> r.row.Some? && NoEspFields(r.row.value)
                              && r.capacity.totalMah == c.totalMah && r.capacity.previousCurrent.None?
    // with data: the row is written exactly when the looked-up keys are there, and carries the payload's values
    ensures Truthy(data) ==> (r.row.Some? <==> CompleteIna(data.value) && CompleteMotion(data.value))
    ensures Truthy(data) && r.row.Some? ==> EspFieldsFrom(r.row.value, data.value)
    // the integrator runs exactly when the ina219 lookups succeeded, even if the mpu6050 lookups then fail
    ensures ElectricalOf(data).KeyError? ==> r.capacity == c
    ensures ElectricalOf(data).Found? ==> r.capacity == Integrate(c, CurrentOf(data), clock.integrateAt, clock.recordAt)
    ensures r.row.Some? ==> r.capacity.previousTime == Some(clock.recordAt)
  {
    match ElectricalOf(data)
    case KeyError => Appended(c, None)
    case Found(e) =>
      var integrated := Integrate(c, e.current, clock.integrateAt, clock.recordAt);
      match MotionOf(data)
      case KeyError => Appended(integrated, None)
      case Found(m) => Appended(integrated, Some(MergeRow(clock.stampAt, e, fluke, LoadOf(data), m, active)))
  }

  /** One cell of the written file: DictWriter turns None into an empty cell. */
  datatype Cell = Empty | Number(x: real) | Text(s: string) | Flag(b: bool) | Millis(ms: nat)

  function CellOf(x: Option<real>): Cell {
    if x.Some? then Number(x.value) else Empty
  }

  /** The row as the dictionary handed to DictWriter: its keys are exactly csv_columns. */
  function RowDict(r: Row): (d: map<string, Cell>)
    ensures d.Keys == set c | c in CsvColumns
  {
    map[Timestamp := Millis(r.timestamp), Time := if r.time.Some? then Text(r.time.value) else Empty,
        BusVoltage := CellOf(r.busVoltage), FlukeVoltage := CellOf(r.flukeVoltage),
        VoltageDifference := CellOf(r.voltageDifference), ShuntVoltage := CellOf(r.shuntVoltage),
        LoadVoltage := CellOf(r.loadVoltage), Current := CellOf(r.current), Power := CellOf(r.power),
        AccelerationX := CellOf(r.accelerationX), AccelerationY := CellOf(r.accelerationY),
        AccelerationZ := CellOf(r.accelerationZ), RotationX := CellOf(r.rotationX),
        RotationY := CellOf(r.rotationY), RotationZ := CellOf(r.rotationZ),
        Temperature := CellOf(r.temperature), EspActive := Flag(r.espActive)]
  }

  /**
   * append_data_to_csv called directly with fluke_voltage=None and complete ESP data:
   * empty Fluke voltage and difference, all sensor fields filled. (main itself skips a
   * None reading before any fetch or row.)
   */
  lemma FlukeMissingRow(c: Capacity, p: Payload, active: bool, clock: TickClock)
    requires CompleteIna(p) && CompleteMotion(p)
    ensures var r := AppendData(c, Some(p), None, active, clock);
            r.row.Some? && r.row.value.flukeVoltage.None? && r.row.value.voltageDifference.None?
            && r.row.value.busVoltage.Some? && r.row.value.current.Some? && EspFieldsFrom(r.row.value, p)
  {
  }
}
