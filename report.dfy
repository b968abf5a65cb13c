/**
 * calculate_rms_accuracy_with_stats: read the CSV rows, keep those that parse,
 * restrict to the rows flagged ESP8266 Active, and summarise the voltage error,
 * the charge drawn and the motion and temperature ranges.
 */
module Report {

  import opened Options
  import opened Schema
  import opened Statistics
  import CapacityIntegrator

  /**
   * The library calls the analysis makes: float(s) (None where it raises ValueError),
   * datetime.strptime(s, '%Y-%m-%d %H:%M:%S.%f') in microseconds (None on ValueError)
   * and math.sqrt.
   */
  datatype Library = Library(float: string -> Option<real>, strptime: string -> Option<int>, sqrt: real -> real)

  /** What is known of those calls: neither parses an empty string, and a square root is not negative. */
  ghost predicate PythonLike(lib: Library) {
    && lib.float("") == None
    && lib.strptime("") == None
    && forall x :: 0.0 <= x ==> 0.0 <= lib.sqrt(x)
  }

  /** A row as csv.DictReader yields it: header name to cell, None for a cell missing from a short line. */
  type RawRow = map<string, Option<string>>

  /**
   * The outcome of a step of the parse: a value, a ValueError (the row is skipped,
   * `except ValueError`), or any other exception (it leaves the loop and the function
   * returns None, the final `except Exception`).
   */
  datatype Attempt<T> = Ok(value: T) | Skip | Raise {
    predicate IsFailure() {
      !Ok?
    }

    function PropagateFailure<U>(): Attempt<U>
      requires !Ok?
    {
      if Skip? then Skip else Raise
    }

    function Extract(): T
      requires Ok?
    {
      value
    }
  }

  /** row[key]: KeyError when the header has no such column. */
  function Index(row: RawRow, key: string): Attempt<Option<string>> {
    if key in row then Ok(row[key]) else Raise
  }

  /** row.get(key) where it is truthy: a missing column, a missing cell and an empty cell all give None. */
  function Get(row: RawRow, key: string): Option<string> {
    if key in row && row[key].Some? && row[key].value != "" then row[key] else None
  }

  /** float(row[key]): float(None) raises TypeError. */
  function RequiredNumber(lib: Library, row: RawRow, key: string): Attempt<real> {
    var cell :- Index(row, key);
    match cell
    case None => Raise
    case Some(s) => if lib.float(s).Some? then Ok(lib.float(s).value) else Skip
  }

  /** float(row[key]) if row.get(key) else None */
  function OptionalNumber(lib: Library, row: RawRow, key: string): Attempt<Option<real>> {
    match Get(row, key)
    case None => Ok(None)
    case Some(s) => if lib.float(s).Some? then Ok(Some(lib.float(s).value)) else Skip
  }

  /** str.lower on the letters A to Z. */
  function LowerChar(c: char): char {
    if 'A' <= c <= 'Z' then (c as int + 32) as char else c
  }

  function Lower(s: string): (r: string)
    ensures |r| == |s| && forall i :: 0 <= i < |s| ==> r[i] == LowerChar(s[i])
  {
    seq(|s|, i requires 0 <= i < |s| => LowerChar(s[i]))
  }

  /** row['ESP8266 Active'].lower() == 'true' if row.get('ESP8266 Active') else False */
  function ActiveFlag(row: RawRow): bool {
    match Get(row, EspActive)
    case None => false
    case Some(s) => Lower(s) == "true"
  }

  /** datetime.strptime(timestamp_str, ...): strptime(None) raises TypeError. */
  function ParseStamp(lib: Library, cell: Option<string>): Attempt<int> {
    match cell
    case None => Raise
    case Some(s) => if lib.strptime(s).Some? then Ok(lib.strptime(s).value) else Skip
  }

  /** The values one row contributes to the twelve lists. */
  datatype Parsed = Parsed(timestamp: int, bus: real, fluke: real, current: Option<real>, active: bool,
                           accX: Option<real>, accY: Option<real>, accZ: Option<real>,
                           rotX: Option<real>, rotY: Option<real>, rotZ: Option<real>, temp: Option<real>)

  /** The body of the per-row try block, in the order of its statements. */
  function ParseRow(lib: Library, row: RawRow): Attempt<Parsed> {
    var stampText :- Index(row, Timestamp);
    var bus :- RequiredNumber(lib, row, BusVoltage);
    var fluke :- RequiredNumber(lib, row, FlukeVoltage);
    var current :- OptionalNumber(lib, row, Current);
    var active := ActiveFlag(row);
    var accX :- OptionalNumber(lib, row, AccelerationX);
    var accY :- OptionalNumber(lib, row, AccelerationY);
    var accZ :- OptionalNumber(lib, row, AccelerationZ);
    var rotX :- OptionalNumber(lib, row, RotationX);
    var rotY :- OptionalNumber(lib, row, RotationY);
    var rotZ :- OptionalNumber(lib, row, RotationZ);
    var temp :- OptionalNumber(lib, row, Temperature);
    var stamp :- ParseStamp(lib, stampText);
    Ok(Parsed(stamp, bus, fluke, current, active, accX, accY, accZ, rotX, rotY, rotZ, temp))
  }

  /** The reading loop: the rows that parse, in file order, or Raise when an exception left the loop. */
  function ParseAll(lib: Library, rows: seq<RawRow>): (r: Attempt<seq<Parsed>>)
    ensures !r.Skip?
    decreases |rows|
  {
    if rows == [] then Ok([])
    else
      var before := ParseAll(lib, rows[..|rows| - 1]);
      if before.Raise? then Raise
      else
        match ParseRow(lib, rows[|rows| - 1])
        case Ok(p) => Ok(before.value + [p])
        case Skip => before
        case Raise => Raise
  }

  /** Reference definition of the kept rows: the parsed values of the rows whose parse succeeds, in file order. */
  function Kept(lib: Library, rows: seq<RawRow>): seq<Parsed>
    decreases |rows|
  {
    if rows == [] then []
    else
      var last := ParseRow(lib, rows[|rows| - 1]);
      Kept(lib, rows[..|rows| - 1]) + (if last.Ok? then [last.value] else [])
  }

  /**
   * The reading loop completes exactly when no row raises anything but ValueError, and
   * then holds the rows that parse: a ValueError row only drops out.
   */
  lemma {:induction false} ParseAllKeeps(lib: Library, rows: seq<RawRow>)
    ensures ParseAll(lib, rows).Ok? <==> forall i :: 0 <= i < |rows| ==> !ParseRow(lib, rows[i]).Raise?
    ensures ParseAll(lib, rows).Ok? ==> ParseAll(lib, rows).value == Kept(lib, rows)
    decreases |rows|
  {
    if rows != [] {
      var init := rows[..|rows| - 1];
      ParseAllKeeps(lib, init);
      assert forall i :: 0 <= i < |init| ==> init[i] == rows[i];
    }
  }

  /** An exception that left the loop early is the loop's outcome whatever rows follow. */
  lemma {:induction false} RaiseIsFinal(lib: Library, rows: seq<RawRow>, i: nat)
    requires i <= |rows| && ParseAll(lib, rows[..i]).Raise?
    ensures ParseAll(lib, rows).Raise?
    decreases |rows|
  {
    if i < |rows| {
      assert rows[..|rows| - 1][..i] == rows[..i];
      RaiseIsFinal(lib, rows[..|rows| - 1], i);
    } else {
      assert rows[..i] == rows;
    }
  }

  /** The twelve parallel lists of the reading loop. */
  datatype Columns = Columns(busVoltages: seq<real>, flukeVoltages: seq<real>, timestamps: seq<int>,
                             currents: seq<Option<real>>, esp8266Active: seq<bool>,
                             accXValues: seq<Option<real>>, accYValues: seq<Option<real>>, accZValues: seq<Option<real>>,
                             rotXValues: seq<Option<real>>, rotYValues: seq<Option<real>>, rotZValues: seq<Option<real>>,
                             tempValues: seq<Option<real>>)

  /** All twelve lists have the same length. */
  predicate Parallel(c: Columns) {
    var n := |c.busVoltages|;
    && |c.flukeVoltages| == n && |c.timestamps| == n && |c.currents| == n && |c.esp8266Active| == n
    && |c.accXValues| == n && |c.accYValues| == n && |c.accZValues| == n
    && |c.rotXValues| == n && |c.rotYValues| == n && |c.rotZValues| == n && |c.tempValues| == n
  }

  /** The i-th entry of every list, as one row. */
  function RowAt(c: Columns, i: nat): Parsed
    requires Parallel(c) && i < |c.busVoltages|
  {
    Parsed(c.timestamps[i], c.busVoltages[i], c.flukeVoltages[i], c.currents[i], c.esp8266Active[i],
           c.accXValues[i], c.accYValues[i], c.accZValues[i], c.rotXValues[i], c.rotYValues[i], c.rotZValues[i],
           c.tempValues[i])
  }

  /** The twelve appends at the end of the per-row try block. */
  function Append(c: Columns, p: Parsed): Columns {
    Columns(c.busVoltages + [p.bus], c.flukeVoltages + [p.fluke], c.timestamps + [p.timestamp],
            c.currents + [p.current], c.esp8266Active + [p.active],
            c.accXValues + [p.accX], c.accYValues + [p.accY], c.accZValues + [p.accZ],
            c.rotXValues + [p.rotX], c.rotYValues + [p.rotY], c.rotZValues + [p.rotZ], c.tempValues + [p.temp])
  }

  /** The lists after appending the given rows to empty lists: parallel, one entry per row, in order. */
  function ToColumns(rows: seq<Parsed>): (c: Columns)
    ensures Parallel(c) && |c.busVoltages| == |rows|
    ensures forall i :: 0 <= i < |rows| ==> RowAt(c, i) == rows[i]
    decreases |rows|
  {
    if rows == [] then Columns([], [], [], [], [], [], [], [], [], [], [], [])
    else Append(ToColumns(rows[..|rows| - 1]), rows[|rows| - 1])
  }

  /** The `for row in reader` loop; None when an exception other than ValueError left it. */
  method ReadRows(lib: Library, rows: seq<RawRow>) returns (cols: Option<Columns>)
    ensures ParseAll(lib, rows).Raise? ==> cols.None?
    ensures ParseAll(lib, rows).Ok? ==> cols == Some(ToColumns(ParseAll(lib, rows).value))
  {
    var busVoltages: seq<real> := [];
    var flukeVoltages: seq<real> := [];
    var timestamps: seq<int> := [];
    var currents: seq<Option<real>> := [];
    var esp8266Active: seq<bool> := [];
    var accXValues: seq<Option<real>> := [];
    var accYValues: seq<Option<real>> := [];
    var accZValues: seq<Option<real>> := [];
    var rotXValues: seq<Option<real>> := [];
    var rotYValues: seq<Option<real>> := [];
    var rotZValues: seq<Option<real>> := [];
    var tempValues: seq<Option<real>> := [];
    ghost var kept: seq<Parsed> := [];
    for i := 0 to |rows|
      invariant ParseAll(lib, rows[..i]) == Ok(kept)
      invariant Columns(busVoltages, flukeVoltages, timestamps, currents, esp8266Active,
                        accXValues, accYValues, accZValues, rotXValues, rotYValues, rotZValues, tempValues)
                == ToColumns(kept)
    {
      assert rows[..i + 1][..i] == rows[..i];
      var parsed := ParseRow(lib, rows[i]);
      if parsed.Raise? {
        RaiseIsFinal(lib, rows, i + 1);
        return None;
      }
      if parsed.Ok? {
        var p := parsed.value;
        busVoltages := busVoltages + [p.bus];
        flukeVoltages := flukeVoltages + [p.fluke];
        timestamps := timestamps + [p.timestamp];
        currents := currents + [p.current];
        esp8266Active := esp8266Active + [p.active];
        accXValues := accXValues + [p.accX];
        accYValues := accYValues + [p.accY];
        accZValues := accZValues + [p.accZ];
        rotXValues := rotXValues + [p.rotX];
        rotYValues := rotYValues + [p.rotY];
        rotZValues := rotZValues + [p.rotZ];
        tempValues := tempValues + [p.temp];
        assert (kept + [p])[..|kept|] == kept;
        kept := kept + [p];
      }
    }
    assert rows[..|rows|] == rows;
    cols := Some(Columns(busVoltages, flukeVoltages, timestamps, currents, esp8266Active,
                         accXValues, accYValues, accZValues, rotXValues, rotYValues, rotZValues, tempValues));
  }

  /** active_data: the rows whose flag is set, in file order. */
  function ActiveRows(rows: seq<Parsed>): seq<Parsed>
    decreases |rows|
  {
    if rows == [] then []
    else ActiveRows(rows[..|rows| - 1]) + (if rows[|rows| - 1].active then [rows[|rows| - 1]] else [])
  }

  /** The same comprehension over the parallel lists: the tuple at every index whose flag is set. */
  function ActiveData(c: Columns, n: nat): seq<Parsed>
    requires Parallel(c) && n <= |c.busVoltages|
  {
    if n == 0 then []
    else ActiveData(c, n - 1) + (if c.esp8266Active[n - 1] then [RowAt(c, n - 1)] else [])
  }

  lemma {:induction false} ActiveDataOfColumns(rows: seq<Parsed>, n: nat)
    requires n <= |rows|
    ensures ActiveData(ToColumns(rows), n) == ActiveRows(rows[..n])
  {
    if n > 0 {
      ActiveDataOfColumns(rows, n - 1);
      assert rows[..n][..n - 1] == rows[..n - 1];
      assert RowAt(ToColumns(rows), n - 1) == rows[n - 1];
    }
  }

  /** differences: Fluke minus bus voltage, row by row. */
  function Differences(active: seq<Parsed>): (d: seq<real>)
    ensures |d| == |active| && forall i :: 0 <= i < |d| ==> d[i] == active[i].fluke - active[i].bus
  {
    seq(|active|, i requires 0 <= i < |active| => active[i].fluke - active[i].bus)
  }

  /** The charge of the interval ending at row i; 0 unless both ends carry a current. */
  function IntervalCharge(active: seq<Parsed>, i: nat): real
    requires 0 < i < |active|
  {
    var prev, cur := active[i - 1], active[i];
    if cur.current.Some? && prev.current.Some?
    then CapacityIntegrator.Trapezoid(cur.current.value, prev.current.value, prev.timestamp, cur.timestamp)
    else 0.0
  }

  /** Reference definition of total_mAh: the interval charges over consecutive active rows. */
  function ChargeTotal(active: seq<Parsed>): real
    decreases |active|
  {
    if |active| < 2 then 0.0 else ChargeTotal(active[..|active| - 1]) + IntervalCharge(active, |active| - 1)
  }

  /** The `for i in range(1, len(active_timestamps))` capacity loop. */
  method BatteryCapacity(active: seq<Parsed>) returns (totalMah: real)
    ensures totalMah == ChargeTotal(active)
  {
    totalMah := 0.0;
    if |active| < 2 {
      return;
    }
    for i := 1 to |active|
      invariant totalMah == ChargeTotal(active[..i])
    {
      var dtHours := (active[i].timestamp - active[i - 1].timestamp) as real / CapacityIntegrator.MicrosPerHour;
      var avgCurrent := if active[i].current.Some? && active[i - 1].current.Some?
                        then (active[i].current.value + active[i - 1].current.value) / 2.0 else 0.0;
      assert avgCurrent * dtHours == IntervalCharge(active[..i + 1], i);
      assert active[..i + 1][..i] == active[..i];
      totalMah := totalMah + avgCurrent * dtHours;
    }
    assert active[..|active|] == active;
  }

  /** The values of a column when every row has one; None where sum() would meet a None and raise TypeError. */
  function Present(xs: seq<Option<real>>): (r: Option<seq<real>>)
    ensures r.Some? <==> forall i :: 0 <= i < |xs| ==> xs[i].Some?
    ensures r.Some? ==> |r.value| == |xs| && forall i :: 0 <= i < |xs| ==> r.value[i] == xs[i].value
  {
    if forall i :: 0 <= i < |xs| ==> xs[i].Some?
    then Some(seq(|xs|, i requires 0 <= i < |xs| && xs[i].Some? => xs[i].value))
    else None
  }

  /** A column of the active rows, as `zip(*active_data)` unzips it. */
  function Column(active: seq<Parsed>, field: Parsed -> Option<real>): (xs: seq<Option<real>>)
    ensures |xs| == |active| && forall i :: 0 <= i < |active| ==> xs[i] == field(active[i])
  {
    seq(|active|, i requires 0 <= i < |active| => field(active[i]))
  }

  /** The seven motion and temperature columns, each complete. */
  predicate MotionComplete(active: seq<Parsed>) {
    forall i :: 0 <= i < |active| ==>
      && active[i].accX.Some? && active[i].accY.Some? && active[i].accZ.Some?
      && active[i].rotX.Some? && active[i].rotY.Some? && active[i].rotZ.Some? && active[i].temp.Some?
  }

  /** The result dictionary; times are microseconds, the duration is end minus start. */
  datatype Results = Results(startTime: int, endTime: int, duration: int, rmsAccuracy: real,
                             minError: real, maxError: real, ucl: real, lcl: real,
                             batteryCapacity: real, outlierCount: nat,
                             accX: Stats, accY: Stats, accZ: Stats, rotX: Stats, rotY: Stats, rotZ: Stats, temp: Stats)

  function StandardDeviation(lib: Library, d: seq<real>): real
    requires d != []
  {
    lib.sqrt(Mean(SquaredDeviations(d, Mean(d))))
  }

  /** The error figures: RMS, extremes, 3-sigma limits and the count outside them. */
  datatype ErrorFigures = ErrorFigures(rms: real, minError: real, maxError: real, ucl: real, lcl: real, outlierCount: nat)

  function ErrorStatistics(lib: Library, d: seq<real>): ErrorFigures
    requires d != []
  {
    var averageError := Mean(d);
    var sd := StandardDeviation(lib, d);
    var ucl, lcl := averageError + 3.0 * sd, averageError - 3.0 * sd;
    ErrorFigures(lib.sqrt(Mean(Squares(d))), Min(d), Max(d), ucl, lcl, CountOutside(d, lcl, ucl))
  }

  /** abs(total_mAh) */
  function Abs(x: real): real {
    if x < 0.0 then -x else x
  }

  /** The figures and the results dictionary, given the active rows and the charge total; None when a motion column holds a None. */
  function Assemble(lib: Library, active: seq<Parsed>, totalMah: real): Option<Results>
    requires |active| >= 2
  {
    var e := ErrorStatistics(lib, Differences(active));
    var accX := Present(Column(active, (p: Parsed) => p.accX));
    var accY := Present(Column(active, (p: Parsed) => p.accY));
    var accZ := Present(Column(active, (p: Parsed) => p.accZ));
    var rotX := Present(Column(active, (p: Parsed) => p.rotX));
    var rotY := Present(Column(active, (p: Parsed) => p.rotY));
    var rotZ := Present(Column(active, (p: Parsed) => p.rotZ));
    var temp := Present(Column(active, (p: Parsed) => p.temp));
    if accX.None? || accY.None? || accZ.None? || rotX.None? || rotY.None? || rotZ.None? || temp.None? then None
    else
      Some(Results(active[0].timestamp, active[|active| - 1].timestamp,
                   active[|active| - 1].timestamp - active[0].timestamp,
                   e.rms, e.minError, e.maxError, e.ucl, e.lcl, Abs(totalMah), e.outlierCount,
                   CalculateStats(accX.value), CalculateStats(accY.value), CalculateStats(accZ.value),
                   CalculateStats(rotX.value), CalculateStats(rotY.value), CalculateStats(rotZ.value),
                   CalculateStats(temp.value)))
  }

  /** The active rows of a file that was read without an exception. */
  function ActiveOf(lib: Library, rows: seq<RawRow>): seq<Parsed>
    requires ParseAll(lib, rows).Ok?
  {
    ActiveRows(ParseAll(lib, rows).value)
  }

  /** What calculate_rms_accuracy_with_stats returns for the rows of the file. */
  function Analysis(lib: Library, rows: seq<RawRow>): Option<Results> {
    match ParseAll(lib, rows)
    case Ok(kept) =>
      if kept == [] then None
      else
        var active := ActiveRows(kept);
        if |active| < 2 then None else Assemble(lib, active, ChargeTotal(active))
    case _ => None
  }

  /** calculate_rms_accuracy_with_stats over the rows DictReader yields. */
  method CalculateRmsAccuracyWithStats(lib: Library, rows: seq<RawRow>) returns (r: Option<Results>)
    ensures r == Analysis(lib, rows)
  {
    var cols := ReadRows(lib, rows);
    if cols.None? {
      return None;
    }
    var c := cols.value;
    if |c.busVoltages| == 0 || |c.flukeVoltages| == 0 || |c.timestamps| == 0 {
      return None;
    }
    var activeData := ActiveData(c, |c.busVoltages|);
    ActiveDataOfColumns(ParseAll(lib, rows).value, |c.busVoltages|);
    assert ParseAll(lib, rows).value[..|c.busVoltages|] == ParseAll(lib, rows).value;
    if |activeData| < 2 {
      return None;
    }
    var totalMah := BatteryCapacity(activeData);
    r := Assemble(lib, activeData, totalMah);
  }
}
