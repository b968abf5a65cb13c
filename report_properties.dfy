/** What the report guarantees about the rows it keeps and the figures it returns. */
module ReportProperties {

  import opened Options
  import opened Schema
  import opened Statistics
  import opened Report

  /** The active filter keeps exactly the flagged rows. */
  lemma {:induction false} ActiveRowsMembers(rows: seq<Parsed>)
    ensures forall p :: p in ActiveRows(rows) <==> p in rows && p.active
    ensures |ActiveRows(rows)| <= |rows|
    decreases |rows|
  {
    if rows != [] {
      var init := rows[..|rows| - 1];
      ActiveRowsMembers(init);
      assert rows == init + [rows[|rows| - 1]];
    }
  }

  /** ... and keeps them in file order: filtering a file is filtering its parts one after the other. */
  lemma {:induction false} ActiveRowsInOrder(a: seq<Parsed>, b: seq<Parsed>)
    ensures ActiveRows(a + b) == ActiveRows(a) + ActiveRows(b)
    decreases |b|
  {
    if b != [] {
      var init := b[..|b| - 1];
      ActiveRowsInOrder(a, init);
      assert (a + b)[..|a + b| - 1] == a + init;
      assert (a + b)[|a + b| - 1] == b[|b| - 1];
    } else {
      assert a + b == a;
    }
  }

  /** A flag counts as active exactly when its cell is four letters that lower-case to "true". */
  lemma ActiveFlagRule(row: RawRow)
    ensures ActiveFlag(row) <==>
              && EspActive in row && row[EspActive].Some?
              && |row[EspActive].value| == 4
              && forall i :: 0 <= i < 4 ==> LowerChar(row[EspActive].value[i]) == "true"[i]
  {
    if EspActive in row && row[EspActive].Some? && |row[EspActive].value| == 4
       && forall i :: 0 <= i < 4 ==> LowerChar(row[EspActive].value[i]) == "true"[i] {
      assert Lower(row[EspActive].value) == "true";
    }
  }

  /** The flag as the collector writes a Python bool reads back as that bool; a missing or empty cell reads as False. */
  lemma ActiveFlagRoundTrip(b: bool, row: RawRow)
    ensures ActiveFlag(row[EspActive := Some(if b then "True" else "False")]) == b
    ensures EspActive !in row || row[EspActive] == None || row[EspActive] == Some("") ==> !ActiveFlag(row)
  {
    var r := row[EspActive := Some(if b then "True" else "False")];
    ActiveFlagRule(r);
    if b {
      assert forall i :: 0 <= i < 4 ==> LowerChar("True"[i]) == "true"[i];
    }
  }

  /** A full-width row (its Timestamp, Bus and Fluke cells present) never raises. */
  predicate FullRow(row: RawRow) {
    && Timestamp in row && row[Timestamp].Some?
    && BusVoltage in row && row[BusVoltage].Some?
    && FlukeVoltage in row && row[FlukeVoltage].Some?
  }

  /** An optional cell that is empty, or that float() accepts. */
  predicate OptionalParses(lib: Library, row: RawRow, key: string) {
    Get(row, key).None? || lib.float(Get(row, key).value).Some?
  }

  /** The value an optional cell contributes: float() of a non-empty cell it accepts, else None. */
  function OptionalValue(lib: Library, row: RawRow, key: string): Option<real> {
    if Get(row, key).Some? && lib.float(Get(row, key).value).Some? then lib.float(Get(row, key).value) else None
  }

  /**
   * A full-width row is kept exactly when its timestamp, both voltages and every
   * non-empty optional cell parse, and then carries those values (None for a missing
   * or empty optional cell); otherwise it is skipped whole.
   */
  lemma FullRowKeptOrSkipped(lib: Library, row: RawRow)
    requires FullRow(row)
    ensures !ParseRow(lib, row).Raise?
    ensures ParseRow(lib, row).Ok? <==>
              && lib.strptime(row[Timestamp].value).Some?
              && lib.float(row[BusVoltage].value).Some?
              && lib.float(row[FlukeVoltage].value).Some?
              && OptionalParses(lib, row, Current)
              && OptionalParses(lib, row, AccelerationX) && OptionalParses(lib, row, AccelerationY)
              && OptionalParses(lib, row, AccelerationZ) && OptionalParses(lib, row, RotationX)
              && OptionalParses(lib, row, RotationY) && OptionalParses(lib, row, RotationZ)
              && OptionalParses(lib, row, Temperature)
    ensures ParseRow(lib, row).Ok? ==>
              var p := ParseRow(lib, row).value;
              && p.timestamp == lib.strptime(row[Timestamp].value).value
              && p.bus == lib.float(row[BusVoltage].value).value
              && p.fluke == lib.float(row[FlukeVoltage].value).value
              && p.active == ActiveFlag(row)
              && p.current == OptionalValue(lib, row, Current)
              && p.accX == OptionalValue(lib, row, AccelerationX) && p.accY == OptionalValue(lib, row, AccelerationY)
              && p.accZ == OptionalValue(lib, row, AccelerationZ) && p.rotX == OptionalValue(lib, row, RotationX)
              && p.rotY == OptionalValue(lib, row, RotationY) && p.rotZ == OptionalValue(lib, row, RotationZ)
              && p.temp == OptionalValue(lib, row, Temperature)
  {
  }

  /** An empty Timestamp, Bus or Fluke cell skips the row whole. */
  lemma EmptyCells(lib: Library, row: RawRow, key: string)
    requires PythonLike(lib) && FullRow(row)
    requires key in {Timestamp, BusVoltage, FlukeVoltage} && row[key] == Some("")
    ensures ParseRow(lib, row).Skip?
  {
    FullRowKeptOrSkipped(lib, row);
  }

  /** Every active row has all seven motion and temperature values exactly when none of the columns holds a None. */
  lemma MotionColumnsPresent(active: seq<Parsed>)
    ensures MotionComplete(active) <==>
              && Present(Column(active, (p: Parsed) => p.accX)).Some?
              && Present(Column(active, (p: Parsed) => p.accY)).Some?
              && Present(Column(active, (p: Parsed) => p.accZ)).Some?
              && Present(Column(active, (p: Parsed) => p.rotX)).Some?
              && Present(Column(active, (p: Parsed) => p.rotY)).Some?
              && Present(Column(active, (p: Parsed) => p.rotZ)).Some?
              && Present(Column(active, (p: Parsed) => p.temp)).Some?
  {
  }

  /**
   * The analysis yields None exactly when an exception other than ValueError ended the
   * reading loop, when fewer than two kept rows are active (no kept row at all included),
   * or when an active row lacks a motion or temperature value.
   */
  lemma AnalysisNoneExactly(lib: Library, rows: seq<RawRow>)
    ensures Analysis(lib, rows).None? <==>
              || ParseAll(lib, rows).Raise?
              || |ActiveOf(lib, rows)| < 2
              || !MotionComplete(ActiveOf(lib, rows))
  {
    if ParseAll(lib, rows).Ok? {
      var active := ActiveOf(lib, rows);
      if |active| >= 2 {
        MotionColumnsPresent(active);
      }
    }
  }

  /** The variance is an average of squares, so the standard deviation is not negative. */
  lemma StandardDeviationNonNegative(lib: Library, d: seq<real>)
    requires PythonLike(lib) && d != []
    ensures 0.0 <= StandardDeviation(lib, d)
  {
    var sq := SquaredDeviations(d, Mean(d));
    SumNonNegative(sq);
    assert 0.0 <= Mean(sq);
  }

  /**
   * The error figures: the extremes are differences and bound them all, the control
   * limits straddle the mean error, and the outliers are the differences strictly
   * outside them.
   */
  lemma ErrorFiguresBounds(lib: Library, d: seq<real>)
    requires PythonLike(lib) && d != []
    ensures var e := ErrorStatistics(lib, d);
            && e.minError in d && e.maxError in d
            && (forall i :: 0 <= i < |d| ==> e.minError <= d[i] <= e.maxError)
            && e.lcl <= Mean(d) <= e.ucl
            && e.outlierCount == |OutsideIndices(d, e.lcl, e.ucl)| <= |d|
            && 0.0 <= e.rms
  {
    var e := ErrorStatistics(lib, d);
    StandardDeviationNonNegative(lib, d);
    var sq := Squares(d);
    SumNonNegative(sq);
    assert 0.0 <= Mean(sq);
    CountOutsideCounts(d, e.lcl, e.ucl);
  }

  /** Assemble reports the error figures of the differences, the span of the rows and the magnitude of the charge. */
  lemma AssembleFigures(lib: Library, active: seq<Parsed>, totalMah: real)
    requires |active| >= 2 && Assemble(lib, active, totalMah).Some?
    ensures var res, e := Assemble(lib, active, totalMah).value, ErrorStatistics(lib, Differences(active));
            && res.rmsAccuracy == e.rms && res.minError == e.minError && res.maxError == e.maxError
            && res.ucl == e.ucl && res.lcl == e.lcl && res.outlierCount == e.outlierCount
            && 0.0 <= res.batteryCapacity && (res.batteryCapacity == totalMah || res.batteryCapacity == -totalMah)
            && res.startTime == active[0].timestamp && res.endTime == active[|active| - 1].timestamp
            && res.duration == res.endTime - res.startTime
  {
  }

  /** Each motion and temperature range of a successful analysis brackets its average. */
  lemma AssembleStats(lib: Library, active: seq<Parsed>, totalMah: real)
    requires |active| >= 2 && Assemble(lib, active, totalMah).Some?
    ensures var res := Assemble(lib, active, totalMah).value;
            && res.accX.min.value <= res.accX.avg.value <= res.accX.max.value
            && res.accY.min.value <= res.accY.avg.value <= res.accY.max.value
            && res.accZ.min.value <= res.accZ.avg.value <= res.accZ.max.value
            && res.rotX.min.value <= res.rotX.avg.value <= res.rotX.max.value
            && res.rotY.min.value <= res.rotY.avg.value <= res.rotY.max.value
            && res.rotZ.min.value <= res.rotZ.avg.value <= res.rotZ.max.value
            && res.temp.min.value <= res.temp.avg.value <= res.temp.max.value
  {
  }

  /**
   * What a successful analysis reports: at least two active rows, control limits that
   * straddle the mean error, no more outliers than active rows, ordered error extremes,
   * a capacity that is the magnitude of the charge total over consecutive active rows,
   * and motion and temperature ranges that each bracket their average.
   */
  lemma AnalysisFigures(lib: Library, rows: seq<RawRow>)
    requires PythonLike(lib) && Analysis(lib, rows).Some?
    ensures ParseAll(lib, rows).Ok? && |ActiveOf(lib, rows)| >= 2
    ensures var active, res := ActiveOf(lib, rows), Analysis(lib, rows).value;
            && res.lcl <= Mean(Differences(active)) <= res.ucl
            && res.outlierCount <= |active|
            && (res.batteryCapacity == ChargeTotal(active) || res.batteryCapacity == -ChargeTotal(active))
            && 0.0 <= res.batteryCapacity
            && res.minError <= res.maxError
            && res.accX.min.value <= res.accX.avg.value <= res.accX.max.value
            && res.accY.min.value <= res.accY.avg.value <= res.accY.max.value
            && res.accZ.min.value <= res.accZ.avg.value <= res.accZ.max.value
            && res.rotX.min.value <= res.rotX.avg.value <= res.rotX.max.value
            && res.rotY.min.value <= res.rotY.avg.value <= res.rotY.max.value
            && res.rotZ.min.value <= res.rotZ.avg.value <= res.rotZ.max.value
            && res.temp.min.value <= res.temp.avg.value <= res.temp.max.value
  {
    var active := ActiveOf(lib, rows);
    ErrorFiguresBounds(lib, Differences(active));
    AssembleFigures(lib, active, ChargeTotal(active));
    AssembleStats(lib, active, ChargeTotal(active));
  }
}
