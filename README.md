# Battery-test data collector and report, modelled in Dafny

The system logs a battery-powered ESP8266 sensor board next to a Fluke 8845A
bench meter. A collector script takes each Fluke voltage from a queue. While the
board is considered alive, it polls the board's JSON endpoint. It then appends one
17-column CSV row. Along the way it keeps a one-way liveness latch
(`esp_running`, `esp_start_time`, `esp_stop_time`) and integrates the board's
current into mAh by the trapezoid rule. When the latch is closed and the queue is
empty, it stops, reports a summary and resets the two instants. A report script
reads the CSV back and keeps the rows that parse and are flagged active. From them
it computes:

- the RMS, extremes and 3-sigma control limits of the Fluke-minus-bus voltage error;
- the count of errors outside those limits;
- the charge drawn;
- min/avg/max ranges for motion and temperature.

Modules:

- `Options`, `Schema` (the 17 column names) and `Sensor` (the ESP payload, the
  HTTP outcome and the clock readings of one tick) are shared vocabulary.
- `TimeFormat` models `format_time` and its inverse `ParseClock`.
- `Liveness` models the latch updates of `fetch_sensor_data_from_esp`.
- `CapacityIntegrator` models the trapezoid update. `TrapezoidTotal` is a
  reference definition for a whole run.
- `RowMerger` models `append_data_to_csv` as a function of the globals: the
  KeyError paths, the capacity update and the row.
- `Collector` holds the consumer loop:
  - `Step`, `Drain` and `Run` specify it as pure functions;
  - class `DataCollector` holds the globals as fields;
  - its methods `FetchSensorDataFromEsp`, `AppendDataToCsv` and `MainLoop` update those fields imperatively and are proved equal to the functions.
- `CollectorProperties` holds whole-run properties of the loop.
- `Statistics` holds sum, mean, min, max, the outlier count and `calculate_stats`.
- `Report` models `calculate_rms_accuracy_with_stats`:
  - the row parse, with its skip/raise outcomes;
  - the imperative twelve-list reading loop;
  - the active filter;
  - the imperative capacity loop;
  - the result assembly, with `Analysis` as the reference function.
- `ReportProperties` holds the properties of the report.

Conventions:

- Instants are `nat` microseconds.
- Every `datetime.now()` of one iteration is its own reading in `TickClock`: the stop instant, the start instant, the row stamp, the integration end and the stored `previous_time`.
- Python floats are `real`.
- `float()`, `datetime.strptime` and `math.sqrt` are passed in as the `Report.Library` record. `PythonLike` states the little that is assumed of them: neither parser accepts `""`, and `sqrt` of a non-negative number is non-negative.
- An exception that ends the program (a `KeyError` in the collector) is an explicit `Crash`/`KeyErrorRaised` outcome.
- An exception caught by the report's catch-all gives the result `None`.

Three behaviours of the code that the model keeps as written:

- The end-of-run reset (datacollectionjsonGPIB.py:207-209) clears only the start and stop instants. `esp_running` stays False, so after the reset the latch is no longer `Consistent` (see `FinishedRunFromStart`), and `total_mAh` is not reset.
- When data is insufficient, the report returns `None` (sensorreport.py:70-72, 80-82). It does not return a message.
- A missing motion or temperature value in any active row makes `sum` raise `TypeError`. The catch-all then makes the whole analysis `None`. No per-column `None` statistics are returned.

## Model

| member | source | states |
|---|---|---|
| TimeFormat.Decimal | datacollectionjsonGPIB.py:78 | the decimal rendering of a natural number is a non-empty digit string without a leading zero, one digit long exactly when the number is below 10 |
| TimeFormat.DecimalRoundTrip | datacollectionjsonGPIB.py:78 | reading the digits back gives the number |
| TimeFormat.Pad2 | datacollectionjsonGPIB.py:78 | `{n:02}` is at least two characters; two digits denoting n for 0 <= n < 100; digits denoting n without a leading zero for n >= 10; a minus sign followed by the digits of -n, without a leading zero, for negative n |
| TimeFormat.Split | datacollectionjsonGPIB.py:75-77 | hours·3600 + minutes·60 + seconds = t, with 0 <= minutes, seconds < 60, and hours >= 0 for t >= 0 |
| TimeFormat.FormatTimeRoundTrip | datacollectionjsonGPIB.py:74-78 | for every whole t >= 0, parsing the "HH:MM:SS" text back yields t |
| Liveness.FetchSensorData | datacollectionjsonGPIB.py:52-72 | the latch only closes; the stop and start instants are written once; a new stop instant comes with a closed latch; a new start instant only with returned data; a request failure returns None, closes the latch and records no start; data is returned exactly when the response has a bus voltage; a missing busV raises KeyError with the latch untouched; consistency of running vs. stop instant is preserved |
| Liveness.LowVoltageClosesLatchKeepsData | datacollectionjsonGPIB.py:59-66 | a below-threshold response closes the latch, records the first stop instant, and still returns its data |
| Liveness.HealthyResponseKeepsLatch | datacollectionjsonGPIB.py:59-65 | a response at or above 3.2 V leaves the running flag and stop instant as they were |
| CapacityIntegrator.Integrate | datacollectionjsonGPIB.py:100-108 | previous_time and previous_current are replaced on every call; the total changes only when data, previous time and previous current are all present, and then by the trapezoid (mean current × hours) |
| CapacityIntegrator.GapSkipsNextInterval | datacollectionjsonGPIB.py:101-108 | a tick without current leaves the total alone and, by clearing previous_current, so does the next tick |
| CapacityIntegrator.DischargeAccumulates | datacollectionjsonGPIB.py:101-105 | non-negative currents over a forward interval never decrease the total |
| CapacityIntegrator.IntegrateAllIsTrapezoidTotal | datacollectionjsonGPIB.py:100-108 | from the initial globals, integrating a run's samples gives the sum of trapezoids over consecutive samples that both carry a current, and remembers the last sample |
| RowMerger.ElectricalOf | datacollectionjsonGPIB.py:91-96 | the ina219 lookups raise KeyError exactly when there is data whose busV, shuntV, curr or power is missing; otherwise the current is present exactly when there is data |
| RowMerger.AppendData | datacollectionjsonGPIB.py:80-133 | every row carries the Fluke value, the liveness flag and the millisecond stamp, and has difference = Fluke − bus when both exist and empty otherwise; without data the row has every ESP field empty, the total is unchanged and previous_current is cleared; with data a row is written exactly when the looked-up keys exist, and holds the payload's values; the capacity stays when the ina219 lookups raise, and is otherwise the integrator's update, also when the mpu6050 lookups raise afterwards |
| RowMerger.RowDict | datacollectionjsonGPIB.py:115-133 | the row dictionary's keys are exactly csv_columns |
| RowMerger.FlukeMissingRow | datacollectionjsonGPIB.py:110-133 | append_data_to_csv called directly with no Fluke value and complete ESP data gives empty Fluke and difference cells beside filled sensor cells (main never makes this call) |
| Collector.DataCollector.constructor | datacollectionjsonGPIB.py:24-31 | the globals start as esp_running True, no instants, 0 mAh, no previous sample, no rows |
| Collector.DataCollector.FetchSensorDataFromEsp | datacollectionjsonGPIB.py:52-72 | updating the global fields leaves exactly the latch and result of `FetchSensorData`, and the capacity fields and rows unchanged |
| Collector.DataCollector.IntegrateCurrent | datacollectionjsonGPIB.py:100-108 | the capacity fields become `Integrate` of their old values, nothing else changes |
| Collector.DataCollector.AppendDataToCsv | datacollectionjsonGPIB.py:80-137 | the capacity fields and the rows become those of `AppendData`, the latch is untouched, and the result says whether a row was written |
| Collector.DataCollector.MainLoop | datacollectionjsonGPIB.py:175-209 | the loop over the queue items, then the summary and reset, ends in the state and outcome of `Run` |
| CollectorProperties.DrainKeepsLatch | datacollectionjsonGPIB.py:175-192 | over any run the latch only closes, its instants are never overwritten, consistency is kept, and rows are only appended |
| CollectorProperties.RowsPerReading | datacollectionjsonGPIB.py:177-186 | rows written never exceed the non-None Fluke values dequeued, and equal them while the loop keeps waiting |
| CollectorProperties.DrainRowsConsistent | datacollectionjsonGPIB.py:175-192 | every row of a run has Voltage Difference = Fluke − Bus when both exist and empty otherwise |
| CollectorProperties.NoPollWhileClosed | datacollectionjsonGPIB.py:185 | once the latch is closed, what the ESP would answer has no effect on the run |
| CollectorProperties.ClosedRunIsBare | datacollectionjsonGPIB.py:185-186 | after the latch closes, every new row has empty ESP fields and ESP8266 Active False, and the total stays put |
| CollectorProperties.ExitAfterClosedRow | datacollectionjsonGPIB.py:186-190 | the loop breaks only right after writing a row, with the latch closed and that row flagged inactive |
| CollectorProperties.ExitRule | datacollectionjsonGPIB.py:185-190 | a written reading ends the loop exactly when the latch is closed and the queue is empty, and adds exactly one row |
| CollectorProperties.LowVoltageTickRow | datacollectionjsonGPIB.py:59-66 | while the latch is open, a complete response below 3.2 V closes it, yet that tick still appends one row holding the payload's sensor values with ESP8266 Active False |
| CollectorProperties.SkippedTick | datacollectionjsonGPIB.py:176-183 | a queue timeout or a failed Fluke read changes nothing and continues |
| CollectorProperties.FinishedRunFromStart | datacollectionjsonGPIB.py:196-209 | a run that ends by the break reports a stop instant and the total, then leaves esp_running False with both instants cleared |
| Statistics.Min | sensorreport.py:132 | min of a non-empty list is one of its elements and bounds all of them from below |
| Statistics.Max | sensorreport.py:133 | max of a non-empty list is one of its elements and bounds all of them from above |
| Statistics.SumBounds | sensorreport.py:131 | a sum of n values between lo and hi lies between n·lo and n·hi |
| Statistics.MeanWithinRange | sensorreport.py:131-133 | the average lies between the minimum and maximum |
| Statistics.SumNonNegative | sensorreport.py:109-110 | a sum of non-negative values is non-negative |
| Statistics.Squares | sensorreport.py:92 | each squared difference is the square of its difference and non-negative |
| Statistics.SquaredDeviations | sensorreport.py:109 | each squared deviation from the mean is non-negative |
| Statistics.CountOutside | sensorreport.py:118 | the outlier count never exceeds the number of differences |
| Statistics.CountOutsideCounts | sensorreport.py:118 | the outlier count is the number of positions strictly below lcl or above ucl |
| Statistics.CalculateStats | sensorreport.py:128-134 | (None, None, None) for no data; otherwise min <= avg <= max, min and max are elements, and every element lies between them |
| Report.ParseAll | sensorreport.py:35-68 | the reading loop's outcome is the list of kept rows or an escaped exception, never a ValueError |
| Report.ParseAllKeeps | sensorreport.py:35-68 | the loop completes exactly when no row raises anything but ValueError, and then holds exactly the rows whose parse succeeds, in file order: a ValueError row only drops out |
| Report.RaiseIsFinal | sensorreport.py:35-68 | an exception that escaped on some row decides the loop's outcome whatever rows follow |
| Report.ToColumns | sensorreport.py:53-64 | appending the kept rows keeps the twelve lists of equal length, one entry per kept row, in order |
| Report.ReadRows | sensorreport.py:32-68 | the imperative loop yields the twelve lists of the kept rows, or None when an exception left it |
| Report.ActiveDataOfColumns | sensorreport.py:75-78 | filtering the parallel lists by the active flag gives the flagged rows in file order |
| Report.BatteryCapacity | sensorreport.py:120-125 | the capacity loop computes the sum over consecutive active rows of mean current × hours, an interval with a missing current contributing 0 |
| Report.CalculateRmsAccuracyWithStats | sensorreport.py:5-177 | the imperative computation returns exactly `Analysis` of the rows |
| ReportProperties.ActiveRowsMembers | sensorreport.py:75-78 | the active filter keeps exactly the rows flagged active |
| ReportProperties.ActiveRowsInOrder | sensorreport.py:75-78 | the filter preserves file order: filtering a concatenation is concatenating the filtered parts |
| ReportProperties.ActiveFlagRule | sensorreport.py:41 | a row is active exactly when its flag cell has four characters lower-casing to "true" |
| ReportProperties.ActiveFlagRoundTrip | sensorreport.py:41 | "True"/"False" as the collector writes them read back as the bool; a missing, short-row or empty flag reads as False |
| ReportProperties.FullRowKeptOrSkipped | sensorreport.py:36-68 | a full-width row never raises; it is kept exactly when its timestamp, both voltages and every non-empty optional cell parse, and then carries its parsed timestamp, voltages and flag, its parsed current and seven motion and temperature values, and None for each missing or empty optional cell |
| ReportProperties.EmptyCells | sensorreport.py:37-51 | an empty Timestamp, Bus Voltage or Fluke Voltage cell skips the row whole |
| ReportProperties.MotionColumnsPresent | sensorreport.py:137-147 | all seven motion and temperature columns are usable exactly when every active row has all seven values |
| ReportProperties.AnalysisNoneExactly | sensorreport.py:70-177 | the result is None exactly when an exception escaped the reading loop, fewer than two kept rows are active, or an active row lacks a motion or temperature value |
| ReportProperties.StandardDeviationNonNegative | sensorreport.py:109-111 | the standard deviation is non-negative |
| ReportProperties.ErrorFiguresBounds | sensorreport.py:89-118 | min/max errors are differences bounding all others; lcl <= mean error <= ucl; the outlier count is the number of differences strictly outside [lcl, ucl] and at most their number; rms is non-negative |
| ReportProperties.AssembleFigures | sensorreport.py:99-160 | the results carry the error figures, the first and last active timestamps with their difference as duration, and the magnitude of the charge total |
| ReportProperties.AssembleStats | sensorreport.py:137-167 | each motion and temperature range brackets its average |
| ReportProperties.AnalysisFigures | sensorreport.py:5-177 | a successful analysis has at least two active rows, lcl <= mean error <= ucl, at most one outlier per active row, min error <= max error, battery capacity = abs(charge total over consecutive active rows) >= 0, and each of the seven motion and temperature ranges brackets its average |

## Left out

- GPIB/VISA transport (`initialize_gpib`, `read_fluke_voltage`), the early return when GPIB does not initialise, and `requests.get`/`response.json()`: the HTTP result is an input (`HttpOutcome`), and so is each Fluke value.
- The producer thread `fluke_reading_thread`, `queue.Queue` blocking and timeouts, and `time.sleep`: the queue is the sequence of what each `get` returned, with `queue.empty()` observed as an input.
- CSV file creation, appending, `DictWriter` and `DictReader`: rows written are a sequence of `Row`; rows read are maps from header name to cell.
- `datetime.now`, `strftime`, the `[:-3]` truncation and `str(duration)`: instants are microsecond numbers, and the stamp is kept as whole milliseconds.
- IEEE-754 floating point, NaN and infinities: values are `real`.
- `Report.Library`: `float`, `strptime` and `sqrt` are passed in as functions, not defined.
- JSON `null` values and non-numeric JSON values: a payload field is a number or absent.
- Payload keys other than `time`, `ina219` and `mpu6050` are not represented. A dict holding only other keys is truthy in Python and raises KeyError at datacollectionjsonGPIB.py:93. The model reads it as an empty payload and writes a row with empty ESP fields. `main` never passes such a dict, because the fetch already needs `ina219.busV`.
- `format_time` on fractional seconds: device time is a whole number of seconds.
- `Report.Lower` lower-cases only A-Z, not all of Unicode.
- Every `print`: the end-of-run summary is returned as the `Summary` value instead.
- The example usage at sensorreport.py:179-188.
- A non-KeyError exception inside `append_data_to_csv` or `fetch_sensor_data_from_esp` (for example, a non-numeric busV compared with 3.2): not modelled.
- Report: `FileNotFoundError`, and `DictReader` rows with extra cells.
