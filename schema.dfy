/** The fixed column schema of the sensor CSV file shared by the collector and the report. */
module Schema {

  const Timestamp: string := "Timestamp"
  const Time: string := "Time"
  const BusVoltage: string := "Bus Voltage (V)"
  const FlukeVoltage: string := "Fluke Voltage (V)"
  const VoltageDifference: string := "Voltage Difference (V)"
  const ShuntVoltage: string := "Shunt Voltage (mV)"
  const LoadVoltage: string := "Load Voltage (V)"
  const Current: string := "Current (mA)"
  const Power: string := "Power (mW)"
  const AccelerationX: string := "Acceleration X (m/s^2)"
  const AccelerationY: string := "Acceleration Y (m/s^2)"
  const AccelerationZ: string := "Acceleration Z (m/s^2)"
  const RotationX: string := "Rotation X (rad/s)"
  const RotationY: string := "Rotation Y (rad/s)"
  const RotationZ: string := "Rotation Z (rad/s)"
  const Temperature: string := "Temperature (°C)"
  const EspActive: string := "ESP8266 Active"

  /** csv_columns: the header of the file and the order in which every row is written. */
  const CsvColumns: seq<string> :=
    [Timestamp, Time, BusVoltage, FlukeVoltage, VoltageDifference, ShuntVoltage, LoadVoltage,
     Current, Power, AccelerationX, AccelerationY, AccelerationZ,
     RotationX, RotationY, RotationZ, Temperature, EspActive]
}
