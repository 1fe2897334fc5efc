/** The records of the sensor model and the model's state: one time-aligned
    sample (`DataPoint`), one sensor with its series and calibration
    coefficients (`Sensor`), and the list model holding the sensors and the
    plot bounds. */
module Sensors {
  import opened Wrappers
  import opened Ints
  import opened Text

  /** One sample. `v1`/`v2` are the raw readings of channels A and B.
      `v1Corr`/`v2Corr` are the corrected readings; `None` stands for a field
      the code never assigned (an indeterminate `double` in the source), so
      an unset correction cannot be mistaken for a computed one. */
  datatype DataPoint = DataPoint(
    time: real,
    v1: real,
    v2: real,
    v1Corr: Option<real>,
    v2Corr: Option<real>)

  /** One sensor: identifier, display name, samples in file order, and the
      calibration coefficients of channels A and B. */
  datatype Sensor = Sensor(
    id: Int32,
    name: string,
    data: seq<DataPoint>,
    kA: real,
    kB: real)

  /** The two measurement channels of a sensor. */
  datatype Channel = A | B

  /** A sensor built with its declared defaults: no samples and identity
      calibration coefficients. */
  function NewSensor(id: Int32, name: string): Sensor {
    Sensor(id, name, [], 1.0, 1.0)
  }

  /** The display name the converter gives a sensor: `Sensor <id>`. */
  function SensorName(id: Int32): string {
    "Sensor " + IntToDecimal(id)
  }

  /** The state of the list model: the sensors and the bounds and reference
      published to the presentation layer. */
  datatype SensorModel = SensorModel(
    sensors: seq<Sensor>,
    minTime: real,
    maxTime: real,
    minValue: real,
    maxValue: real,
    globalReference: real)

  /** The state of a freshly constructed model. */
  const InitialModel: SensorModel :=
    SensorModel([], 0.0, 10.0, 0.0, 100.0, 0.0)
}
