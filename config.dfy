/** The fixed hardware configuration and constants of the sketch: the
    channel set, each channel's pins, and the calibration constants. */
module Config {

  const NUM_BATTERIES: nat := 2

  /** Default timed-test duration in seconds, and the largest override a
      command may give. */
  const TEST_DURATION: int := 30
  const MAX_DURATION: int := 3600

  /** Shunt resistance in ohms and ADC reference voltage in volts. */
  const SHUNT_RESISTANCE: real := 0.8
  const V_REF: real := 5.01

  /** Largest raw count of the 10-bit ADC. */
  const ADC_MAX: int := 1023

  /** Full-discharge cutoff in volts. */
  const CUTOFF_VOLTAGE: real := 3.0

  /** Pin numbers of the analog inputs A0..A5 on an Arduino Uno. */
  const A0: int := 14
  const A1: int := 15
  const A2: int := 16
  const A3: int := 17
  const A4: int := 18
  const A5: int := 19

  datatype BatteryPins = BatteryPins(
    relayPin: int,
    voltagePin: int,
    shuntHigh: int,
    shuntLow: int,
    directVoltagePin: int)

  /** The initialisers name four of the five pins, so the fifth,
      `directVoltagePin`, is zero for both channels. */
  const BATTERIES: seq<BatteryPins> := [
    BatteryPins(2, A0, A1, A2, 0),
    BatteryPins(3, A3, A4, A5, 0)
  ]
}
