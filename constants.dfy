/** The `Constant` struct of include/Constant.h: three lookup tables, the
    constants read out of them, and the figures derived from those. Floats are
    modelled as the exact reals they hold where that is exact in binary32
    (0.125, 0.5, 3, 1, 4.25) and as the decimal written otherwise. */
module Constants {

  /** `std::map::operator[]`: the stored value, or the value-initialised 0 it
      would insert for a key it does not hold. */
  function Lookup<V>(table: map<string, V>, key: string, zero: V): V
  {
    if key in table then table[key] else zero
  }

  const Pins: map<string, int> := map[
    "estop" := 36, "enc_a" := 3, "enc_b" := 4, "hall_inbound" := 22, "hall_outbound" := 23,
    "engine_geartooth" := 37, "gearbox_geartooth" := 36,
    "thermistor_1" := 40, "thermistor_2" := 39, "thermistor_3" := 38]

  const FloatConstants: map<string, real> := map[
    "proportional_gain" := 0.015, "integral_gain" := 0.0, "derivative_gain" := 0.0,
    "exponential_filter_alpha" := 0.5, "overdrive_ratio" := 0.85, "ecvt_max_ratio" := 4.25]

  const IntConstants: map<string, int> := map[
    "actuator_motor_number" := 1, "cooling_motor_number" := 0,
    "homing_timeout" := 50_000_000, "cycle_period" := 10, "gearbox_rolling_frames" := 60]

  /** The keys the struct looks up in each table. */
  const PinKeys: seq<string> := ["estop", "enc_a", "enc_b", "hall_inbound", "hall_outbound",
    "engine_geartooth", "gearbox_geartooth", "thermistor_1", "thermistor_2", "thermistor_3"]
  const IntKeys: seq<string> := ["actuator_motor_number", "cooling_motor_number",
    "homing_timeout", "cycle_period", "gearbox_rolling_frames"]
  const FloatKeys: seq<string> := ["proportional_gain", "integral_gain", "derivative_gain",
    "exponential_filter_alpha", "ecvt_max_ratio", "overdrive_ratio"]

  // Engine constants, rpm.
  const EngineIdle := 1750
  const EngineEngage := 2100
  const EngineLaunch := 2600
  const EngineTorque := 2700
  const EnginePower := 3400
  const DesiredRpm := 2250
  const MinimumRpm := 1000

  const EstopPin := Lookup(Pins, "estop", 0)
  const EncoderAPin := Lookup(Pins, "enc_a", 0)
  const EncoderBPin := Lookup(Pins, "enc_b", 0)
  const HallInboundPin := Lookup(Pins, "hall_inbound", 0)
  const HallOutboundPin := Lookup(Pins, "hall_outbound", 0)
  const EngineGeartoothPin := Lookup(Pins, "engine_geartooth", 0)
  const GearboxGeartoothPin := Lookup(Pins, "gearbox_geartooth", 0)

  const ActuatorMotorNumber := Lookup(IntConstants, "actuator_motor_number", 0)
  const CoolingMotorNumber := Lookup(IntConstants, "cooling_motor_number", 0)
  const HomingTimeout := Lookup(IntConstants, "homing_timeout", 0)
  const CyclePeriod := Lookup(IntConstants, "cycle_period", 0)
  const GearboxRollingFrames := Lookup(IntConstants, "gearbox_rolling_frames", 0)

  const EcvtMaxRatio := Lookup(FloatConstants, "ecvt_max_ratio", 0.0)

  /** A float converted to `int`: the fraction is dropped, toward zero. */
  function Truncate(x: real): (i: int)
    ensures 0.0 <= x ==> i as real <= x < i as real + 1.0
    ensures x < 0.0 ==> i as real - 1.0 < x <= i as real
  {
    if 0.0 <= x then x.Floor else -((-x).Floor)
  }

  /** Engine rpm divided by the maximum eCVT ratio, converted to `int`. */
  const GearboxEngageRpm := Truncate(EngineEngage as real / EcvtMaxRatio)
  const GearboxPowerRpm := Truncate(EnginePower as real / EcvtMaxRatio)

  /** Linear actuator: inches per screw turn, and 4 x 2048 encoder counts per turn. */
  const LinearDistancePerRotation := 0.125
  const CountsPerRotation := 4 * 2048
  const LinearShiftLength := 3.0
  const LinearEngageLength := 1.0
  /** 0.2 rounded to binary32. */
  const LinearEngageBuffer: real := 13421773.0 / 67108864.0

  /** A length in inches as a truncated encoder count. */
  function EncoderCount(inches: real): (count: int)
    requires 0.0 <= inches
    ensures 0 <= count
    ensures count as real <= inches / LinearDistancePerRotation * CountsPerRotation as real < count as real + 1.0
  {
    Truncate(inches / LinearDistancePerRotation * CountsPerRotation as real)
  }

  const EncoderCountShiftLength := EncoderCount(LinearShiftLength)
  const EncoderEngageDist := EncoderCount(LinearEngageLength)
  const EncoderEngageBuffer := EncoderCount(LinearEngageBuffer)

  /** Every `operator[]` in the struct hits a key its table holds, so none
      inserts a default 0 and each constant is its table's entry. */
  lemma LookupsHitTheirTables()
    ensures forall k :: k in PinKeys ==> k in Pins
    ensures forall k :: k in IntKeys ==> k in IntConstants
    ensures forall k :: k in FloatKeys ==> k in FloatConstants
    ensures EstopPin == Pins["estop"] && EncoderAPin == Pins["enc_a"] && EncoderBPin == Pins["enc_b"]
    ensures HallInboundPin == Pins["hall_inbound"] && HallOutboundPin == Pins["hall_outbound"]
    ensures EngineGeartoothPin == Pins["engine_geartooth"] && GearboxGeartoothPin == Pins["gearbox_geartooth"]
    ensures ActuatorMotorNumber == IntConstants["actuator_motor_number"]
    ensures CoolingMotorNumber == IntConstants["cooling_motor_number"]
    ensures HomingTimeout == IntConstants["homing_timeout"] && CyclePeriod == IntConstants["cycle_period"]
    ensures GearboxRollingFrames == IntConstants["gearbox_rolling_frames"]
    ensures EcvtMaxRatio == FloatConstants["ecvt_max_ratio"]
  {
  }

  lemma PinValues()
    ensures EstopPin == 36 && GearboxGeartoothPin == 36 && EngineGeartoothPin == 37
    ensures HallInboundPin == 22 && HallOutboundPin == 23
    ensures EncoderAPin == 3 && EncoderBPin == 4
  {
  }

  /** The hall switches and the encoder channels sit on distinct pins, but the
      estop and the gearbox gear-tooth sensor share pin 36. */
  lemma PinsDistinctExceptEstop()
    ensures HallInboundPin != HallOutboundPin && EncoderAPin != EncoderBPin
    ensures EngineGeartoothPin != GearboxGeartoothPin
    ensures EstopPin == GearboxGeartoothPin
  {
    PinValues();
  }

  /** The engine speeds climb strictly; the minimum lies below idle and the
      target between engagement and launch. */
  lemma EngineThresholdsOrdered()
    ensures MinimumRpm < EngineIdle < EngineEngage < EngineLaunch < EngineTorque < EnginePower
    ensures EngineEngage < DesiredRpm < EngineLaunch
  {
  }

  lemma GearboxRpms()
    ensures GearboxEngageRpm == 494
    ensures GearboxPowerRpm == 800 && GearboxPowerRpm as real == EnginePower as real / EcvtMaxRatio
  {
    assert EcvtMaxRatio == 4.25;
    assert 494.0 <= EngineEngage as real / EcvtMaxRatio < 495.0;
  }

  /** The encoder counts are 196608, 65536 and 13107, and the engage distance
      plus its buffer falls short of the full shift. */
  lemma EncoderCounts()
    ensures EncoderCountShiftLength == 196608
    ensures EncoderEngageDist == 65536
    ensures EncoderEngageBuffer == 13107
    ensures EncoderEngageDist + EncoderEngageBuffer < EncoderCountShiftLength
    ensures EncoderCountShiftLength < 0x8000_0000
  {
    assert LinearEngageBuffer / LinearDistancePerRotation * CountsPerRotation as real == 13421773.0 / 1024.0;
  }

  lemma ActuatorValues()
    ensures HomingTimeout == 50_000_000 && HomingTimeout < 0x8000_0000
    ensures GearboxRollingFrames == 60 && CyclePeriod == 10
    ensures ActuatorMotorNumber == 1 && CoolingMotorNumber == 0
  {
  }
}
