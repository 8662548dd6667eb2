/** The actuator's configuration: `config.hpp` and the validation and staging rules of `config_validation.cpp`. */
module Config {
  import opened Bytes

  const CONFIG_VERSION: uint16 := 1

  // Enumerations that are stored as one byte and read back unchecked stay bytes.
  const STEALTHCHOP: byte := 0
  const ACTION_RAMP_STOP: byte := 0
  const ACTION_DISABLE: byte := 1

  datatype BoardPins = BoardPins(
    stepPin: int16,
    dirPin: int16,
    enablePin: int16,
    enableActiveLow: bool,
    uartRxPin: int16,
    uartTxPin: int16,
    uartBaud: uint32,
    driverAddress: byte,
    senseResistorMilliohm: uint16)

  datatype MotorSpec = MotorSpec(
    fullStepsPerRev: uint16,
    gearRatioNum: uint16,
    gearRatioDen: uint16,
    unitsPerRev: uint32,
    maxCurrentMa: uint16,
    axisName: string)

  datatype DriverConfig = DriverConfig(
    runCurrentMa: uint16,
    holdCurrentMa: uint16,
    microsteps: uint16,
    mode: byte,
    blankTime: byte,
    toff: byte,
    interpolation: bool)

  datatype MotionLimits = MotionLimits(
    maxVelocity: uint32,
    maxAccel: uint32,
    maxTravel: int32,
    softLimitsEnabled: bool,
    softMin: int32,
    softMax: int32,
    stopDecel: uint32)

  datatype TelemetryConfig = TelemetryConfig(intervalMs: uint16, enabledFields: uint16, binaryStreamEnabled: bool)

  datatype CalibrationConfig = CalibrationConfig(
    positionOffset: int32,
    homePosition: int32,
    directionInverted: bool,
    softLimitOrigin: int32)

  datatype SafetyConfig = SafetyConfig(
    hostTimeoutMs: uint32,
    timeoutAction: byte,
    enableTimeoutMs: uint32,
    maxAllowedCurrentMa: uint16,
    maxAllowedVelocity: uint32,
    maxAllowedAccel: uint32)

  datatype ActuatorConfig = ActuatorConfig(
    version: uint16,
    pins: BoardPins,
    motor: MotorSpec,
    driver: DriverConfig,
    motion: MotionLimits,
    telemetry: TelemetryConfig,
    calibration: CalibrationConfig,
    safety: SafetyConfig)

  const DEFAULT_AXIS_NAME := "axis0"

  const DEFAULT_CONFIG := ActuatorConfig(
    CONFIG_VERSION,
    BoardPins(20, 19, 18, true, 17, 16, 115200, 0, 110),
    MotorSpec(200, 1, 1, 3200, 1400, DEFAULT_AXIS_NAME),
    DriverConfig(800, 0, 16, STEALTHCHOP, 24, 5, true),
    MotionLimits(2000, 2000, 100000, false, -100000, 100000, 1500),
    TelemetryConfig(0, 0xFFFF, true),
    CalibrationConfig(0, 0, false, 0),
    SafetyConfig(1000, ACTION_RAMP_STOP, 0, 1400, 50000, 100000))

  datatype ConfigField =
    | TelemetryIntervalMs | SoftLimitsEnabled | SoftLimitMin | SoftLimitMax
    | MaxVelocity | MaxAccel | StopDecel
    | RunCurrentMa | HoldCurrentMa | Microsteps | DriverMode
    | PositionOffset | HomePosition | DirectionInverted
    | HostTimeoutMs | VelocityTimeoutAction | EnableTimeoutMs
    | MaxAllowedCurrentMa | MaxAllowedVelocity | MaxAllowedAccel

  /** The field with a wire number, if the number is known. */
  function FieldOf(raw: uint16): Option<ConfigField> {
    match raw
    case 1 => Some(TelemetryIntervalMs)
    case 2 => Some(SoftLimitsEnabled)
    case 3 => Some(SoftLimitMin)
    case 4 => Some(SoftLimitMax)
    case 5 => Some(MaxVelocity)
    case 6 => Some(MaxAccel)
    case 7 => Some(StopDecel)
    case 8 => Some(RunCurrentMa)
    case 9 => Some(HoldCurrentMa)
    case 10 => Some(Microsteps)
    case 11 => Some(DriverMode)
    case 12 => Some(PositionOffset)
    case 13 => Some(HomePosition)
    case 14 => Some(DirectionInverted)
    case 15 => Some(HostTimeoutMs)
    case 16 => Some(VelocityTimeoutAction)
    case 17 => Some(EnableTimeoutMs)
    case 18 => Some(MaxAllowedCurrentMa)
    case 19 => Some(MaxAllowedVelocity)
    case 20 => Some(MaxAllowedAccel)
    case _ => None
  }

  datatype Mutability = RuntimeSafe | RequiresIdle | RequiresReboot | CompileTimeOnly | Reserved

  function FieldMutability(f: ConfigField): Mutability {
    match f
    case PositionOffset | HomePosition | EnableTimeoutMs => Reserved
    case RunCurrentMa | HoldCurrentMa | Microsteps | DriverMode => RequiresIdle
    case _ => RuntimeSafe
  }

  // ----- Validation -----

  datatype Validation = Valid | Invalid(field: ConfigField)

  predicate SupportedMicrosteps(m: uint16) {
    m == 1 || m == 2 || m == 4 || m == 8 || m == 16 || m == 32 || m == 64 || m == 128 || m == 256
  }

  function Validate(c: ActuatorConfig): Validation {
    if c.version != CONFIG_VERSION then Invalid(TelemetryIntervalMs)
    else if c.motor.fullStepsPerRev == 0 || c.motor.gearRatioDen == 0 || c.motor.unitsPerRev == 0
        then Invalid(MaxVelocity)
    else if c.driver.runCurrentMa == 0 || c.driver.runCurrentMa > c.safety.maxAllowedCurrentMa
         || c.driver.runCurrentMa > c.motor.maxCurrentMa then Invalid(RunCurrentMa)
    else if c.driver.holdCurrentMa > c.driver.runCurrentMa then Invalid(HoldCurrentMa)
    else if !SupportedMicrosteps(c.driver.microsteps) then Invalid(Microsteps)
    else if c.motion.maxVelocity == 0 || c.motion.maxVelocity > c.safety.maxAllowedVelocity then Invalid(MaxVelocity)
    else if c.motion.maxAccel == 0 || c.motion.maxAccel > c.safety.maxAllowedAccel then Invalid(MaxAccel)
    else if c.motion.stopDecel == 0 || c.motion.stopDecel > c.safety.maxAllowedAccel then Invalid(StopDecel)
    else if c.motion.softLimitsEnabled && c.motion.softMin > c.motion.softMax then Invalid(SoftLimitMin)
    else if c.safety.hostTimeoutMs < 100 || c.safety.hostTimeoutMs > 60000 then Invalid(HostTimeoutMs)
    else Valid
  }

  predicate IsValid(c: ActuatorConfig) { Validate(c).Valid? }

  lemma DefaultIsValid()
    ensures IsValid(DEFAULT_CONFIG)
  {}

  // ----- Staging -----

  /** The configuration with one field set, unless the value does not even fit the field. */
  function SetField(c: ActuatorConfig, f: ConfigField, v: int32): Option<ActuatorConfig> {
    match f
    case TelemetryIntervalMs =>
      if v < 0 || v > 65535 then None else Some(c.(telemetry := c.telemetry.(intervalMs := v)))
    case SoftLimitsEnabled => Some(c.(motion := c.motion.(softLimitsEnabled := v != 0)))
    case SoftLimitMin => Some(c.(motion := c.motion.(softMin := v)))
    case SoftLimitMax => Some(c.(motion := c.motion.(softMax := v)))
    case MaxVelocity => if v <= 0 then None else Some(c.(motion := c.motion.(maxVelocity := v)))
    case MaxAccel => if v <= 0 then None else Some(c.(motion := c.motion.(maxAccel := v)))
    case StopDecel => if v <= 0 then None else Some(c.(motion := c.motion.(stopDecel := v)))
    case RunCurrentMa => if v <= 0 || v > 65535 then None else Some(c.(driver := c.driver.(runCurrentMa := v)))
    case HoldCurrentMa => if v < 0 || v > 65535 then None else Some(c.(driver := c.driver.(holdCurrentMa := v)))
    case Microsteps => if v <= 0 || v > 256 then None else Some(c.(driver := c.driver.(microsteps := v)))
    case DriverMode => if v < 0 || v > 1 then None else Some(c.(driver := c.driver.(mode := v)))
    case PositionOffset | HomePosition | EnableTimeoutMs => None
    case DirectionInverted => Some(c.(calibration := c.calibration.(directionInverted := v != 0)))
    case HostTimeoutMs => if v <= 0 then None else Some(c.(safety := c.safety.(hostTimeoutMs := v)))
    case VelocityTimeoutAction => if v < 0 || v > 1 then None else Some(c.(safety := c.safety.(timeoutAction := v)))
    case MaxAllowedCurrentMa =>
      if v <= 0 || v > 65535 then None else Some(c.(safety := c.safety.(maxAllowedCurrentMa := v)))
    case MaxAllowedVelocity => if v <= 0 then None else Some(c.(safety := c.safety.(maxAllowedVelocity := v)))
    case MaxAllowedAccel => if v <= 0 then None else Some(c.(safety := c.safety.(maxAllowedAccel := v)))
  }

  datatype Staging = Staged(config: ActuatorConfig) | Refused(field: ConfigField)

  function StageField(c: ActuatorConfig, f: ConfigField, v: int32): Staging {
    match SetField(c, f, v)
    case None => Refused(f)
    case Some(d) => match Validate(d) { case Valid => Staged(d) case Invalid(g) => Refused(g) }
  }

  /** The value a query reports. */
  function FieldValue(c: ActuatorConfig, f: ConfigField): int32 {
    match f
    case TelemetryIntervalMs => c.telemetry.intervalMs
    case SoftLimitsEnabled => if c.motion.softLimitsEnabled then 1 else 0
    case SoftLimitMin => c.motion.softMin
    case SoftLimitMax => c.motion.softMax
    case MaxVelocity => AsI32(c.motion.maxVelocity)
    case MaxAccel => AsI32(c.motion.maxAccel)
    case StopDecel => AsI32(c.motion.stopDecel)
    case RunCurrentMa => c.driver.runCurrentMa
    case HoldCurrentMa => c.driver.holdCurrentMa
    case Microsteps => c.driver.microsteps
    case DriverMode => c.driver.mode
    case PositionOffset => c.calibration.positionOffset
    case HomePosition => c.calibration.homePosition
    case DirectionInverted => if c.calibration.directionInverted then 1 else 0
    case HostTimeoutMs => AsI32(c.safety.hostTimeoutMs)
    case VelocityTimeoutAction => c.safety.timeoutAction
    case EnableTimeoutMs => AsI32(c.safety.enableTimeoutMs)
    case MaxAllowedCurrentMa => c.safety.maxAllowedCurrentMa
    case MaxAllowedVelocity => AsI32(c.safety.maxAllowedVelocity)
    case MaxAllowedAccel => AsI32(c.safety.maxAllowedAccel)
  }

  predicate IsFlag(f: ConfigField) { f.SoftLimitsEnabled? || f.DirectionInverted? }

  /** Everything that no staging can change, with the rest replaced by fixed values. */
  function Unstageable(c: ActuatorConfig): ActuatorConfig {
    ActuatorConfig(
      c.version, c.pins, c.motor,
      c.driver.(runCurrentMa := 0, holdCurrentMa := 0, microsteps := 0, mode := 0),
      MotionLimits(0, 0, c.motion.maxTravel, false, 0, 0, 0),
      c.telemetry.(intervalMs := 0),
      c.calibration.(directionInverted := false),
      SafetyConfig(0, 0, c.safety.enableTimeoutMs, 0, 0, 0))
  }

  /** An accepted stage gives a valid configuration that differs in its field alone, and a query returns the value. */
  lemma StagingIsLocal(c: ActuatorConfig, f: ConfigField, v: int32)
    requires StageField(c, f, v).Staged?
    ensures
      var d := StageField(c, f, v).config;
      && IsValid(d)
      && Unstageable(d) == Unstageable(c)
      && (forall g :: g != f ==> FieldValue(d, g) == FieldValue(c, g))
      && FieldValue(d, f) == if IsFlag(f) then (if v != 0 then 1 else 0) else v
  {
    hide Validate;
    var d := StageField(c, f, v).config;
    forall g | g != f ensures FieldValue(d, g) == FieldValue(c, g) {}
  }

  function Least(a: int, b: int): int { if a < b then a else b }

  function Greatest(a: int, b: int): int { if a < b then b else a }

  /** The values a host may stage for a field, given the other fields as they are. */
  predicate Acceptable(c: ActuatorConfig, f: ConfigField, v: int) {
    match f
    case TelemetryIntervalMs => 0 <= v <= 65535
    case SoftLimitsEnabled => v != 0 ==> c.motion.softMin <= c.motion.softMax
    case SoftLimitMin => c.motion.softLimitsEnabled ==> v <= c.motion.softMax
    case SoftLimitMax => c.motion.softLimitsEnabled ==> c.motion.softMin <= v
    case MaxVelocity => 1 <= v <= c.safety.maxAllowedVelocity
    case MaxAccel | StopDecel => 1 <= v <= c.safety.maxAllowedAccel
    case RunCurrentMa =>
      Greatest(1, c.driver.holdCurrentMa) <= v <= Least(c.safety.maxAllowedCurrentMa, c.motor.maxCurrentMa)
    case HoldCurrentMa => 0 <= v <= c.driver.runCurrentMa
    case Microsteps => v in {1, 2, 4, 8, 16, 32, 64, 128, 256}
    case DriverMode | VelocityTimeoutAction => 0 <= v <= 1
    case PositionOffset | HomePosition | EnableTimeoutMs => false
    case DirectionInverted => true
    case HostTimeoutMs => 100 <= v <= 60000
    case MaxAllowedCurrentMa => c.driver.runCurrentMa as int <= v <= 65535
    case MaxAllowedVelocity => c.motion.maxVelocity <= v
    case MaxAllowedAccel => Greatest(c.motion.maxAccel, c.motion.stopDecel) <= v
  }

  /** From a valid configuration a stage is accepted exactly for those values. */
  lemma StagingBounds(c: ActuatorConfig, f: ConfigField, v: int32)
    requires IsValid(c)
    ensures StageField(c, f, v).Staged? <==> Acceptable(c, f, v)
  {}

  /** What validation asks of the parts that no staging can change. */
  predicate HardwareIsSane(c: ActuatorConfig) {
    c.version == CONFIG_VERSION && c.motor.fullStepsPerRev > 0 && c.motor.gearRatioDen > 0 && c.motor.unitsPerRev > 0
  }

  /** Apart from those, a configuration is valid exactly if each field that is checked holds a value one may stage. */
  lemma ValidExactly(c: ActuatorConfig)
    ensures IsValid(c) <==>
      && HardwareIsSane(c)
      && Acceptable(c, RunCurrentMa, c.driver.runCurrentMa) && Acceptable(c, HoldCurrentMa, c.driver.holdCurrentMa)
      && Acceptable(c, Microsteps, c.driver.microsteps)
      && Acceptable(c, MaxVelocity, c.motion.maxVelocity) && Acceptable(c, MaxAccel, c.motion.maxAccel)
      && Acceptable(c, StopDecel, c.motion.stopDecel) && Acceptable(c, SoftLimitMin, c.motion.softMin)
      && Acceptable(c, HostTimeoutMs, c.safety.hostTimeoutMs)
  {}
}
