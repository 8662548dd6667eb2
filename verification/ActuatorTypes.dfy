/** What the actuator is made of: its state, the backend it drives, and the messages it sends. */
module ActuatorTypes {
  import opened Bytes
  import opened Config
  import opened Protocol
  import opened ConfigStore

  datatype State =
    | Booting | Disabled | Idle | MovingPosition | RunningVelocity | Stopping | Faulted | ConfigStaged | Commissioning

  datatype Mode = ModeDisabled | ModePosition | ModeVelocity | ModeCommissioning

  /** The flags of the 32-bit fault mask, which is modelled as the set of its flags. */
  datatype Fault =
    | RxFrame | CrcFault | PayloadFault | UnsupportedCommand | InvalidConfig | ConfigStorage | SoftLimit | DriverFault
    | DriverUart | HostTimeout

  datatype ErrorCode =
    | Busy | InvalidField | OutOfRange | Unsupported | IsFaulted | BadState | Malformed | DuplicateMismatch | Storage
    | NeedsReboot

  datatype Counters = Counters(
    crcErrors: uint32,
    decodeErrors: uint32,
    dropped: uint32,
    duplicates: uint32,
    commands: uint32,
    rejected: uint32)

  datatype DriverStatus = DriverStatus(configured: bool, uartOk: bool, details: uint32)

  // ----- Messages, without their byte layout and without time stamps -----

  datatype Occurrence =
    | BootReason(reason: uint32)
    | StateChanged(from: State, to: State)
    | FaultSet(fault: Fault, faults: set<Fault>)
    | FaultCleared(previous: set<Fault>)
    | ConfigApplied(generation: uint32)
    | ConfigSaved(generation: uint32)
    | DriverUartFailure(details: uint32)
    | HostTimedOut(action: byte, timeoutMs: uint32)

  datatype StatusReport = StatusReport(
    state: State,
    mode: Mode,
    enabled: bool,
    staged: bool,
    faults: set<Fault>,
    position: int32,
    target: int32,
    speed: int32,
    generation: uint32,
    commands: uint32)

  datatype Message =
    | Ack(request: byte)
    | Error(request: byte, code: ErrorCode)
    | Pong
    | Identity(generation: uint32)
    | Capabilities(hostTimeoutMs: uint32)
    | Status(telemetry: bool, report: StatusReport)
    | FaultReport(faults: set<Fault>)
    | CounterReport(counters: Counters)
    | DriverReport(status: DriverStatus)
    | ConfigValue(field: ConfigField, mutability: Mutability, staged: bool, value: int32)
    | Notice(event: Occurrence)

  datatype Outgoing = Outgoing(number: uint16, message: Message)

  // ----- The backend -----

  /** A callback that is not installed, or what it returns in this step. */
  datatype Answer<+T> = Absent | Returned(value: T) {
    function Or(otherwise: T): T {
      match this case Absent => otherwise case Returned(v) => v
    }
  }

  /** Everything one step of the actuator learns from outside: each callback is consulted at most once in it. */
  datatype Env = Env(
    millis: Answer<uint32>,
    configureDriver: Answer<bool>,
    enableDriver: Answer<bool>,
    moveAbsolute: Answer<bool>,
    moveRelative: Answer<bool>,
    runVelocity: Answer<bool>,
    rampStop: Answer<bool>,
    emergencyStop: Answer<()>,
    position: Answer<int32>,
    targetPosition: Answer<int32>,
    speed: Answer<int32>,
    motionActive: Answer<bool>,
    driverStatus: Answer<DriverStatus>,
    saveConfig: Answer<bool>,
    loadConfig: Answer<Option<Stored>>,
    resetStorage: Answer<bool>,
    reboot: Answer<()>,
    bootReason: Answer<uint32>,
    failedSends: set<nat>)

  function Now(env: Env): uint32 { env.millis.Or(0) }

  /** The backend calls with an effect, in order, each with the result it returned. */
  datatype Call =
    | ConfigureDriver(driver: DriverConfig, ok: bool)
    | EnableDriver(on: bool, ok: bool)
    | MoveAbsolute(target: int32, velocity: uint32, accel: uint32, ok: bool)
    | MoveRelative(delta: int32, velocity: uint32, accel: uint32, ok: bool)
    | RunVelocity(speed: int32, accel: uint32, ok: bool)
    | RampStop(decel: uint32, ok: bool)
    | EmergencyStop
    | SaveConfig(config: ActuatorConfig, ok: bool)
    | ResetStorage(ok: bool)
    | RebootCall
  {
    predicate IsMotion() { MoveAbsolute? || MoveRelative? || RunVelocity? }
  }

  // ----- The actuator -----

  datatype Settings = Settings(
    defaults: ActuatorConfig,
    active: ActuatorConfig,
    staged: ActuatorConfig,
    isStaged: bool,
    generation: uint32)

  datatype Drive = Drive(state: State, mode: Mode, enabled: bool) {
    predicate InMotion() { state == MovingPosition || state == RunningVelocity || state == Stopping }
  }

  /** The duplicate cache: the last request, and the responses it got. */
  datatype Cache = Cache(request: Option<Packet>, responses: seq<Outgoing>)

  datatype Core = Core(
    settings: Settings,
    drive: Drive,
    faults: set<Fault>,
    counters: Counters,
    bootEventPending: bool,
    bootReason: uint32,
    lastHostMs: uint32,
    lastTelemetryMs: uint32,
    cache: Cache)

  /**
    A step in progress: the actuator, the backend calls made, the packets handed to the serial writer, and those of
    them that went through the caching writer.
   */
  datatype Work = Work(core: Core, calls: seq<Call>, sent: seq<Outgoing>, responses: seq<Outgoing>)

  const CACHE_SIZE := 4

  /** The responses the caching writer has room for. */
  function Cached(responses: seq<Outgoing>): seq<Outgoing> {
    if |responses| <= CACHE_SIZE then responses else responses[..CACHE_SIZE]
  }

  /** The writer an event goes to: none, the serial port itself, or the caching one in front of it. */
  datatype Writer = NoWriter | Direct | Caching

  // ----- Message identifiers -----

  const PING: byte := 0x01
  const GET_IDENTITY: byte := 0x03
  const GET_CAPABILITIES: byte := 0x05
  const GET_STATUS: byte := 0x07
  const GET_FAULTS: byte := 0x09
  const GET_COUNTERS: byte := 0x0B
  const HEARTBEAT: byte := 0x0D
  const SET_CONTROL_MODE: byte := 0x10
  const ESTOP: byte := 0x11
  const RAMP_STOP: byte := 0x12
  const CLEAR_FAULTS: byte := 0x13
  const CONFIG_QUERY: byte := 0x20
  const CONFIG_STAGE_FIELD: byte := 0x22
  const CONFIG_APPLY: byte := 0x23
  const CONFIG_SAVE: byte := 0x24
  const CONFIG_RESET_DEFAULTS: byte := 0x25
  const REBOOT: byte := 0x26
  const GET_DRIVER_STATUS: byte := 0x30
  const MOVE_ABS: byte := 0x40
  const MOVE_REL: byte := 0x41
  const RUN_VEL: byte := 0x42
  const SET_TELEM_RATE: byte := 0x50
}
