/**
  What each step of `actuator.cpp` does, as a function of the actuator before it and of what the backend answers. The
  class in ActuatorClass.dfy performs these steps on its fields.
 */
module ActuatorSteps {
  import opened Bytes
  import opened Config
  import opened Protocol
  import opened ConfigStore
  import opened ActuatorTypes

  // ----- Setting fields -----

  function WithState(w: Work, s: State): Work { w.(core := w.core.(drive := w.core.drive.(state := s))) }

  function WithMode(w: Work, m: Mode): Work { w.(core := w.core.(drive := w.core.drive.(mode := m))) }

  function WithEnabled(w: Work, on: bool): Work { w.(core := w.core.(drive := w.core.drive.(enabled := on))) }

  function WithSettings(w: Work, s: Settings): Work { w.(core := w.core.(settings := s)) }

  // ----- Sending, faults and transitions -----

  predicate Ends(w: Work, number: uint16, m: Message) {
    w.sent != [] && w.sent[|w.sent| - 1] == Outgoing(number, m)
  }

  function Send(w: Work, env: Env, via: Writer, number: uint16, m: Message): (w': Work)
    ensures w'.core == w.core.(counters := w'.core.counters) && w'.calls == w.calls
    ensures w'.core.counters == w.core.counters.(dropped := w'.core.counters.dropped)
    ensures |w'.responses| <= |w.responses| + if via == Caching then 1 else 0
    ensures via != NoWriter ==> Ends(w', number, m)
  {
    if via == NoWriter then w
    else
      var failed := if |w.sent| in env.failedSends then 1 else 0;
      w.(core := w.core.(counters := w.core.counters.(dropped := Add32(w.core.counters.dropped, failed))),
         sent := w.sent + [Outgoing(number, m)],
         responses := if via == Caching then w.responses + [Outgoing(number, m)] else w.responses)
  }

  function Notify(w: Work, env: Env, via: Writer, number: uint16, e: Occurrence): (w': Work)
    ensures w'.core == w.core.(counters := w'.core.counters) && w'.calls == w.calls
    ensures |w'.responses| <= |w.responses| + if via == Caching then 1 else 0
  {
    Send(w, env, via, number, Notice(e))
  }

  function TransitionTo(w: Work, env: Env, s: State, via: Writer): (w': Work)
    ensures w'.core == w.core.(drive := w.core.drive.(state := s), counters := w'.core.counters) && w'.calls == w.calls
    ensures |w'.responses| <= |w.responses| + if via == Caching then 1 else 0
  {
    if w.core.drive.state == s then w
    else Notify(WithState(w, s), env, via, 0, StateChanged(w.core.drive.state, s))
  }

  predicate Halts(f: Fault) { f != HostTimeout && f != SoftLimit }

  function SetFault(w: Work, env: Env, f: Fault, via: Writer): (w': Work)
    ensures w'.core == w.core.(
      faults := w.core.faults + {f},
      drive := w.core.drive.(state := if Halts(f) then Faulted else w.core.drive.state),
      counters := w'.core.counters)
    ensures w'.calls == w.calls
    ensures |w'.responses| <= |w.responses| + if via == Caching then 2 else 0
  {
    var raised := w.(core := w.core.(faults := w.core.faults + {f}));
    var told := if f in w.core.faults then raised else Notify(raised, env, via, 0, FaultSet(f, raised.core.faults));
    if Halts(f) then TransitionTo(told, env, Faulted, via) else told
  }

  function Acknowledge(w: Work, env: Env, r: Packet): (w': Work)
    ensures w'.core == w.core.(counters := w'.core.counters) && w'.calls == w.calls
    ensures |w'.responses| <= |w.responses| + 1
    ensures Ends(w', r.number, Ack(r.msgId))
  {
    Send(w, env, Caching, r.number, Ack(r.msgId))
  }

  function Reject(w: Work, env: Env, r: Packet, code: ErrorCode): (w': Work)
    ensures w'.core == w.core.(counters := w'.core.counters) && w'.calls == w.calls
    ensures |w'.responses| <= |w.responses| + 1
    ensures Ends(w', r.number, Error(r.msgId, code))
  {
    RejectVia(w, env, Caching, r, code)
  }

  function RejectVia(w: Work, env: Env, via: Writer, r: Packet, code: ErrorCode): (w': Work)
    ensures w'.core == w.core.(counters := w'.core.counters) && w'.calls == w.calls
    ensures |w'.responses| <= |w.responses| + 1
    ensures via != NoWriter ==> Ends(w', r.number, Error(r.msgId, code))
  {
    var counted := w.core.counters.(rejected := Add32(w.core.counters.rejected, 1));
    Send(w.(core := w.core.(counters := counted)), env, via, r.number, Error(r.msgId, code))
  }

  /** A command changes the settings, the drive, the faults and the counters, and nothing else of the actuator. */
  predicate Framed(c: Core, c': Core) {
    c' == c.(settings := c'.settings, drive := c'.drive, faults := c'.faults, counters := c'.counters)
  }

  /** A backend call that is made if its callback is installed. */
  function Do<T>(w: Work, answer: Answer<T>, call: Call): Work {
    if answer.Absent? then w else w.(calls := w.calls + [call])
  }

  // ----- Logical and backend units -----

  function ToBackend(c: ActuatorConfig, logical: int32): Option<int32> {
    if !c.calibration.directionInverted then Some(logical)
    else if logical == INT32_MIN then None
    else Some(-logical)
  }

  function FromBackend(c: ActuatorConfig, v: int32): int32 {
    if !c.calibration.directionInverted then v
    else if v == INT32_MIN then INT32_MAX
    else -v
  }

  function LogicalPosition(c: ActuatorConfig, env: Env): int32 { FromBackend(c, env.position.Or(0)) }

  predicate SoftLimitViolation(c: ActuatorConfig, target: int32) {
    c.motion.softLimitsEnabled && (target < c.motion.softMin || target > c.motion.softMax)
  }

  predicate WithinLimits(c: ActuatorConfig, velocity: int, accel: uint32) {
    && velocity != 0 && accel != 0
    && velocity <= c.safety.maxAllowedVelocity && accel <= c.safety.maxAllowedAccel
    && velocity <= c.motion.maxVelocity && accel <= c.motion.maxAccel
  }

  /** Why a motion in the given mode may not start now, if it may not. */
  function MotionRefusal(c: Core, requested: Mode): Option<ErrorCode> {
    if c.drive.state == Faulted then Some(IsFaulted)
    else if !c.drive.enabled then Some(BadState)
    else if c.settings.isStaged then Some(BadState)
    else if requested == ModePosition && c.drive.state == RunningVelocity then Some(Busy)
    else if requested == ModeVelocity && c.drive.state == MovingPosition then Some(Busy)
    else if c.drive.state == Stopping then Some(Busy)
    else None
  }

  // ----- Queries -----

  function Report(c: Core, env: Env, telemetry: bool): Message {
    Status(telemetry, StatusReport(
      c.drive.state, c.drive.mode, c.drive.enabled, c.settings.isStaged, c.faults,
      LogicalPosition(c.settings.active, env),
      FromBackend(c.settings.active, env.targetPosition.Or(0)),
      FromBackend(c.settings.active, env.speed.Or(0)),
      c.settings.generation, c.counters.commands))
  }

  const NO_STATUS := DriverStatus(false, false, 0)

  function ReportDriver(w: Work, env: Env, r: Packet): (w': Work)
    ensures Framed(w.core, w'.core) && |w'.responses| <= |w.responses| + CACHE_SIZE
  {
    var status := env.driverStatus.Or(NO_STATUS);
    var told :=
      if status.configured && !status.uartOk then
        Notify(SetFault(w, env, DriverUart, Caching), env, Caching, r.number, DriverUartFailure(status.details))
      else w;
    Send(told, env, Caching, r.number, DriverReport(status))
  }

  function ReportField(w: Work, env: Env, r: Packet): (w': Work)
    ensures Framed(w.core, w'.core) && |w'.responses| <= |w.responses| + CACHE_SIZE
  {
    if |r.payload| != 2 then Reject(w, env, r, Malformed)
    else match FieldOf(U16At(r.payload, 0))
      case None => Reject(w, env, r, InvalidField)
      case Some(f) =>
        Send(w, env, Caching, r.number,
             ConfigValue(f, FieldMutability(f), w.core.settings.isStaged, FieldValue(w.core.settings.active, f)))
  }

  // ----- Control -----

  function ModeOf(b: byte): Mode
    requires b <= 3
  {
    match b case 0 => ModeDisabled case 1 => ModePosition case 2 => ModeVelocity case _ => ModeCommissioning
  }

  function SetControlMode(w: Work, env: Env, r: Packet): (w': Work)
    ensures Framed(w.core, w'.core) && |w'.responses| <= |w.responses| + CACHE_SIZE
  {
    if |r.payload| != 1 then Reject(w, env, r, Malformed)
    else if r.payload[0] > 3 then Reject(w, env, r, OutOfRange)
    else if w.core.drive.state == Faulted && r.payload[0] != 0 then Reject(w, env, r, IsFaulted)
    else if w.core.drive.InMotion() then Reject(w, env, r, Busy)
    else
      var mode := ModeOf(r.payload[0]);
      var chosen := WithMode(w, mode);
      if mode == ModeDisabled then TurnOff(chosen, env, r) else EnableInMode(chosen, env, r)
  }

  function TurnOff(w: Work, env: Env, r: Packet): (w': Work)
    ensures Framed(w.core, w'.core) && |w'.responses| <= |w.responses| + CACHE_SIZE
  {
    var off := Do(w, env.enableDriver, EnableDriver(false, env.enableDriver.Or(true)));
    Acknowledge(TransitionTo(WithEnabled(off, false), env, Disabled, Direct), env, r)
  }

  /** Configures and enables the driver for a mode that moves. */
  function EnableInMode(w: Work, env: Env, r: Packet): (w': Work)
    ensures Framed(w.core, w'.core) && |w'.responses| <= |w.responses| + CACHE_SIZE
  {
    var configured := Do(w, env.configureDriver,
                         ConfigureDriver(w.core.settings.active.driver, env.configureDriver.Or(true)));
    if !env.configureDriver.Or(true) then
      Reject(SetFault(configured, env, DriverFault, Direct), env, r, BadState)
    else
      var on := Do(configured, env.enableDriver, EnableDriver(true, env.enableDriver.Or(true)));
      if !env.enableDriver.Or(true) then Reject(SetFault(on, env, DriverFault, Direct), env, r, BadState)
      else
        var target := if w.core.drive.mode == ModeCommissioning then Commissioning else Idle;
        Acknowledge(TransitionTo(WithEnabled(on, true), env, target, Direct), env, r)
  }

  function StopAndDisable(w: Work, env: Env): Work {
    var stopped := Do(w, env.emergencyStop, EmergencyStop);
    var off := Do(stopped, env.enableDriver, EnableDriver(false, env.enableDriver.Or(true)));
    WithMode(WithEnabled(off, false), ModeDisabled)
  }

  function EmergencyStopNow(w: Work, env: Env, r: Packet): (w': Work)
    ensures Framed(w.core, w'.core) && |w'.responses| <= |w.responses| + CACHE_SIZE
  {
    Acknowledge(TransitionTo(StopAndDisable(w, env), env, Faulted, Direct), env, r)
  }

  function RampStopNow(w: Work, env: Env, r: Packet): (w': Work)
    ensures Framed(w.core, w'.core) && |w'.responses| <= |w.responses| + CACHE_SIZE
  {
    if |r.payload| != 4 then Reject(w, env, r, Malformed)
    else if !w.core.drive.InMotion() && !env.motionActive.Or(false) then Acknowledge(w, env, r)
    else
      var ok := env.rampStop.Or(false);
      var called := Do(w, env.rampStop, RampStop(U32At(r.payload, 0), ok));
      if !ok then Reject(SetFault(called, env, DriverFault, Direct), env, r, BadState)
      else
        var stopping := TransitionTo(called, env, Stopping, Direct);
        Acknowledge(WithMode(stopping, ModePosition), env, r)
  }

  function ClearFaults(w: Work, env: Env, r: Packet): (w': Work)
    ensures Framed(w.core, w'.core) && |w'.responses| <= |w.responses| + CACHE_SIZE
  {
    var previous := w.core.faults;
    var cleared := w.(core := w.core.(faults := {}));
    var told := if previous == {} then cleared else Notify(cleared, env, Direct, r.number, FaultCleared(previous));
    var settled :=
      if !w.core.drive.enabled then
        var off := TransitionTo(told, env, Disabled, Direct);
        WithMode(off, ModeDisabled)
      else TransitionTo(told, env, Idle, Direct);
    Acknowledge(settled, env, r)
  }

  // ----- Configuration -----

  /** The error a stage request meets, or the configuration it stages. */
  datatype StageOutcome = StageRefused(code: ErrorCode) | StageAccepted(config: ActuatorConfig)

  function StageRequest(c: Core, r: Packet): StageOutcome {
    if |r.payload| != 6 then StageRefused(Malformed)
    else match FieldOf(U16At(r.payload, 0))
      case None => StageRefused(InvalidField)
      case Some(f) =>
        var mutability := FieldMutability(f);
        if mutability == CompileTimeOnly || mutability == Reserved then StageRefused(Unsupported)
        else if mutability == RequiresReboot then StageRefused(NeedsReboot)
        else match StageField(if c.settings.isStaged then c.settings.staged else c.settings.active, f,
                              I32At(r.payload, 2))
          case Refused(_) => StageRefused(OutOfRange)
          case Staged(config) => StageAccepted(config)
  }

  /** Holds a staged configuration; the state says so unless the actuator is in motion. */
  function Held(w: Work, env: Env, config: ActuatorConfig): (w': Work)
    ensures Framed(w.core, w'.core) && |w'.responses| <= |w.responses|
  {
    var held := WithSettings(w, w.core.settings.(staged := config, isStaged := true));
    if w.core.drive.InMotion() then held else TransitionTo(held, env, ConfigStaged, Direct)
  }

  function Stage(w: Work, env: Env, r: Packet): (w': Work)
    ensures Framed(w.core, w'.core) && |w'.responses| <= |w.responses| + CACHE_SIZE
  {
    match StageRequest(w.core, r)
    case StageRefused(code) => Reject(w, env, r, code)
    case StageAccepted(config) => Acknowledge(Held(w, env, config), env, r)
  }

  predicate DriverChanged(c: Core) {
    || c.settings.staged.driver.runCurrentMa != c.settings.active.driver.runCurrentMa
    || c.settings.staged.driver.holdCurrentMa != c.settings.active.driver.holdCurrentMa
    || c.settings.staged.driver.microsteps != c.settings.active.driver.microsteps
    || c.settings.staged.driver.mode != c.settings.active.driver.mode
  }

  function ApplyStaged(w: Work, env: Env, r: Packet): (w': Work)
    ensures Framed(w.core, w'.core) && |w'.responses| <= |w.responses| + CACHE_SIZE
  {
    if !w.core.settings.isStaged then Acknowledge(w, env, r)
    else if w.core.drive.InMotion() then Reject(w, env, r, Busy)
    else if !IsValid(w.core.settings.staged) then
      Reject(SetFault(w, env, InvalidConfig, Direct), env, r, OutOfRange)
    else
      var ok := !DriverChanged(w.core) || env.configureDriver.Or(true);
      var called :=
        if DriverChanged(w.core) then
          Do(w, env.configureDriver, ConfigureDriver(w.core.settings.staged.driver, env.configureDriver.Or(true)))
        else w;
      if !ok then Reject(SetFault(called, env, DriverFault, Direct), env, r, BadState)
      else Adopt(called, env, r)
  }

  /** The staged configuration becomes the active one. */
  function Adopt(w: Work, env: Env, r: Packet): (w': Work)
    ensures Framed(w.core, w'.core) && |w'.responses| <= |w.responses| + CACHE_SIZE
  {
    var applied := WithSettings(w, w.core.settings.(active := w.core.settings.staged, isStaged := false));
    var settled := TransitionTo(applied, env, if w.core.drive.enabled then Idle else Disabled, Direct);
    Acknowledge(Notify(settled, env, Direct, 0, ConfigApplied(w.core.settings.generation)), env, r)
  }

  function SaveActive(w: Work, env: Env, r: Packet): (w': Work)
    ensures Framed(w.core, w'.core) && |w'.responses| <= |w.responses| + CACHE_SIZE
  {
    var ok := env.saveConfig.Or(false);
    var called := Do(w, env.saveConfig, SaveConfig(w.core.settings.active, ok));
    if !ok then Reject(SetFault(called, env, ConfigStorage, Direct), env, r, Storage)
    else
      var counted := WithSettings(called, w.core.settings.(generation := Add32(w.core.settings.generation, 1)));
      Acknowledge(Notify(counted, env, Direct, r.number, ConfigSaved(counted.core.settings.generation)), env, r)
  }

  function ResetDefaults(w: Work, env: Env, r: Packet): (w': Work)
    ensures Framed(w.core, w'.core) && |w'.responses| <= |w.responses| + CACHE_SIZE
  {
    if w.core.drive.InMotion() then Reject(w, env, r, Busy)
    else
      var back := WithSettings(w, w.core.settings.(active := w.core.settings.defaults,
                                                   staged := w.core.settings.defaults, isStaged := false));
      var configured := Do(back, env.configureDriver,
                           ConfigureDriver(back.core.settings.active.driver, env.configureDriver.Or(true)));
      if !env.configureDriver.Or(true) then
        Reject(SetFault(configured, env, DriverFault, Direct), env, r, BadState)
      else
        var erased := Do(configured, env.resetStorage, ResetStorage(env.resetStorage.Or(true)));
        if !env.resetStorage.Or(true) then
          Reject(SetFault(erased, env, ConfigStorage, Direct), env, r, Storage)
        else
          Acknowledge(Notify(erased, env, Direct, r.number, ConfigApplied(w.core.settings.generation)), env, r)
  }

  function SetTelemetryRate(w: Work, env: Env, r: Packet): (w': Work)
    ensures Framed(w.core, w'.core) && |w'.responses| <= |w.responses| + CACHE_SIZE
  {
    if |r.payload| != 2 then Reject(w, env, r, Malformed)
    else
      var rate := U16At(r.payload, 0);
      var active := w.core.settings.active.(telemetry := w.core.settings.active.telemetry.(intervalMs := rate));
      var staged :=
        if w.core.settings.isStaged then
          w.core.settings.staged.(telemetry := w.core.settings.staged.telemetry.(intervalMs := rate))
        else active;
      Acknowledge(WithSettings(w, w.core.settings.(active := active, staged := staged)), env, r)
  }

  // ----- Motion -----

  /** The end of a move call: a refused call faults the driver, an accepted one moves the state machine. */
  function Started(called: Work, env: Env, r: Packet, ok: bool, s: State, mode: Mode): (w': Work)
    ensures Framed(called.core, w'.core) && |w'.responses| <= |called.responses| + CACHE_SIZE
  {
    if !ok then Reject(SetFault(called, env, DriverFault, Direct), env, r, BadState)
    else
      var moving := TransitionTo(called, env, s, Direct);
      Acknowledge(WithMode(moving, mode), env, r)
  }

  function MoveAbs(w: Work, env: Env, r: Packet): (w': Work)
    ensures Framed(w.core, w'.core) && |w'.responses| <= |w.responses| + CACHE_SIZE
  {
    if |r.payload| != 12 then Reject(w, env, r, Malformed)
    else if MotionRefusal(w.core, ModePosition).Some? then Reject(w, env, r, MotionRefusal(w.core, ModePosition).value)
    else
      var target, velocity, accel := I32At(r.payload, 0), U32At(r.payload, 4), U32At(r.payload, 8);
      if !WithinLimits(w.core.settings.active, velocity, accel) then Reject(w, env, r, OutOfRange)
      else if SoftLimitViolation(w.core.settings.active, target) then
        Reject(SetFault(w, env, SoftLimit, Direct), env, r, OutOfRange)
      else match ToBackend(w.core.settings.active, target)
        case None => Reject(w, env, r, OutOfRange)
        case Some(backendTarget) =>
          var ok := env.moveAbsolute.Or(false);
          Started(Do(w, env.moveAbsolute, MoveAbsolute(backendTarget, velocity, accel, ok)), env, r, ok,
                  MovingPosition, ModePosition)
  }

  function MoveRel(w: Work, env: Env, r: Packet): (w': Work)
    ensures Framed(w.core, w'.core) && |w'.responses| <= |w.responses| + CACHE_SIZE
  {
    if |r.payload| != 12 then Reject(w, env, r, Malformed)
    else if MotionRefusal(w.core, ModePosition).Some? then Reject(w, env, r, MotionRefusal(w.core, ModePosition).value)
    else
      var delta, velocity, accel := I32At(r.payload, 0), U32At(r.payload, 4), U32At(r.payload, 8);
      var target: int := LogicalPosition(w.core.settings.active, env) as int + delta as int;
      if !(INT32_MIN <= target <= INT32_MAX) || !WithinLimits(w.core.settings.active, velocity, accel) then
        Reject(w, env, r, OutOfRange)
      else if SoftLimitViolation(w.core.settings.active, target) then
        Reject(SetFault(w, env, SoftLimit, Direct), env, r, OutOfRange)
      else match ToBackend(w.core.settings.active, delta)
        case None => Reject(w, env, r, OutOfRange)
        case Some(backendDelta) =>
          var ok := env.moveRelative.Or(false);
          Started(Do(w, env.moveRelative, MoveRelative(backendDelta, velocity, accel, ok)), env, r, ok,
                  MovingPosition, ModePosition)
  }

  function Magnitude(v: int32): nat { if v < 0 then -(v as int) else v }

  function RunVel(w: Work, env: Env, r: Packet): (w': Work)
    ensures Framed(w.core, w'.core) && |w'.responses| <= |w.responses| + CACHE_SIZE
  {
    if |r.payload| != 8 then Reject(w, env, r, Malformed)
    else if MotionRefusal(w.core, ModeVelocity).Some? then Reject(w, env, r, MotionRefusal(w.core, ModeVelocity).value)
    else
      var velocity, accel := I32At(r.payload, 0), U32At(r.payload, 4);
      if !WithinLimits(w.core.settings.active, Magnitude(velocity), accel) then Reject(w, env, r, OutOfRange)
      else match ToBackend(w.core.settings.active, velocity)
        case None => Reject(w, env, r, OutOfRange)
        case Some(backendVelocity) =>
          var ok := env.runVelocity.Or(false);
          Started(Do(w, env.runVelocity, RunVelocity(backendVelocity, accel, ok)), env, r, ok,
                  RunningVelocity, ModeVelocity)
  }

  // ----- Dispatch -----

  predicate TakesNoPayload(msgId: byte) {
    || msgId == PING || msgId == GET_IDENTITY || msgId == GET_CAPABILITIES || msgId == GET_STATUS || msgId == GET_FAULTS
    || msgId == GET_COUNTERS || msgId == HEARTBEAT || msgId == ESTOP || msgId == CLEAR_FAULTS || msgId == CONFIG_APPLY
    || msgId == CONFIG_SAVE || msgId == CONFIG_RESET_DEFAULTS || msgId == REBOOT || msgId == GET_DRIVER_STATUS
  }

  function Dispatch(w: Work, env: Env, r: Packet): (w': Work)
    ensures Framed(w.core, w'.core) && |w'.responses| <= |w.responses| + CACHE_SIZE
  {
    if TakesNoPayload(r.msgId) && r.payload != [] then Reject(w, env, r, Malformed)
    else if r.msgId < SET_CONTROL_MODE || r.msgId == GET_DRIVER_STATUS then Inquire(w, env, r)
    else if r.msgId == SET_CONTROL_MODE then SetControlMode(w, env, r)
    else if r.msgId == ESTOP then EmergencyStopNow(w, env, r)
    else if r.msgId == RAMP_STOP then RampStopNow(w, env, r)
    else if r.msgId == CLEAR_FAULTS then ClearFaults(w, env, r)
    else if r.msgId == CONFIG_QUERY then ReportField(w, env, r)
    else if r.msgId == CONFIG_STAGE_FIELD then Stage(w, env, r)
    else if r.msgId == CONFIG_APPLY then ApplyStaged(w, env, r)
    else if r.msgId == CONFIG_SAVE then SaveActive(w, env, r)
    else if r.msgId == CONFIG_RESET_DEFAULTS then ResetDefaults(w, env, r)
    else if r.msgId == REBOOT then RebootNow(w, env, r)
    else if r.msgId == MOVE_ABS then MoveAbs(w, env, r)
    else if r.msgId == MOVE_REL then MoveRel(w, env, r)
    else if r.msgId == RUN_VEL then RunVel(w, env, r)
    else if r.msgId == SET_TELEM_RATE then SetTelemetryRate(w, env, r)
    else Unknown(w, env, r)
  }

  function RebootNow(w: Work, env: Env, r: Packet): (w': Work)
    ensures Framed(w.core, w'.core) && |w'.responses| <= |w.responses| + CACHE_SIZE
  {
    Do(Acknowledge(w, env, r), env.reboot, RebootCall)
  }

  function Unknown(w: Work, env: Env, r: Packet): (w': Work)
    ensures Framed(w.core, w'.core) && |w'.responses| <= |w.responses| + CACHE_SIZE
  {
    Reject(SetFault(w, env, UnsupportedCommand, Direct), env, r, Unsupported)
  }

  function Inquire(w: Work, env: Env, r: Packet): (w': Work)
    ensures Framed(w.core, w'.core) && |w'.responses| <= |w.responses| + CACHE_SIZE
  {
    if r.msgId == PING then Send(Acknowledge(w, env, r), env, Caching, r.number, Pong)
    else if r.msgId == GET_IDENTITY then Send(w, env, Caching, r.number, Identity(w.core.settings.generation))
    else if r.msgId == GET_CAPABILITIES then
      Send(w, env, Caching, r.number, Capabilities(w.core.settings.active.safety.hostTimeoutMs))
    else if r.msgId == GET_STATUS then Send(w, env, Caching, r.number, Report(w.core, env, false))
    else if r.msgId == GET_FAULTS then Send(w, env, Caching, r.number, FaultReport(w.core.faults))
    else if r.msgId == GET_COUNTERS then Send(w, env, Caching, r.number, CounterReport(w.core.counters))
    else if r.msgId == HEARTBEAT then Acknowledge(w, env, r)
    else if r.msgId == GET_DRIVER_STATUS then ReportDriver(w, env, r)
    else Unknown(w, env, r)
  }

  // ----- The steps -----

  predicate IsRepeat(c: Core, r: Packet) {
    c.cache.request.Some? && r.number == c.cache.request.value.number && r.msgId == c.cache.request.value.msgId
  }

  function SendAll(w: Work, env: Env, via: Writer, messages: seq<Outgoing>): (w': Work)
    ensures w'.core == w.core.(counters := w'.core.counters) && w'.calls == w.calls
    ensures w'.core.counters == w.core.counters.(dropped := w'.core.counters.dropped)
    decreases |messages|
  {
    if messages == [] then w
    else
      var before := SendAll(w, env, via, messages[..|messages| - 1]);
      var last := messages[|messages| - 1];
      Send(before, env, via, last.number, last.message)
  }

  lemma {:induction false} SendAllSends(w: Work, env: Env, messages: seq<Outgoing>)
    ensures SendAll(w, env, Direct, messages).sent == w.sent + messages
    decreases |messages|
  {
    if messages != [] {
      SendAllSends(w, env, messages[..|messages| - 1]);
      assert messages == messages[..|messages| - 1] + [messages[|messages| - 1]];
    }
  }

  function Start(c: Core): Work { Work(c, [], [], []) }

  function HandlePacket(c: Core, env: Env, r: Packet): Work {
    if IsRepeat(c, r) then
      var seen := c.(lastHostMs := Now(env), counters := c.counters.(duplicates := Add32(c.counters.duplicates, 1)));
      if r == c.cache.request.value then SendAll(Start(seen), env, Direct, c.cache.responses)
      else RejectVia(Start(seen), env, Direct, r, DuplicateMismatch)
    else
      var seen := c.(lastHostMs := Now(env), counters := c.counters.(commands := Add32(c.counters.commands, 1)));
      var done := Dispatch(Start(seen), env, r);
      done.(core := done.core.(cache := Cache(Some(r), Cached(done.responses))))
  }

  function AnnounceBoot(w: Work, env: Env, via: Writer): (w': Work)
    ensures w'.core == w.core.(bootEventPending := w'.core.bootEventPending, counters := w'.core.counters)
    ensures w'.calls == w.calls
  {
    if w.core.bootEventPending && via != NoWriter then
      var told := Notify(w, env, via, 0, BootReason(w.core.bootReason));
      told.(core := told.core.(bootEventPending := false))
    else w
  }

  function FinishMotion(w: Work, env: Env, via: Writer): (w': Work)
    ensures w'.core == w.core.(drive := w'.core.drive, counters := w'.core.counters) && w'.calls == w.calls
    ensures w'.core.drive.enabled == w.core.drive.enabled
    ensures w.core.drive.state == RunningVelocity || w.core.drive.state == Faulted ==> w'.core.drive == w.core.drive
    ensures w'.core.drive.state == RunningVelocity ==> w.core.drive.state == RunningVelocity
  {
    if (w.core.drive.state == MovingPosition || w.core.drive.state == Stopping)
        && env.motionActive == Returned(false) then
      var settled := TransitionTo(w, env, if w.core.drive.enabled then Idle else Disabled, via);
      WithMode(settled, if w.core.drive.enabled then ModePosition else ModeDisabled)
    else w
  }

  predicate TimedOut(c: Core, now: uint32) {
    && c.drive.state == RunningVelocity
    && c.settings.active.safety.hostTimeoutMs > 0
    && Sub32(now, c.lastHostMs) > c.settings.active.safety.hostTimeoutMs
  }

  function CheckHost(w: Work, env: Env, via: Writer): (w': Work)
    ensures w'.core == w.core.(drive := w'.core.drive, faults := w'.core.faults, counters := w'.core.counters)
  {
    if TimedOut(w.core, Now(env)) then
      var safety := w.core.settings.active.safety;
      var faulted := SetFault(w, env, HostTimeout, via);
      var told := Notify(faulted, env, via, 0, HostTimedOut(safety.timeoutAction, safety.hostTimeoutMs));
      if safety.timeoutAction == ACTION_DISABLE then TransitionTo(StopAndDisable(told, env), env, Faulted, via)
      else
        var decel := w.core.settings.active.motion.stopDecel;
        var called := Do(told, env.rampStop, RampStop(decel, env.rampStop.Or(true)));
        var stopping := TransitionTo(called, env, Stopping, via);
        WithMode(stopping, ModePosition)
    else w
  }

  function Update(c: Core, env: Env, via: Writer): Work {
    CheckHost(FinishMotion(AnnounceBoot(Start(c), env, via), env, via), env, via)
  }

  function RecordFrameError(c: Core, env: Env, error: FrameError): Work {
    var counted := c.counters.(
      decodeErrors := Add32(c.counters.decodeErrors, 1),
      crcErrors := if error == BadCrc then Add32(c.counters.crcErrors, 1) else c.counters.crcErrors);
    var fault := match error { case BadCrc => CrcFault case BadPayload => PayloadFault case BadVersion => RxFrame };
    SetFault(Start(c.(counters := counted)), env, fault, NoWriter)
  }

  predicate TelemetryDue(c: Core, now: uint32) {
    && c.settings.active.telemetry.binaryStreamEnabled
    && c.settings.active.telemetry.intervalMs != 0
    && Sub32(now, c.lastTelemetryMs) >= c.settings.active.telemetry.intervalMs
  }

  function SendTelemetry(c: Core, env: Env, number: uint16): Work {
    var told := Send(Start(c), env, Direct, number, Report(c, env, true));
    told.(core := told.core.(lastTelemetryMs := Now(env)))
  }

  const ZERO_COUNTERS := Counters(0, 0, 0, 0, 0, 0)

  function Fresh(defaults: ActuatorConfig, env: Env): Core {
    Core(Settings(defaults, defaults, defaults, false, 0), Drive(Booting, ModeDisabled, false), {}, ZERO_COUNTERS, true,
         env.bootReason.Or(0), Now(env), Now(env), Cache(None, []))
  }

  function LoadStored(w: Work, env: Env): Work {
    match env.loadConfig.Or(None)
    case None => w
    case Some(stored) =>
      if IsValid(stored.config) then
        WithSettings(w, w.core.settings.(active := stored.config, staged := stored.config,
                                         generation := stored.generation))
      else SetFault(w, env, InvalidConfig, NoWriter)
  }

  function PowerUp(w: Work, env: Env): Work {
    var configured := Do(w, env.configureDriver,
                         ConfigureDriver(w.core.settings.active.driver, env.configureDriver.Or(true)));
    if !env.configureDriver.Or(true) then
      TransitionTo(SetFault(configured, env, DriverFault, NoWriter), env, Faulted, NoWriter)
    else
      TransitionTo(Do(configured, env.enableDriver, EnableDriver(false, env.enableDriver.Or(true))), env, Disabled,
                   NoWriter)
  }

  function Begin(defaults: ActuatorConfig, env: Env): Work {
    PowerUp(LoadStored(Start(Fresh(defaults, env)), env), env)
  }

  /** The calls that the firmware's main loop makes, and a restart. */
  datatype Action =
    | Handle(request: Packet)
    | Tick(writer: bool)
    | FrameFailed(error: FrameError)
    | Telemetry(number: uint16)
    | Restart

  function Step(c: Core, env: Env, a: Action): Work {
    match a
    case Handle(r) => HandlePacket(c, env, r)
    case Tick(writer) => Update(c, env, if writer then Direct else NoWriter)
    case FrameFailed(error) => RecordFrameError(c, env, error)
    case Telemetry(number) => SendTelemetry(c, env, number)
    case Restart => Begin(c.settings.defaults, env)
  }
}
