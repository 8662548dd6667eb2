/**
  The class of `actuator.cpp`, on its own fields. Every method is proved against the step of ActuatorSteps.dfy that it
  performs, so what the other files prove of those steps holds of these methods.
 */
module ActuatorClass {
  import opened Bytes
  import opened Config
  import opened Protocol
  import opened ConfigStore
  import opened ActuatorTypes
  import Steps = ActuatorSteps
  import Invariant = ActuatorInvariant
  import Safety = ActuatorSafety

  lemma AddNothing(x: uint32)
    ensures Add32(x, 0) == x
  {}

  // ----- What the entry points keep -----

  /** A step keeps the invariant, and every motion call it makes is in bounds. */
  ghost predicate Keeps(c: Core, env: Env, w: Work) {
    && (Invariant.Invariant(c) ==> Invariant.Invariant(w.core))
    && Safety.AllInBounds(c, env, w.calls)
  }

  lemma StepKeeps(c: Core, env: Env, a: Steps.Action)
    ensures Keeps(c, env, Steps.Step(c, env, a))
  {
    hide Steps.Step, Invariant.Invariant, Safety.AllInBounds;
    if Invariant.Invariant(c) {
      Invariant.StepKeepsInvariant(c, env, a);
    }
    Safety.StepPermitted(c, env, a);
  }

  lemma HandleKeeps(c: Core, env: Env, request: Packet)
    ensures Keeps(c, env, Steps.HandlePacket(c, env, request))
  {
    hide Keeps, Steps.HandlePacket;
    StepKeeps(c, env, Steps.Handle(request));
  }

  lemma TickKeeps(c: Core, env: Env, writer: bool)
    ensures Keeps(c, env, Steps.Update(c, env, if writer then Direct else NoWriter))
  {
    hide Keeps, Steps.Update;
    StepKeeps(c, env, Steps.Tick(writer));
  }

  lemma FrameErrorKeeps(c: Core, env: Env, error: FrameError)
    ensures Keeps(c, env, Steps.RecordFrameError(c, env, error))
  {
    hide Keeps, Steps.RecordFrameError;
    StepKeeps(c, env, Steps.FrameFailed(error));
  }

  lemma BeginReadies(defaults: ActuatorConfig, env: Env)
    ensures IsValid(defaults) ==> Invariant.Invariant(Steps.Begin(defaults, env).core)
  {
    hide IsValid, Invariant.Invariant, Steps.Begin;
    if IsValid(defaults) {
      Invariant.BeginEstablishes(defaults, env);
    }
  }

  lemma TelemetryKeeps(c: Core, env: Env, number: uint16)
    ensures Keeps(c, env, Steps.SendTelemetry(c, env, number))
  {
    hide Keeps, Steps.SendTelemetry;
    StepKeeps(c, env, Steps.Telemetry(number));
  }

  class Actuator {
    var defaults: ActuatorConfig
    var active: ActuatorConfig
    var staged: ActuatorConfig
    var isStaged: bool
    var generation: uint32
    var state: State
    var mode: Mode
    var enabled: bool
    var faults: set<Fault>
    var counters: Counters
    var bootEventPending: bool
    var bootReason: uint32
    var lastHostMs: uint32
    var lastTelemetryMs: uint32
    var lastRequest: Option<Packet>
    var lastResponses: seq<Outgoing>

    // What the step in progress has done: packets sent, responses kept by the caching writer, backend calls made.
    var sent: seq<Outgoing>
    var cached: seq<Outgoing>
    ghost var calls: seq<Call>
    ghost var responses: seq<Outgoing>

    ghost predicate Valid()
      reads this
    {
      cached == Cached(responses)
    }

    ghost function Snapshot(): Work
      reads this
    {
      Work(
        Core(
          Settings(defaults, active, staged, isStaged, generation),
          Drive(state, mode, enabled),
          faults, counters, bootEventPending, bootReason, lastHostMs, lastTelemetryMs,
          Cache(lastRequest, lastResponses)),
        calls, sent, responses)
    }

    /** The invariant of all runs, from the first `Begin` on. */
    ghost predicate Ready()
      reads this
    {
      Invariant.Invariant(Snapshot().core)
    }

    constructor ()
      ensures Valid()
      ensures state == Booting && mode == ModeDisabled && !enabled && faults == {} && lastRequest == None
    {
      defaults, active, staged := DEFAULT_CONFIG, DEFAULT_CONFIG, DEFAULT_CONFIG;
      isStaged, generation := false, 0;
      state, mode, enabled := Booting, ModeDisabled, false;
      faults, counters := {}, Steps.ZERO_COUNTERS;
      bootEventPending, bootReason := false, 0;
      lastHostMs, lastTelemetryMs := 0, 0;
      lastRequest, lastResponses := None, [];
      sent, cached, calls, responses := [], [], [], [];
    }

    // ----- Sending, faults and transitions -----

    /** A new call from the main loop: nothing is sent, kept or called yet. */
    method Enter()
      modifies this`sent, this`cached, this`calls, this`responses
      ensures Valid() && Snapshot() == Steps.Start(old(Snapshot()).core)
    {
      sent, cached, calls, responses := [], [], [], [];
    }

    /** Records a backend call, which is made if its callback is installed. */
    ghost method Called<T>(answer: Answer<T>, call: Call)
      modifies this`calls
      ensures Snapshot() == Steps.Do(old(Snapshot()), answer, call)
    {
      if answer.Returned? {
        calls := calls + [call];
      }
    }

    /** The caching writer keeps what it has room for. */
    method Keep(o: Outgoing)
      requires Valid()
      modifies this`cached, this`responses
      ensures Valid() && responses == old(responses) + [o]
    {
      if |cached| < CACHE_SIZE {
        cached := cached + [o];
      }
      responses := responses + [o];
    }

    method Send(env: Env, via: Writer, number: uint16, m: Message)
      requires Valid()
      modifies this
      ensures Valid() && Snapshot() == Steps.Send(old(Snapshot()), env, via, number, m)
    {
      AddNothing(counters.dropped);
      hide Add32;
      if via != NoWriter {
        if via == Caching {
          Keep(Outgoing(number, m));
        }
        if |sent| in env.failedSends {
          counters := counters.(dropped := Add32(counters.dropped, 1));
        }
        sent := sent + [Outgoing(number, m)];
      }
    }

    method Notify(env: Env, via: Writer, number: uint16, e: Occurrence)
      requires Valid()
      modifies this
      ensures Valid() && Snapshot() == Steps.Notify(old(Snapshot()), env, via, number, e)
    {
      Send(env, via, number, Notice(e));
    }

    method TransitionTo(env: Env, s: State, via: Writer)
      requires Valid()
      modifies this
      ensures Valid() && Snapshot() == Steps.TransitionTo(old(Snapshot()), env, s, via)
    {
      if state == s {
        return;
      }
      var previous := state;
      state := s;
      Notify(env, via, 0, StateChanged(previous, s));
    }

    /** A transition that ends in the given mode. */
    method Settle(env: Env, s: State, m: Mode, via: Writer)
      requires Valid()
      modifies this
      ensures Valid() && Snapshot() == Steps.WithMode(Steps.TransitionTo(old(Snapshot()), env, s, via), m)
    {
      hide Steps.TransitionTo;
      TransitionTo(env, s, via);
      mode := m;
    }

    method SetFault(env: Env, f: Fault, via: Writer)
      requires Valid()
      modifies this
      ensures Valid() && Snapshot() == Steps.SetFault(old(Snapshot()), env, f, via)
    {
      var newlySet := f !in faults;
      faults := faults + {f};
      if newlySet {
        Notify(env, via, 0, FaultSet(f, faults));
      }
      if f != HostTimeout && f != SoftLimit {
        TransitionTo(env, Faulted, via);
      }
    }

    method Acknowledge(env: Env, r: Packet)
      requires Valid()
      modifies this
      ensures Valid() && Snapshot() == Steps.Acknowledge(old(Snapshot()), env, r)
    {
      Send(env, Caching, r.number, Ack(r.msgId));
    }

    method Reject(env: Env, via: Writer, r: Packet, code: ErrorCode)
      requires Valid()
      modifies this
      ensures Valid() && Snapshot() == Steps.RejectVia(old(Snapshot()), env, via, r, code)
    {
      hide Add32, Steps.Send;
      counters := counters.(rejected := Add32(counters.rejected, 1));
      Send(env, via, r.number, Error(r.msgId, code));
    }

    /** Faults, then refuses the request. */
    method Fail(env: Env, f: Fault, r: Packet, code: ErrorCode)
      requires Valid()
      modifies this
      ensures Valid() && Snapshot() == Steps.Reject(Steps.SetFault(old(Snapshot()), env, f, Direct), env, r, code)
    {
      SetFault(env, f, Direct);
      Reject(env, Caching, r, code);
    }

    predicate IsMotionState()
      reads this
      ensures IsMotionState() <==> Snapshot().core.drive.InMotion()
    {
      state == MovingPosition || state == RunningVelocity || state == Stopping
    }

    function ValidateMotionAllowed(requested: Mode): (code: Option<ErrorCode>)
      reads this
      ensures code == Steps.MotionRefusal(Snapshot().core, requested)
    {
      if state == Faulted then Some(IsFaulted)
      else if !enabled || isStaged then Some(BadState)
      else if requested == ModePosition && state == RunningVelocity then Some(Busy)
      else if requested == ModeVelocity && state == MovingPosition then Some(Busy)
      else if state == Stopping then Some(Busy)
      else None
    }

    // ----- Queries -----

    method SendStatus(env: Env, via: Writer, number: uint16, telemetry: bool)
      requires Valid()
      modifies this
      ensures Valid()
      ensures Snapshot() == Steps.Send(old(Snapshot()), env, via, number,
                                       Steps.Report(old(Snapshot()).core, env, telemetry))
    {
      var report := StatusReport(
        state, mode, enabled, isStaged, faults,
        Steps.FromBackend(active, env.position.Or(0)),
        Steps.FromBackend(active, env.targetPosition.Or(0)),
        Steps.FromBackend(active, env.speed.Or(0)),
        generation, counters.commands);
      Send(env, via, number, Status(telemetry, report));
    }

    method SendDriverStatus(env: Env, r: Packet)
      requires Valid()
      modifies this
      ensures Valid() && Snapshot() == Steps.ReportDriver(old(Snapshot()), env, r)
    {
      hide Steps.Send, Steps.Notify, Steps.SetFault;
      var status := Steps.NO_STATUS;
      if env.driverStatus.Returned? {
        status := env.driverStatus.value;
      }
      if status.configured && !status.uartOk {
        SetFault(env, DriverUart, Caching);
        Notify(env, Caching, r.number, DriverUartFailure(status.details));
      }
      Send(env, Caching, r.number, DriverReport(status));
    }

    method SendConfigValue(env: Env, r: Packet)
      requires Valid()
      modifies this
      ensures Valid() && Snapshot() == Steps.ReportField(old(Snapshot()), env, r)
    {
      hide Steps.Send, Steps.RejectVia;
      if |r.payload| != 2 {
        Reject(env, Caching, r, Malformed);
        return;
      }
      match FieldOf(U16At(r.payload, 0))
      case None => Reject(env, Caching, r, InvalidField);
      case Some(f) => Send(env, Caching, r.number, ConfigValue(f, FieldMutability(f), isStaged, FieldValue(active, f)));
    }

    method Inquire(env: Env, r: Packet)
      requires Valid()
      modifies this
      ensures Valid() && Snapshot() == Steps.Inquire(old(Snapshot()), env, r)
    {
      hide Steps.Send, Steps.ReportDriver, Steps.SetFault, Steps.RejectVia, Steps.Report;
      if r.msgId == PING {
        Acknowledge(env, r);
        Send(env, Caching, r.number, Pong);
      } else if r.msgId == GET_IDENTITY {
        Send(env, Caching, r.number, Identity(generation));
      } else if r.msgId == GET_CAPABILITIES {
        Send(env, Caching, r.number, Capabilities(active.safety.hostTimeoutMs));
      } else if r.msgId == GET_STATUS {
        SendStatus(env, Caching, r.number, false);
      } else if r.msgId == GET_FAULTS {
        Send(env, Caching, r.number, FaultReport(faults));
      } else if r.msgId == GET_COUNTERS {
        Send(env, Caching, r.number, CounterReport(counters));
      } else if r.msgId == HEARTBEAT {
        Acknowledge(env, r);
      } else if r.msgId == GET_DRIVER_STATUS {
        SendDriverStatus(env, r);
      } else {
        Fail(env, UnsupportedCommand, r, Unsupported);
      }
    }

    // ----- Control -----

    method SetControlMode(env: Env, r: Packet)
      requires Valid()
      modifies this
      ensures Valid() && Snapshot() == Steps.SetControlMode(old(Snapshot()), env, r)
    {
      hide Steps.SetFault, Steps.TransitionTo, Steps.Acknowledge, Steps.RejectVia, Steps.TurnOff, Steps.EnableInMode;
      if |r.payload| != 1 {
        Reject(env, Caching, r, Malformed);
      } else if r.payload[0] > 3 {
        Reject(env, Caching, r, OutOfRange);
      } else if state == Faulted && r.payload[0] != 0 {
        Reject(env, Caching, r, IsFaulted);
      } else if IsMotionState() {
        Reject(env, Caching, r, Busy);
      } else {
        mode := Steps.ModeOf(r.payload[0]);
        if mode == ModeDisabled {
          TurnOff(env, r);
        } else {
          EnableInMode(env, r);
        }
      }
    }

    method TurnOff(env: Env, r: Packet)
      requires Valid()
      modifies this
      ensures Valid() && Snapshot() == Steps.TurnOff(old(Snapshot()), env, r)
    {
      hide Steps.TransitionTo, Steps.Acknowledge;
      Called(env.enableDriver, EnableDriver(false, env.enableDriver.Or(true)));
      enabled := false;
      TransitionTo(env, Disabled, Direct);
      Acknowledge(env, r);
    }

    method EnableInMode(env: Env, r: Packet)
      requires Valid()
      modifies this
      ensures Valid() && Snapshot() == Steps.EnableInMode(old(Snapshot()), env, r)
    {
      hide Steps.SetFault, Steps.TransitionTo, Steps.Acknowledge, Steps.RejectVia;
      Called(env.configureDriver, ConfigureDriver(active.driver, env.configureDriver.Or(true)));
      if env.configureDriver == Returned(false) {
        Fail(env, DriverFault, r, BadState);
        return;
      }
      Called(env.enableDriver, EnableDriver(true, env.enableDriver.Or(true)));
      if env.enableDriver == Returned(false) {
        Fail(env, DriverFault, r, BadState);
        return;
      }
      enabled := true;
      TransitionTo(env, if mode == ModeCommissioning then Commissioning else Idle, Direct);
      Acknowledge(env, r);
    }

    method StopAndDisable(env: Env)
      requires Valid()
      modifies this
      ensures Valid() && Snapshot() == Steps.StopAndDisable(old(Snapshot()), env)
    {
      Called(env.emergencyStop, EmergencyStop);
      Called(env.enableDriver, EnableDriver(false, env.enableDriver.Or(true)));
      enabled := false;
      mode := ModeDisabled;
    }

    method EmergencyStopNow(env: Env, r: Packet)
      requires Valid()
      modifies this
      ensures Valid() && Snapshot() == Steps.EmergencyStopNow(old(Snapshot()), env, r)
    {
      hide Steps.StopAndDisable, Steps.TransitionTo, Steps.Acknowledge;
      StopAndDisable(env);
      TransitionTo(env, Faulted, Direct);
      Acknowledge(env, r);
    }

    method RampStopNow(env: Env, r: Packet)
      requires Valid()
      modifies this
      ensures Valid() && Snapshot() == Steps.RampStopNow(old(Snapshot()), env, r)
    {
      hide U32At, Steps.SetFault, Steps.TransitionTo, Steps.Acknowledge, Steps.RejectVia;
      if |r.payload| != 4 {
        Reject(env, Caching, r, Malformed);
      } else if !IsMotionState() && (env.motionActive.Absent? || !env.motionActive.value) {
        Acknowledge(env, r);
      } else {
        Called(env.rampStop, RampStop(U32At(r.payload, 0), env.rampStop.Or(false)));
        if env.rampStop.Absent? || !env.rampStop.value {
          Fail(env, DriverFault, r, BadState);
        } else {
          Settle(env, Stopping, ModePosition, Direct);
          Acknowledge(env, r);
        }
      }
    }

    method ClearFaults(env: Env, r: Packet)
      requires Valid()
      modifies this
      ensures Valid() && Snapshot() == Steps.ClearFaults(old(Snapshot()), env, r)
    {
      hide Steps.Notify, Steps.TransitionTo, Steps.Acknowledge;
      var previous := faults;
      faults := {};
      if previous != {} {
        Notify(env, Direct, r.number, FaultCleared(previous));
      }
      if !enabled {
        Settle(env, Disabled, ModeDisabled, Direct);
      } else {
        TransitionTo(env, Idle, Direct);
      }
      Acknowledge(env, r);
    }

    // ----- Configuration -----

    /** Stages one field, or says why not. */
    method StageField(env: Env, r: Packet) returns (error: Option<ErrorCode>)
      requires Valid()
      modifies this
      ensures Valid()
      ensures match Steps.StageRequest(old(Snapshot()).core, r)
              case StageRefused(code) => error == Some(code) && Snapshot() == old(Snapshot())
              case StageAccepted(config) =>
                && error == None
                && Snapshot() == Steps.Held(old(Snapshot()), env, config)
    {
      hide Steps.TransitionTo, Config.StageField, FieldMutability, FieldOf;
      if |r.payload| != 6 {
        return Some(Malformed);
      }
      var field := FieldOf(U16At(r.payload, 0));
      if field == None {
        return Some(InvalidField);
      }
      var mutability := FieldMutability(field.value);
      if mutability == CompileTimeOnly || mutability == Reserved {
        return Some(Unsupported);
      }
      if mutability == RequiresReboot {
        return Some(NeedsReboot);
      }
      var result := Config.StageField(if isStaged then staged else active, field.value, I32At(r.payload, 2));
      if result.Refused? {
        return Some(OutOfRange);
      }
      staged := result.config;
      isStaged := true;
      if !IsMotionState() {
        TransitionTo(env, ConfigStaged, Direct);
      }
      error := None;
    }

    method Stage(env: Env, r: Packet)
      requires Valid()
      modifies this
      ensures Valid() && Snapshot() == Steps.Stage(old(Snapshot()), env, r)
    {
      hide Steps.StageRequest, Steps.Held, Steps.Acknowledge, Steps.RejectVia;
      var error := StageField(env, r);
      if error.Some? {
        Reject(env, Caching, r, error.value);
      } else {
        Acknowledge(env, r);
      }
    }

    method ApplyStaged(env: Env, r: Packet)
      requires Valid()
      modifies this
      ensures Valid() && Snapshot() == Steps.ApplyStaged(old(Snapshot()), env, r)
    {
      hide IsValid, Steps.DriverChanged, Steps.Adopt, Steps.SetFault, Steps.Acknowledge, Steps.RejectVia;
      if !isStaged {
        Acknowledge(env, r);
        return;
      }
      if IsMotionState() {
        Reject(env, Caching, r, Busy);
        return;
      }
      if !IsValid(staged) {
        Fail(env, InvalidConfig, r, OutOfRange);
        return;
      }
      if DriverChanged() {
        Called(env.configureDriver, ConfigureDriver(staged.driver, env.configureDriver.Or(true)));
        if env.configureDriver == Returned(false) {
          Fail(env, DriverFault, r, BadState);
          return;
        }
      }
      Adopt(env, r);
    }

    method Adopt(env: Env, r: Packet)
      requires Valid()
      modifies this
      ensures Valid() && Snapshot() == Steps.Adopt(old(Snapshot()), env, r)
    {
      hide Steps.Notify, Steps.TransitionTo, Steps.Acknowledge;
      active := staged;
      isStaged := false;
      TransitionTo(env, if enabled then Idle else Disabled, Direct);
      Notify(env, Direct, 0, ConfigApplied(generation));
      Acknowledge(env, r);
    }

    predicate DriverChanged()
      reads this
      ensures DriverChanged() <==> Steps.DriverChanged(Snapshot().core)
    {
      || staged.driver.runCurrentMa != active.driver.runCurrentMa
      || staged.driver.holdCurrentMa != active.driver.holdCurrentMa
      || staged.driver.microsteps != active.driver.microsteps
      || staged.driver.mode != active.driver.mode
    }

    method SaveActive(env: Env, r: Packet)
      requires Valid()
      modifies this
      ensures Valid() && Snapshot() == Steps.SaveActive(old(Snapshot()), env, r)
    {
      hide Add32, Steps.Notify, Steps.SetFault, Steps.Acknowledge, Steps.RejectVia;
      Called(env.saveConfig, SaveConfig(active, env.saveConfig.Or(false)));
      if env.saveConfig.Absent? || !env.saveConfig.value {
        Fail(env, ConfigStorage, r, Storage);
        return;
      }
      generation := Add32(generation, 1);
      Notify(env, Direct, r.number, ConfigSaved(generation));
      Acknowledge(env, r);
    }

    method RestoreDefaults()
      modifies this`active, this`staged, this`isStaged
      ensures Snapshot() == Steps.WithSettings(old(Snapshot()),
                                               Settings(defaults, defaults, defaults, false, generation))
    {
      active, staged, isStaged := defaults, defaults, false;
    }

    method ResetDefaults(env: Env, r: Packet)
      requires Valid()
      modifies this
      ensures Valid() && Snapshot() == Steps.ResetDefaults(old(Snapshot()), env, r)
    {
      hide Steps.Notify, Steps.SetFault, Steps.Acknowledge, Steps.RejectVia;
      if IsMotionState() {
        Reject(env, Caching, r, Busy);
        return;
      }
      RestoreDefaults();
      Called(env.configureDriver, ConfigureDriver(active.driver, env.configureDriver.Or(true)));
      if env.configureDriver == Returned(false) {
        Fail(env, DriverFault, r, BadState);
        return;
      }
      Called(env.resetStorage, ResetStorage(env.resetStorage.Or(true)));
      if env.resetStorage == Returned(false) {
        Fail(env, ConfigStorage, r, Storage);
        return;
      }
      Notify(env, Direct, r.number, ConfigApplied(generation));
      Acknowledge(env, r);
    }

    method SetTelemetryRate(env: Env, r: Packet)
      requires Valid()
      modifies this
      ensures Valid() && Snapshot() == Steps.SetTelemetryRate(old(Snapshot()), env, r)
    {
      hide Steps.Acknowledge, Steps.RejectVia;
      if |r.payload| != 2 {
        Reject(env, Caching, r, Malformed);
        return;
      }
      active := active.(telemetry := active.telemetry.(intervalMs := U16At(r.payload, 0)));
      if isStaged {
        staged := staged.(telemetry := staged.telemetry.(intervalMs := active.telemetry.intervalMs));
      } else {
        staged := active;
      }
      Acknowledge(env, r);
    }

    method RebootNow(env: Env, r: Packet)
      requires Valid()
      modifies this
      ensures Valid() && Snapshot() == Steps.RebootNow(old(Snapshot()), env, r)
    {
      Acknowledge(env, r);
      Called(env.reboot, RebootCall);
    }

    // ----- Motion -----

    /** The end of a move call: a refused call faults the driver, an accepted one moves the state machine. */
    method Started(env: Env, r: Packet, ok: bool, s: State, m: Mode)
      requires Valid()
      modifies this
      ensures Valid() && Snapshot() == Steps.Started(old(Snapshot()), env, r, ok, s, m)
    {
      hide Steps.SetFault, Steps.TransitionTo, Steps.Acknowledge, Steps.RejectVia;
      if !ok {
        Fail(env, DriverFault, r, BadState);
        return;
      }
      Settle(env, s, m, Direct);
      Acknowledge(env, r);
    }

    method MoveAbs(env: Env, r: Packet)
      requires Valid()
      modifies this
      ensures Valid() && Snapshot() == Steps.MoveAbs(old(Snapshot()), env, r)
    {
      hide I32At, U32At, Steps.SetFault, Steps.RejectVia, Steps.Started, Steps.MotionRefusal, Steps.WithinLimits,
           Steps.SoftLimitViolation, Steps.ToBackend;
      if |r.payload| != 12 {
        Reject(env, Caching, r, Malformed);
        return;
      }
      var refusal := ValidateMotionAllowed(ModePosition);
      if refusal.Some? {
        Reject(env, Caching, r, refusal.value);
        return;
      }
      var target, velocity, accel := I32At(r.payload, 0), U32At(r.payload, 4), U32At(r.payload, 8);
      if !Steps.WithinLimits(active, velocity, accel) {
        Reject(env, Caching, r, OutOfRange);
        return;
      }
      if Steps.SoftLimitViolation(active, target) {
        Fail(env, SoftLimit, r, OutOfRange);
        return;
      }
      var backendTarget := Steps.ToBackend(active, target);
      if backendTarget.None? {
        Reject(env, Caching, r, OutOfRange);
        return;
      }
      var ok := env.moveAbsolute.Or(false);
      Called(env.moveAbsolute, MoveAbsolute(backendTarget.value, velocity, accel, ok));
      Started(env, r, ok, MovingPosition, ModePosition);
    }

    method MoveRel(env: Env, r: Packet)
      requires Valid()
      modifies this
      ensures Valid() && Snapshot() == Steps.MoveRel(old(Snapshot()), env, r)
    {
      hide I32At, U32At, Steps.SetFault, Steps.RejectVia, Steps.Started, Steps.MotionRefusal, Steps.WithinLimits,
           Steps.SoftLimitViolation, Steps.ToBackend, Steps.FromBackend;
      if |r.payload| != 12 {
        Reject(env, Caching, r, Malformed);
        return;
      }
      var refusal := ValidateMotionAllowed(ModePosition);
      if refusal.Some? {
        Reject(env, Caching, r, refusal.value);
        return;
      }
      var delta, velocity, accel := I32At(r.payload, 0), U32At(r.payload, 4), U32At(r.payload, 8);
      var current := Steps.FromBackend(active, env.position.Or(0));
      var target: int := current as int + delta as int;
      if !(INT32_MIN <= target <= INT32_MAX) || !Steps.WithinLimits(active, velocity, accel) {
        Reject(env, Caching, r, OutOfRange);
        return;
      }
      if Steps.SoftLimitViolation(active, target) {
        Fail(env, SoftLimit, r, OutOfRange);
        return;
      }
      var backendDelta := Steps.ToBackend(active, delta);
      if backendDelta.None? {
        Reject(env, Caching, r, OutOfRange);
        return;
      }
      var ok := env.moveRelative.Or(false);
      Called(env.moveRelative, MoveRelative(backendDelta.value, velocity, accel, ok));
      Started(env, r, ok, MovingPosition, ModePosition);
    }

    method RunVel(env: Env, r: Packet)
      requires Valid()
      modifies this
      ensures Valid() && Snapshot() == Steps.RunVel(old(Snapshot()), env, r)
    {
      hide I32At, U32At, Steps.RejectVia, Steps.Started, Steps.MotionRefusal, Steps.WithinLimits, Steps.ToBackend;
      if |r.payload| != 8 {
        Reject(env, Caching, r, Malformed);
        return;
      }
      var refusal := ValidateMotionAllowed(ModeVelocity);
      if refusal.Some? {
        Reject(env, Caching, r, refusal.value);
        return;
      }
      var velocity, accel := I32At(r.payload, 0), U32At(r.payload, 4);
      if !Steps.WithinLimits(active, Steps.Magnitude(velocity), accel) {
        Reject(env, Caching, r, OutOfRange);
        return;
      }
      var backendVelocity := Steps.ToBackend(active, velocity);
      if backendVelocity.None? {
        Reject(env, Caching, r, OutOfRange);
        return;
      }
      var ok := env.runVelocity.Or(false);
      Called(env.runVelocity, RunVelocity(backendVelocity.value, accel, ok));
      Started(env, r, ok, RunningVelocity, ModeVelocity);
    }

    // ----- Requests -----

    method Dispatch(env: Env, r: Packet)
      requires Valid()
      modifies this
      ensures Valid() && Snapshot() == Steps.Dispatch(old(Snapshot()), env, r)
    {
      hide Steps.RejectVia, Steps.Inquire, Steps.SetControlMode, Steps.EmergencyStopNow, Steps.RampStopNow,
           Steps.ClearFaults, Steps.ReportField, Steps.Stage, Steps.ApplyStaged, Steps.SaveActive, Steps.ResetDefaults,
           Steps.RebootNow, Steps.MoveAbs, Steps.MoveRel, Steps.RunVel, Steps.SetTelemetryRate, Steps.SetFault;
      if Steps.TakesNoPayload(r.msgId) && r.payload != [] {
        Reject(env, Caching, r, Malformed);
      } else if r.msgId < SET_CONTROL_MODE || r.msgId == GET_DRIVER_STATUS {
        Inquire(env, r);
      } else if r.msgId == SET_CONTROL_MODE {
        SetControlMode(env, r);
      } else if r.msgId == ESTOP {
        EmergencyStopNow(env, r);
      } else if r.msgId == RAMP_STOP {
        RampStopNow(env, r);
      } else if r.msgId == CLEAR_FAULTS {
        ClearFaults(env, r);
      } else if r.msgId == CONFIG_QUERY {
        SendConfigValue(env, r);
      } else if r.msgId == CONFIG_STAGE_FIELD {
        Stage(env, r);
      } else if r.msgId == CONFIG_APPLY {
        ApplyStaged(env, r);
      } else if r.msgId == CONFIG_SAVE {
        SaveActive(env, r);
      } else if r.msgId == CONFIG_RESET_DEFAULTS {
        ResetDefaults(env, r);
      } else if r.msgId == REBOOT {
        RebootNow(env, r);
      } else if r.msgId == MOVE_ABS {
        MoveAbs(env, r);
      } else if r.msgId == MOVE_REL {
        MoveRel(env, r);
      } else if r.msgId == RUN_VEL {
        RunVel(env, r);
      } else if r.msgId == SET_TELEM_RATE {
        SetTelemetryRate(env, r);
      } else {
        Fail(env, UnsupportedCommand, r, Unsupported);
      }
    }

    method ReplayLastResponse(env: Env)
      requires Valid()
      modifies this
      ensures Valid() && Snapshot() == Steps.SendAll(old(Snapshot()), env, Direct, old(lastResponses))
    {
      hide Steps.Send;
      for i := 0 to |lastResponses|
        invariant Valid() && lastResponses == old(lastResponses)
        invariant Snapshot() == Steps.SendAll(old(Snapshot()), env, Direct, lastResponses[..i])
      {
        assert lastResponses[..i + 1][..i] == lastResponses[..i];
        ghost var before := Snapshot();
        Send(env, Direct, lastResponses[i].number, lastResponses[i].message);
        assert Snapshot().core.cache == before.core.cache;
      }
      assert lastResponses[..|lastResponses|] == lastResponses;
    }

    predicate IsRepeat(r: Packet)
      reads this
      ensures IsRepeat(r) <==> Steps.IsRepeat(Snapshot().core, r)
    {
      lastRequest.Some? && r.number == lastRequest.value.number && r.msgId == lastRequest.value.msgId
    }

    /** A request numbered like the last one: the cached responses again, or a mismatch. */
    method AnswerRepeat(env: Env, r: Packet)
      requires Valid() && IsRepeat(r)
      modifies this
      ensures Valid()
      ensures Snapshot() ==
        if r == old(lastRequest).value then Steps.SendAll(old(Snapshot()), env, Direct, old(lastResponses))
        else Steps.RejectVia(old(Snapshot()), env, Direct, r, DuplicateMismatch)
    {
      hide Steps.SendAll, Steps.RejectVia;
      if r == lastRequest.value {
        ReplayLastResponse(env);
      } else {
        Reject(env, Direct, r, DuplicateMismatch);
      }
    }

    method Remember(r: Packet)
      requires Valid()
      modifies this`lastRequest, this`lastResponses
      ensures Snapshot() == old(Snapshot()).(core := old(Snapshot()).core.(cache := Cache(Some(r), Cached(responses))))
    {
      lastRequest := Some(r);
      lastResponses := cached;
    }

    method HandlePacket(env: Env, request: Packet)
      requires Valid()
      modifies this
      ensures Valid() && Snapshot() == Steps.HandlePacket(old(Snapshot()).core, env, request)
      ensures old(Ready()) ==> Ready()
      ensures Safety.AllInBounds(old(Snapshot()).core, env, calls)
    {
      hide Add32, Steps.Send, Steps.SendAll, Steps.RejectVia, Steps.Dispatch, Steps.IsRepeat, Cached;
      HandleKeeps(Snapshot().core, env, request);
      hide Invariant.Invariant, Safety.AllInBounds;
      Enter();
      if IsRepeat(request) {
        lastHostMs := Now(env);
        counters := counters.(duplicates := Add32(counters.duplicates, 1));
        AnswerRepeat(env, request);
      } else {
        counters := counters.(commands := Add32(counters.commands, 1));
        lastHostMs := Now(env);
        Dispatch(env, request);
        Remember(request);
      }
    }

    // ----- The main loop's other calls -----

    method Update(env: Env, writer: bool)
      requires Valid()
      modifies this
      ensures Valid() && Snapshot() == Steps.Update(old(Snapshot()).core, env, if writer then Direct else NoWriter)
      ensures old(Ready()) ==> Ready()
      ensures Safety.AllInBounds(old(Snapshot()).core, env, calls)
    {
      hide Steps.AnnounceBoot, Steps.FinishMotion, Steps.CheckHost;
      TickKeeps(Snapshot().core, env, writer);
      hide Invariant.Invariant, Safety.AllInBounds;
      Enter();
      var via := if writer then Direct else NoWriter;
      AnnounceBoot(env, via);
      FinishMotion(env, via);
      CheckHost(env, via);
    }

    method AnnounceBoot(env: Env, via: Writer)
      requires Valid()
      modifies this
      ensures Valid() && Snapshot() == Steps.AnnounceBoot(old(Snapshot()), env, via)
    {
      hide Steps.Notify;
      if bootEventPending && via != NoWriter {
        Notify(env, via, 0, BootReason(bootReason));
        bootEventPending := false;
      }
    }

    method FinishMotion(env: Env, via: Writer)
      requires Valid()
      modifies this
      ensures Valid() && Snapshot() == Steps.FinishMotion(old(Snapshot()), env, via)
    {
      hide Steps.TransitionTo;
      if (state == MovingPosition || state == Stopping) && env.motionActive == Returned(false) {
        Settle(env, if enabled then Idle else Disabled, if enabled then ModePosition else ModeDisabled, via);
      }
    }

    method CheckHost(env: Env, via: Writer)
      requires Valid()
      modifies this
      ensures Valid() && Snapshot() == Steps.CheckHost(old(Snapshot()), env, via)
    {
      hide Sub32, Steps.Notify, Steps.SetFault, Steps.TransitionTo, Steps.StopAndDisable;
      if && state == RunningVelocity && active.safety.hostTimeoutMs > 0
         && Sub32(Now(env), lastHostMs) > active.safety.hostTimeoutMs {
        SetFault(env, HostTimeout, via);
        Notify(env, via, 0, HostTimedOut(active.safety.timeoutAction, active.safety.hostTimeoutMs));
        if active.safety.timeoutAction == ACTION_DISABLE {
          StopAndDisable(env);
          TransitionTo(env, Faulted, via);
        } else {
          Called(env.rampStop, RampStop(active.motion.stopDecel, env.rampStop.Or(true)));
          Settle(env, Stopping, ModePosition, via);
        }
      }
    }

    method RecordFrameError(env: Env, error: FrameError)
      requires Valid()
      modifies this
      ensures Valid() && Snapshot() == Steps.RecordFrameError(old(Snapshot()).core, env, error)
      ensures old(Ready()) ==> Ready()
      ensures Safety.AllInBounds(old(Snapshot()).core, env, calls)
    {
      hide Add32, Steps.SetFault;
      FrameErrorKeeps(Snapshot().core, env, error);
      hide Invariant.Invariant, Safety.AllInBounds;
      Enter();
      counters := counters.(decodeErrors := Add32(counters.decodeErrors, 1));
      match error
      case BadCrc =>
        counters := counters.(crcErrors := Add32(counters.crcErrors, 1));
        SetFault(env, CrcFault, NoWriter);
      case BadPayload => SetFault(env, PayloadFault, NoWriter);
      case BadVersion => SetFault(env, RxFrame, NoWriter);
    }

    predicate ShouldSendTelemetry(env: Env)
      reads this
      ensures ShouldSendTelemetry(env) <==> Steps.TelemetryDue(Snapshot().core, Now(env))
    {
      if !active.telemetry.binaryStreamEnabled || active.telemetry.intervalMs == 0 then false
      else Sub32(Now(env), lastTelemetryMs) >= active.telemetry.intervalMs
    }

    method SendTelemetry(env: Env, number: uint16)
      requires Valid()
      modifies this
      ensures Valid() && Snapshot() == Steps.SendTelemetry(old(Snapshot()).core, env, number)
      ensures old(Ready()) ==> Ready()
      ensures Safety.AllInBounds(old(Snapshot()).core, env, calls)
    {
      hide Steps.Send, Steps.Report;
      TelemetryKeeps(Snapshot().core, env, number);
      hide Invariant.Invariant, Safety.AllInBounds;
      Enter();
      SendStatus(env, Direct, number, true);
      lastTelemetryMs := Now(env);
    }

    method ClearSettings(newDefaults: ActuatorConfig)
      modifies this`defaults, this`active, this`staged, this`isStaged, this`generation
      ensures defaults == active == staged == newDefaults && !isStaged && generation == 0
    {
      defaults, active, staged := newDefaults, newDefaults, newDefaults;
      generation, isStaged := 0, false;
    }

    method ClearTimers(env: Env)
      modifies this`bootEventPending, this`bootReason, this`lastHostMs, this`lastTelemetryMs
      ensures bootEventPending && bootReason == env.bootReason.Or(0)
      ensures lastHostMs == lastTelemetryMs == Now(env)
    {
      bootEventPending, bootReason := true, env.bootReason.Or(0);
      lastHostMs, lastTelemetryMs := Now(env), Now(env);
    }

    method ClearState()
      modifies this`state, this`mode, this`enabled, this`faults, this`counters, this`lastRequest, this`lastResponses
      ensures state == Booting && mode == ModeDisabled && !enabled && faults == {} && counters == Steps.ZERO_COUNTERS
      ensures lastRequest == None && lastResponses == []
    {
      state, mode, enabled := Booting, ModeDisabled, false;
      faults, counters := {}, Steps.ZERO_COUNTERS;
      lastRequest, lastResponses := None, [];
    }

    method Clear(newDefaults: ActuatorConfig, env: Env)
      modifies this
      ensures Valid() && Snapshot() == Steps.Start(Steps.Fresh(newDefaults, env))
    {
      ClearSettings(newDefaults);
      ClearTimers(env);
      ClearState();
      Enter();
    }

    method Begin(newDefaults: ActuatorConfig, env: Env)
      requires Valid()
      modifies this
      ensures Valid() && Snapshot() == Steps.Begin(newDefaults, env)
      ensures IsValid(newDefaults) ==> Ready()
    {
      hide Steps.Fresh, Steps.LoadStored, Steps.PowerUp;
      Clear(newDefaults, env);
      LoadStored(env);
      PowerUp(env);
      BeginReadies(newDefaults, env);
      hide Invariant.Invariant, IsValid;
    }

    method PowerUp(env: Env)
      requires Valid()
      modifies this
      ensures Valid() && Snapshot() == Steps.PowerUp(old(Snapshot()), env)
    {
      hide Steps.SetFault, Steps.TransitionTo;
      Called(env.configureDriver, ConfigureDriver(active.driver, env.configureDriver.Or(true)));
      if env.configureDriver == Returned(false) {
        SetFault(env, DriverFault, NoWriter);
        TransitionTo(env, Faulted, NoWriter);
      } else {
        Called(env.enableDriver, EnableDriver(false, env.enableDriver.Or(true)));
        TransitionTo(env, Disabled, NoWriter);
      }
    }

    method LoadStored(env: Env)
      requires Valid()
      modifies this
      ensures Valid() && Snapshot() == Steps.LoadStored(old(Snapshot()), env)
    {
      hide IsValid, Steps.SetFault;
      if env.loadConfig.Returned? && env.loadConfig.value.Some? {
        var stored := env.loadConfig.value.value;
        if IsValid(stored.config) {
          active, staged, generation := stored.config, stored.config, stored.generation;
        } else {
          SetFault(env, InvalidConfig, NoWriter);
        }
      }
    }
  }
}
