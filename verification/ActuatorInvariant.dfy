/** What every step of the actuator keeps, from any start with valid defaults. */
module ActuatorInvariant {
  import opened Bytes
  import opened Config
  import opened Protocol
  import opened ActuatorTypes
  import opened ActuatorSteps

  predicate ConfigsValid(s: Settings) {
    && IsValid(s.defaults) && IsValid(s.active) && IsValid(s.staged)
    && (!s.isStaged ==> s.staged == s.active)
  }

  predicate StateAgrees(d: Drive) {
    && d.state != Booting
    && (d.state == Idle || d.state == MovingPosition || d.state == RunningVelocity || d.state == Commissioning
        ==> d.enabled)
    && (d.state == Disabled ==> !d.enabled)
    && (d.state == MovingPosition || d.state == Stopping ==> d.mode == ModePosition)
    && (d.state == RunningVelocity ==> d.mode == ModeVelocity)
    && (d.enabled ==> d.mode != ModeDisabled)
  }

  predicate Sound(c: Core) { ConfigsValid(c.settings) && StateAgrees(c.drive) }

  predicate Invariant(c: Core) { Sound(c) && |c.cache.responses| <= CACHE_SIZE }

  lemma RateKeepsValid(c: ActuatorConfig, rate: uint16)
    requires IsValid(c)
    ensures IsValid(c.(telemetry := c.telemetry.(intervalMs := rate)))
  {}

  lemma StagedIsValid(c: Core, r: Packet)
    requires StageRequest(c, r).StageAccepted?
    ensures IsValid(StageRequest(c, r).config)
  {
    hide Validate, SetField, FieldOf;
  }

  lemma SetControlModeKeeps(w: Work, env: Env, r: Packet)
    requires Sound(w.core)
    ensures Sound(SetControlMode(w, env, r).core)
  {
    if |r.payload| == 1 && 0 < r.payload[0] <= 3 && !w.core.drive.InMotion() {
      EnableInModeKeeps(WithMode(w, ModeOf(r.payload[0])), env, r);
    }
    hide IsValid, Send, Notify, TransitionTo, SetFault, Acknowledge, Reject, RejectVia, ConfigsValid, EnableInMode;
  }

  lemma EnableInModeKeeps(w: Work, env: Env, r: Packet)
    requires ConfigsValid(w.core.settings) && w.core.drive.mode != ModeDisabled
    requires !w.core.drive.InMotion() && StateAgrees(w.core.drive)
    ensures Sound(EnableInMode(w, env, r).core)
  {
    hide IsValid, Send, Notify, TransitionTo, SetFault, Acknowledge, Reject, RejectVia, ConfigsValid;
  }

  lemma EmergencyStopNowKeeps(w: Work, env: Env, r: Packet)
    requires Sound(w.core)
    ensures Sound(EmergencyStopNow(w, env, r).core)
  {
    hide IsValid, Send, Notify, TransitionTo, SetFault, Acknowledge, Reject, RejectVia;
  }

  lemma RampStopNowKeeps(w: Work, env: Env, r: Packet)
    requires Sound(w.core)
    ensures Sound(RampStopNow(w, env, r).core)
  {
    hide IsValid, Send, Notify, TransitionTo, SetFault, Acknowledge, Reject, RejectVia;
  }

  lemma ClearFaultsKeeps(w: Work, env: Env, r: Packet)
    requires Sound(w.core)
    ensures Sound(ClearFaults(w, env, r).core)
  {
    hide IsValid, Send, Notify, TransitionTo, SetFault, Acknowledge, Reject, RejectVia;
  }

  lemma StageKeeps(w: Work, env: Env, r: Packet)
    requires Sound(w.core)
    ensures Sound(Stage(w, env, r).core)
  {
    hide IsValid, Send, Notify, TransitionTo, SetFault, Acknowledge, Reject, RejectVia, StageRequest;
    if StageRequest(w.core, r).StageAccepted? {
      StagedIsValid(w.core, r);
    }
  }

  lemma ApplyStagedKeeps(w: Work, env: Env, r: Packet)
    requires Sound(w.core)
    ensures Sound(ApplyStaged(w, env, r).core)
  {
    hide IsValid, Send, Notify, TransitionTo, SetFault, Acknowledge, Reject, RejectVia;
  }

  lemma SaveActiveKeeps(w: Work, env: Env, r: Packet)
    requires Sound(w.core)
    ensures Sound(SaveActive(w, env, r).core)
  {
    hide IsValid, Send, Notify, TransitionTo, SetFault, Acknowledge, Reject, RejectVia;
  }

  lemma ResetDefaultsKeeps(w: Work, env: Env, r: Packet)
    requires Sound(w.core)
    ensures Sound(ResetDefaults(w, env, r).core)
  {
    hide IsValid, Send, Notify, TransitionTo, SetFault, Acknowledge, Reject, RejectVia;
  }

  lemma SetTelemetryRateKeeps(w: Work, env: Env, r: Packet)
    requires Sound(w.core)
    ensures Sound(SetTelemetryRate(w, env, r).core)
  {
    hide IsValid, Send, Notify, TransitionTo, SetFault, Acknowledge, Reject, RejectVia;
    if |r.payload| == 2 {
      RateKeepsValid(w.core.settings.active, U16At(r.payload, 0));
      RateKeepsValid(w.core.settings.staged, U16At(r.payload, 0));
    }
  }

  lemma MoveAbsKeeps(w: Work, env: Env, r: Packet)
    requires Sound(w.core)
    ensures Sound(MoveAbs(w, env, r).core)
  {
    hide IsValid, Send, Notify, TransitionTo, SetFault, Acknowledge, Reject, RejectVia;
  }

  lemma MoveRelKeeps(w: Work, env: Env, r: Packet)
    requires Sound(w.core)
    ensures Sound(MoveRel(w, env, r).core)
  {
    hide IsValid, Send, Notify, TransitionTo, SetFault, Acknowledge, Reject, RejectVia;
  }

  lemma RunVelKeeps(w: Work, env: Env, r: Packet)
    requires Sound(w.core)
    ensures Sound(RunVel(w, env, r).core)
  {
    hide IsValid, Send, Notify, TransitionTo, SetFault, Acknowledge, Reject, RejectVia;
  }

  lemma InquireKeeps(w: Work, env: Env, r: Packet)
    requires Sound(w.core)
    ensures Sound(Inquire(w, env, r).core)
  {
    hide IsValid, Send, Notify, TransitionTo, SetFault, Acknowledge, Reject, RejectVia;
  }

  lemma UnknownKeeps(w: Work, env: Env, r: Packet)
    requires Sound(w.core)
    ensures Sound(Unknown(w, env, r).core)
  {
    hide IsValid, Send, Notify, TransitionTo, SetFault, Acknowledge, Reject, RejectVia;
  }

  lemma DispatchKeeps(w: Work, env: Env, r: Packet)
    requires Sound(w.core)
    ensures Sound(Dispatch(w, env, r).core)
  {
    hide ConfigsValid, StateAgrees, Send, Notify, RejectVia,
         Inquire, SetControlMode, EmergencyStopNow, RampStopNow, ClearFaults, ReportField, Stage, ApplyStaged,
         SaveActive, ResetDefaults, RebootNow, MoveAbs, MoveRel, RunVel, SetTelemetryRate, Unknown;
    if TakesNoPayload(r.msgId) && r.payload != [] {
      RejectKeeps(w, env, r, Malformed);
    } else if r.msgId < SET_CONTROL_MODE || r.msgId == GET_DRIVER_STATUS {
      InquireKeeps(w, env, r);
    } else if r.msgId == SET_CONTROL_MODE {
      SetControlModeKeeps(w, env, r);
    } else if r.msgId == ESTOP {
      EmergencyStopNowKeeps(w, env, r);
    } else if r.msgId == RAMP_STOP {
      RampStopNowKeeps(w, env, r);
    } else if r.msgId == CLEAR_FAULTS {
      ClearFaultsKeeps(w, env, r);
    } else if r.msgId == CONFIG_QUERY {
      ReportFieldKeeps(w, env, r);
    } else if r.msgId == CONFIG_STAGE_FIELD {
      StageKeeps(w, env, r);
    } else if r.msgId == CONFIG_APPLY {
      ApplyStagedKeeps(w, env, r);
    } else if r.msgId == CONFIG_SAVE {
      SaveActiveKeeps(w, env, r);
    } else if r.msgId == CONFIG_RESET_DEFAULTS {
      ResetDefaultsKeeps(w, env, r);
    } else if r.msgId == REBOOT {
      RebootNowKeeps(w, env, r);
    } else if r.msgId == MOVE_ABS {
      MoveAbsKeeps(w, env, r);
    } else if r.msgId == MOVE_REL {
      MoveRelKeeps(w, env, r);
    } else if r.msgId == RUN_VEL {
      RunVelKeeps(w, env, r);
    } else if r.msgId == SET_TELEM_RATE {
      SetTelemetryRateKeeps(w, env, r);
    } else {
      UnknownKeeps(w, env, r);
    }
  }

  lemma ReportFieldKeeps(w: Work, env: Env, r: Packet)
    requires Sound(w.core)
    ensures Sound(ReportField(w, env, r).core)
  {
    hide ConfigsValid, StateAgrees, Send, Acknowledge, Reject;
  }

  lemma RebootNowKeeps(w: Work, env: Env, r: Packet)
    requires Sound(w.core)
    ensures Sound(RebootNow(w, env, r).core)
  {
    hide ConfigsValid, StateAgrees, Send, Acknowledge, Reject;
  }

  lemma RejectKeeps(w: Work, env: Env, r: Packet, code: ErrorCode)
    requires Sound(w.core)
    ensures Sound(Reject(w, env, r, code).core)
  {
    hide ConfigsValid, StateAgrees, RejectVia;
  }

  lemma LoadKeeps(w: Work, env: Env)
    requires ConfigsValid(w.core.settings)
    ensures ConfigsValid(LoadStored(w, env).core.settings) && LoadStored(w, env).core.cache == w.core.cache
    ensures
      var d := LoadStored(w, env).core.drive;
      d == w.core.drive.(state := d.state)
  {
    hide IsValid, Send, Notify, TransitionTo, SetFault, Acknowledge, Reject, RejectVia;
  }

  lemma BeginEstablishes(defaults: ActuatorConfig, env: Env)
    requires IsValid(defaults)
    ensures Invariant(Begin(defaults, env).core)
  {
    hide IsValid, LoadStored, PowerUp, StateAgrees;
    LoadKeeps(Start(Fresh(defaults, env)), env);
    PowerUpKeeps(LoadStored(Start(Fresh(defaults, env)), env), env);
  }

  lemma PowerUpKeeps(w: Work, env: Env)
    requires ConfigsValid(w.core.settings) && !w.core.drive.enabled && w.core.drive.mode == ModeDisabled
    ensures Sound(PowerUp(w, env).core) && PowerUp(w, env).core.cache == w.core.cache
  {
    hide IsValid, ConfigsValid, Notify, TransitionTo, SetFault;
  }

  lemma FinishMotionKeeps(w: Work, env: Env, via: Writer)
    requires Sound(w.core)
    ensures Sound(FinishMotion(w, env, via).core) && FinishMotion(w, env, via).core.cache == w.core.cache
  {
    hide IsValid, Send, Notify, TransitionTo, SetFault, Acknowledge, Reject, RejectVia;
  }

  lemma CheckHostKeeps(w: Work, env: Env, via: Writer)
    requires Sound(w.core)
    ensures Sound(CheckHost(w, env, via).core) && CheckHost(w, env, via).core.cache == w.core.cache
  {
    hide IsValid, Send, Notify, TransitionTo, SetFault, Acknowledge, Reject, RejectVia;
  }

  lemma UpdateKeeps(c: Core, env: Env, via: Writer)
    requires Invariant(c)
    ensures Invariant(Update(c, env, via).core)
  {
    var w := AnnounceBoot(Start(c), env, via);
    hide Sound, Notify, FinishMotion, CheckHost;
    assert Sound(w.core) by { AnnounceBootKeeps(c, env, via); }
    FinishMotionKeeps(w, env, via);
    CheckHostKeeps(FinishMotion(w, env, via), env, via);
  }

  lemma AnnounceBootKeeps(c: Core, env: Env, via: Writer)
    requires Sound(c)
    ensures Sound(AnnounceBoot(Start(c), env, via).core)
  {
    hide ConfigsValid, StateAgrees, Notify;
  }

  /** Whatever the host sends and the backend answers, every step keeps the invariant. */
  lemma StepKeepsInvariant(c: Core, env: Env, a: Action)
    requires Invariant(c)
    ensures Invariant(Step(c, env, a).core)
  {
    hide ConfigsValid, StateAgrees, Send, Notify, TransitionTo, RejectVia, Dispatch, Update, Begin;
    match a
    case Handle(r) =>
      if !IsRepeat(c, r) {
        var seen := c.(lastHostMs := Now(env), counters := c.counters.(commands := Add32(c.counters.commands, 1)));
        DispatchKeeps(Start(seen), env, r);
      }
    case Tick(writer) => UpdateKeeps(c, env, if writer then Direct else NoWriter);
    case FrameFailed(error) => FrameErrorKeeps(c, env, error);
    case Telemetry(_) =>
    case Restart =>
      DefaultsValid(c);
      BeginEstablishes(c.settings.defaults, env);
  }

  lemma FrameErrorKeeps(c: Core, env: Env, error: FrameError)
    requires Sound(c)
    ensures Sound(RecordFrameError(c, env, error).core)
    ensures RecordFrameError(c, env, error).core.cache == c.cache
  {
    hide IsValid, Send, Notify, TransitionTo, SetFault, Acknowledge, Reject, RejectVia;
  }

  lemma DefaultsValid(c: Core)
    requires Sound(c)
    ensures IsValid(c.settings.defaults)
  {
    hide IsValid;
  }

  // ----- Applying a staged configuration -----

  /** The one thing that can keep a staged configuration from being applied out of motion. */
  predicate DriverRefuses(c: Core, env: Env) { DriverChanged(c) && env.configureDriver == Returned(false) }

  lemma ApplyStagedAdopts(w: Work, env: Env, r: Packet)
    requires IsValid(w.core.settings.staged) && w.core.settings.isStaged && !w.core.drive.InMotion()
        && w.responses == []
    ensures
      var w' := ApplyStaged(w, env, r);
      if DriverRefuses(w.core, env)
      then w'.core.settings == w.core.settings && w'.core.drive.state == Faulted
          && w'.responses == [Outgoing(r.number, Error(r.msgId, BadState))]
      else
        && w'.core.settings == w.core.settings.(active := w.core.settings.staged, isStaged := false)
        && w'.core.drive.state == (if w.core.drive.enabled then Idle else Disabled)
        && w'.responses == [Outgoing(r.number, Ack(r.msgId))]
  {
    hide IsValid, DriverChanged;
  }

  /**
    What was staged was validated then and is still valid, so out of motion an apply is refused only by the driver: in
    every other case the staged configuration becomes the active one, and is acknowledged.
   */
  lemma ApplyAlwaysValid(c: Core, env: Env, r: Packet)
    requires Invariant(c) && !IsRepeat(c, r) && r.msgId == CONFIG_APPLY && r.payload == []
    requires c.settings.isStaged && !c.drive.InMotion()
    ensures
      var w := HandlePacket(c, env, r);
      if DriverRefuses(c, env)
      then w.core.settings == c.settings && w.core.drive.state == Faulted
          && w.responses == [Outgoing(r.number, Error(r.msgId, BadState))]
      else
        && w.core.settings == c.settings.(active := c.settings.staged, isStaged := false)
        && w.core.drive.state == (if c.drive.enabled then Idle else Disabled)
        && w.responses == [Outgoing(r.number, Ack(r.msgId))]
  {
    hide IsValid, DriverChanged, ApplyStaged;
    var seen := Start(c.(lastHostMs := Now(env), counters := c.counters.(commands := Add32(c.counters.commands, 1))));
    SameDriverChange(c, seen.core);
    ApplyDispatch(seen, env, r);
    ApplyStagedAdopts(seen, env, r);
    hide Dispatch;
  }

  lemma SameDriverChange(c: Core, d: Core)
    requires c.settings == d.settings
    ensures DriverChanged(c) <==> DriverChanged(d)
  {}

  lemma ApplyDispatch(w: Work, env: Env, r: Packet)
    requires r.msgId == CONFIG_APPLY && r.payload == []
    ensures Dispatch(w, env, r) == ApplyStaged(w, env, r)
  {
    hide ApplyStaged, Send, RejectVia;
  }
}
