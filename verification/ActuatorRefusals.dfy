/** Which requests are refused, with which error, and that all others are not. */
module ActuatorRefusals {
  import opened Bytes
  import opened Config
  import opened Protocol
  import opened ActuatorTypes
  import opened ActuatorSteps
  import opened ActuatorInvariant
  import opened ActuatorAnswers

  /** The payload each kind of request takes; other kinds are not known. */
  function PayloadLength(msgId: byte): Option<nat> {
    if msgId in {PING, GET_IDENTITY, GET_CAPABILITIES, GET_STATUS, GET_FAULTS, GET_COUNTERS, HEARTBEAT, ESTOP,
                 CLEAR_FAULTS, CONFIG_APPLY, CONFIG_SAVE, CONFIG_RESET_DEFAULTS, REBOOT, GET_DRIVER_STATUS} then Some(0)
    else if msgId == SET_CONTROL_MODE then Some(1)
    else if msgId == CONFIG_QUERY || msgId == SET_TELEM_RATE then Some(2)
    else if msgId == RAMP_STOP then Some(4)
    else if msgId == CONFIG_STAGE_FIELD then Some(6)
    else if msgId == RUN_VEL then Some(8)
    else if msgId == MOVE_ABS || msgId == MOVE_REL then Some(12)
    else None
  }

  predicate IsReserved(f: ConfigField) { f.PositionOffset? || f.HomePosition? || f.EnableTimeoutMs? }

  // Why each kind of well-formed request is refused, if it is.

  function ModeRefusal(c: Core, env: Env, mode: byte): Option<ErrorCode> {
    if mode > 3 then Some(OutOfRange)
    else if c.drive.state == Faulted && mode != 0 then Some(IsFaulted)
    else if c.drive.state in {MovingPosition, RunningVelocity, Stopping} then Some(Busy)
    else if mode != 0 && (env.configureDriver == Returned(false) || env.enableDriver == Returned(false)) then
      Some(BadState)
    else None
  }

  function StopRefusal(c: Core, env: Env): Option<ErrorCode> {
    var moving := c.drive.state in {MovingPosition, RunningVelocity, Stopping} || env.motionActive == Returned(true);
    if moving && env.rampStop != Returned(true) then Some(BadState) else None
  }

  function StageRefusal(c: Core, raw: uint16, value: int32): Option<ErrorCode> {
    match FieldOf(raw)
    case None => Some(InvalidField)
    case Some(f) =>
      if IsReserved(f) then Some(Unsupported)
      else if !Acceptable(c.settings.staged, f, value) then Some(OutOfRange)
      else None
  }

  function ApplyRefusal(c: Core, env: Env): Option<ErrorCode> {
    if !c.settings.isStaged then None
    else if c.drive.state in {MovingPosition, RunningVelocity, Stopping} then Some(Busy)
    else if DriverChanged(c) && env.configureDriver == Returned(false) then Some(BadState)
    else None
  }

  function ResetRefusal(c: Core, env: Env): Option<ErrorCode> {
    if c.drive.state in {MovingPosition, RunningVelocity, Stopping} then Some(Busy)
    else if env.configureDriver == Returned(false) then Some(BadState)
    else if env.resetStorage == Returned(false) then Some(Storage)
    else None
  }

  function MotionRefusalOf(c: Core, env: Env, r: Packet): Option<ErrorCode> {
    if c.drive.state == Faulted then Some(IsFaulted)
    else if !c.drive.enabled || c.settings.isStaged then Some(BadState)
    else if c.drive.state == Stopping || OtherMotion(c, r) then Some(Busy)
    else if !MotionFits(c, env, r) then Some(OutOfRange)
    else if !BackendAgrees(env, r) then Some(BadState)
    else None
  }

  function RefusalOf(c: Core, env: Env, r: Packet): Option<ErrorCode> {
    match PayloadLength(r.msgId)
    case None => Some(Unsupported)
    case Some(length) =>
      if |r.payload| != length then Some(Malformed)
      else if r.msgId == SET_CONTROL_MODE then ModeRefusal(c, env, r.payload[0])
      else if r.msgId == RAMP_STOP then StopRefusal(c, env)
      else if r.msgId == CONFIG_QUERY then (if FieldOf(U16At(r.payload, 0)) == None then Some(InvalidField) else None)
      else if r.msgId == CONFIG_STAGE_FIELD then StageRefusal(c, U16At(r.payload, 0), I32At(r.payload, 2))
      else if r.msgId == CONFIG_APPLY then ApplyRefusal(c, env)
      else if r.msgId == CONFIG_SAVE then (if env.saveConfig == Returned(true) then None else Some(Storage))
      else if r.msgId == CONFIG_RESET_DEFAULTS then ResetRefusal(c, env)
      else if r.msgId == MOVE_ABS || r.msgId == MOVE_REL || r.msgId == RUN_VEL then MotionRefusalOf(c, env, r)
      else None
  }

  /** The last packet sent is the answer: the error, or no error. */
  ghost predicate AnsweredWith(w': Work, r: Packet, refusal: Option<ErrorCode>) {
    w'.sent != [] &&
    (var answer := w'.sent[|w'.sent| - 1];
     && answer.number == r.number
     && match refusal
        case Some(code) => answer.message == Error(r.msgId, code)
        case None => !answer.message.Error?)
  }

  // ----- Command by command -----

  lemma InquireRefusal(w: Work, env: Env, r: Packet)
    requires Sound(w.core) && (r.msgId < SET_CONTROL_MODE || r.msgId == GET_DRIVER_STATUS)
    requires TakesNoPayload(r.msgId) ==> r.payload == []
    ensures AnsweredWith(Inquire(w, env, r), r, RefusalOf(w.core, env, r))
  {
    hide IsValid, Sound, Send, Notify, TransitionTo, SetFault, Acknowledge, Reject, RejectVia, I32At, U32At, U16At,
         FromBackend, LogicalPosition;
  }

  lemma SetControlModeRefusal(w: Work, env: Env, r: Packet)
    requires Sound(w.core) && r.msgId == SET_CONTROL_MODE
    ensures AnsweredWith(SetControlMode(w, env, r), r, RefusalOf(w.core, env, r))
  {
    hide IsValid, Sound, Send, Notify, TransitionTo, SetFault, Acknowledge, Reject, RejectVia, I32At, U32At, U16At;
  }

  lemma EmergencyStopRefusal(w: Work, env: Env, r: Packet)
    requires Sound(w.core) && r.msgId == ESTOP && r.payload == []
    ensures AnsweredWith(EmergencyStopNow(w, env, r), r, RefusalOf(w.core, env, r))
  {
    hide IsValid, Sound, Send, Notify, TransitionTo, SetFault, Acknowledge, Reject, RejectVia, I32At, U32At, U16At;
  }

  lemma RampStopRefusal(w: Work, env: Env, r: Packet)
    requires Sound(w.core) && r.msgId == RAMP_STOP
    ensures AnsweredWith(RampStopNow(w, env, r), r, RefusalOf(w.core, env, r))
  {
    hide IsValid, Sound, Send, Notify, TransitionTo, SetFault, Acknowledge, Reject, RejectVia, I32At, U32At, U16At;
  }

  lemma ClearFaultsRefusal(w: Work, env: Env, r: Packet)
    requires Sound(w.core) && r.msgId == CLEAR_FAULTS && r.payload == []
    ensures AnsweredWith(ClearFaults(w, env, r), r, RefusalOf(w.core, env, r))
  {
    hide IsValid, Sound, Send, Notify, TransitionTo, SetFault, Acknowledge, Reject, RejectVia, I32At, U32At, U16At;
  }

  lemma ReportFieldRefusal(w: Work, env: Env, r: Packet)
    requires Sound(w.core) && r.msgId == CONFIG_QUERY
    ensures AnsweredWith(ReportField(w, env, r), r, RefusalOf(w.core, env, r))
  {
    hide IsValid, Sound, Send, Notify, TransitionTo, SetFault, Acknowledge, Reject, RejectVia, I32At, U32At, U16At,
         FieldOf, FieldValue, FieldMutability;
  }

  /** The packet edits what is staged, or if nothing is, the active configuration, which is then the same. */
  lemma StageRequestIs(c: Core, env: Env, r: Packet)
    requires Sound(c) && r.msgId == CONFIG_STAGE_FIELD
    ensures match StageRequest(c, r)
            case StageRefused(code) => RefusalOf(c, env, r) == Some(code)
            case StageAccepted(_) => RefusalOf(c, env, r) == None
  {
    hide IsValid, Validate, StageField, I32At, U16At, Acceptable;
    if |r.payload| == 6 && FieldOf(U16At(r.payload, 0)).Some? {
      StagingBounds(c.settings.staged, FieldOf(U16At(r.payload, 0)).value, I32At(r.payload, 2));
    }
  }

  lemma StageRefusalIs(w: Work, env: Env, r: Packet)
    requires Sound(w.core) && r.msgId == CONFIG_STAGE_FIELD
    ensures AnsweredWith(Stage(w, env, r), r, RefusalOf(w.core, env, r))
  {
    StageRequestIs(w.core, env, r);
    hide IsValid, Sound, Send, Notify, TransitionTo, SetFault, Acknowledge, Reject, RejectVia, I32At, U32At, U16At,
         StageRequest, RefusalOf, Held;
  }

  lemma ApplyRefusalIs(w: Work, env: Env, r: Packet)
    requires Sound(w.core) && r.msgId == CONFIG_APPLY && r.payload == []
    ensures AnsweredWith(ApplyStaged(w, env, r), r, RefusalOf(w.core, env, r))
  {
    hide Send, Notify, TransitionTo, SetFault, Acknowledge, Reject, RejectVia, IsValid, DriverChanged;
  }

  lemma SaveRefusalIs(w: Work, env: Env, r: Packet)
    requires Sound(w.core) && r.msgId == CONFIG_SAVE && r.payload == []
    ensures AnsweredWith(SaveActive(w, env, r), r, RefusalOf(w.core, env, r))
  {
    hide IsValid, Sound, Send, Notify, TransitionTo, SetFault, Acknowledge, Reject, RejectVia, I32At, U32At, U16At;
  }

  lemma ResetRefusalIs(w: Work, env: Env, r: Packet)
    requires Sound(w.core) && r.msgId == CONFIG_RESET_DEFAULTS && r.payload == []
    ensures AnsweredWith(ResetDefaults(w, env, r), r, RefusalOf(w.core, env, r))
  {
    hide IsValid, Sound, Send, Notify, TransitionTo, SetFault, Acknowledge, Reject, RejectVia, I32At, U32At, U16At;
  }

  lemma RebootRefusalIs(w: Work, env: Env, r: Packet)
    requires Sound(w.core) && r.msgId == REBOOT && r.payload == []
    ensures AnsweredWith(RebootNow(w, env, r), r, RefusalOf(w.core, env, r))
  {
    hide IsValid, Sound, Send, Notify, TransitionTo, SetFault, Acknowledge, Reject, RejectVia, I32At, U32At, U16At;
  }

  lemma TelemetryRefusalIs(w: Work, env: Env, r: Packet)
    requires Sound(w.core) && r.msgId == SET_TELEM_RATE
    ensures AnsweredWith(SetTelemetryRate(w, env, r), r, RefusalOf(w.core, env, r))
  {
    hide IsValid, Sound, Send, Notify, TransitionTo, SetFault, Acknowledge, Reject, RejectVia, I32At, U32At, U16At;
  }

  lemma MoveAbsRefusalIs(w: Work, env: Env, r: Packet)
    requires Sound(w.core) && r.msgId == MOVE_ABS
    ensures AnsweredWith(MoveAbs(w, env, r), r, RefusalOf(w.core, env, r))
  {
    RefusalCode(w.core, ModePosition, r);
    if |r.payload| == 12 {
      MirrorIsExact(w.core.settings.active, I32At(r.payload, 0));
    }
    hide IsValid, Sound, Send, Notify, TransitionTo, SetFault, Acknowledge, Reject, RejectVia, I32At, U32At, U16At,
         MotionRefusal, WithinLimits, ToBackend, HasMirror, LogicalPosition;
  }

  lemma MoveRelFits(c: Core, env: Env, r: Packet)
    requires r.msgId == MOVE_REL && |r.payload| == 12
    ensures
      var config, delta := c.settings.active, I32At(r.payload, 0);
      var target := LogicalPosition(config, env) as int + delta as int;
      MotionFits(c, env, r) <==>
        && INT32_MIN <= target <= INT32_MAX && WithinLimits(config, U32At(r.payload, 4), U32At(r.payload, 8))
        && !SoftLimitViolation(config, target) && ToBackend(config, delta).Some?
  {
    MirrorIsExact(c.settings.active, I32At(r.payload, 0));
    hide WithinLimits, ToBackend, HasMirror, LogicalPosition, I32At, U32At;
  }

  lemma MoveRelRefusalIs(w: Work, env: Env, r: Packet)
    requires Sound(w.core) && r.msgId == MOVE_REL
    ensures AnsweredWith(MoveRel(w, env, r), r, RefusalOf(w.core, env, r))
  {
    RefusalCode(w.core, ModePosition, r);
    if |r.payload| == 12 {
      MoveRelFits(w.core, env, r);
    }
    hide IsValid, Sound, Send, Notify, TransitionTo, SetFault, Acknowledge, Reject, RejectVia, I32At, U32At, U16At,
         MotionRefusal, MotionFits, WithinLimits, SoftLimitViolation, ToBackend, LogicalPosition;
  }

  lemma RunVelRefusalIs(w: Work, env: Env, r: Packet)
    requires Sound(w.core) && r.msgId == RUN_VEL
    ensures AnsweredWith(RunVel(w, env, r), r, RefusalOf(w.core, env, r))
  {
    RefusalCode(w.core, ModeVelocity, r);
    if |r.payload| == 8 {
      MirrorIsExact(w.core.settings.active, I32At(r.payload, 0));
    }
    hide IsValid, Sound, Send, Notify, TransitionTo, SetFault, Acknowledge, Reject, RejectVia, I32At, U32At, U16At,
         MotionRefusal, WithinLimits, ToBackend, HasMirror, LogicalPosition;
  }

  lemma RefusalCode(c: Core, requested: Mode, r: Packet)
    requires AsksForMotion(r) && requested == (if r.msgId == RUN_VEL then ModeVelocity else ModePosition)
    ensures MotionRefusal(c, requested) ==
      if c.drive.state == Faulted then Some(IsFaulted)
      else if !c.drive.enabled || c.settings.isStaged then Some(BadState)
      else if c.drive.state == Stopping || OtherMotion(c, r) then Some(Busy)
      else None
  {}

  lemma DispatchRefusal(w: Work, env: Env, r: Packet)
    requires Sound(w.core)
    ensures AnsweredWith(Dispatch(w, env, r), r, RefusalOf(w.core, env, r))
  {
    hide AnsweredWith, Sound, Reject, ModeRefusal, StopRefusal, StageRefusal, ApplyRefusal, ResetRefusal,
         MotionRefusalOf, Inquire, SetControlMode, EmergencyStopNow, RampStopNow, ClearFaults, ReportField, Stage,
         ApplyStaged, SaveActive, ResetDefaults, RebootNow, MoveAbs, MoveRel, RunVel, SetTelemetryRate, Unknown;
    if TakesNoPayload(r.msgId) && r.payload != [] {
      MalformedRefusal(w, env, r);
    } else if r.msgId < SET_CONTROL_MODE || r.msgId == GET_DRIVER_STATUS {
      InquireRefusal(w, env, r);
    } else if r.msgId == SET_CONTROL_MODE {
      SetControlModeRefusal(w, env, r);
    } else if r.msgId == ESTOP {
      EmergencyStopRefusal(w, env, r);
    } else if r.msgId == RAMP_STOP {
      RampStopRefusal(w, env, r);
    } else if r.msgId == CLEAR_FAULTS {
      ClearFaultsRefusal(w, env, r);
    } else if r.msgId == CONFIG_QUERY {
      ReportFieldRefusal(w, env, r);
    } else if r.msgId == CONFIG_STAGE_FIELD {
      StageRefusalIs(w, env, r);
    } else if r.msgId == CONFIG_APPLY {
      ApplyRefusalIs(w, env, r);
    } else if r.msgId == CONFIG_SAVE {
      SaveRefusalIs(w, env, r);
    } else if r.msgId == CONFIG_RESET_DEFAULTS {
      ResetRefusalIs(w, env, r);
    } else if r.msgId == REBOOT {
      RebootRefusalIs(w, env, r);
    } else if r.msgId == MOVE_ABS {
      MoveAbsRefusalIs(w, env, r);
    } else if r.msgId == MOVE_REL {
      MoveRelRefusalIs(w, env, r);
    } else if r.msgId == RUN_VEL {
      RunVelRefusalIs(w, env, r);
    } else if r.msgId == SET_TELEM_RATE {
      TelemetryRefusalIs(w, env, r);
    } else {
      UnknownRefusal(w, env, r);
    }
  }

  lemma MalformedRefusal(w: Work, env: Env, r: Packet)
    requires TakesNoPayload(r.msgId) && r.payload != []
    ensures AnsweredWith(Reject(w, env, r, Malformed), r, RefusalOf(w.core, env, r))
  {
    hide RejectVia;
  }

  lemma UnknownRefusal(w: Work, env: Env, r: Packet)
    requires PayloadLength(r.msgId) == None
    ensures AnsweredWith(Unknown(w, env, r), r, RefusalOf(w.core, env, r))
  {
    hide Reject, SetFault;
  }

  lemma SameRefusal(c: Core, d: Core, env: Env, r: Packet)
    requires c.settings == d.settings && c.drive == d.drive
    ensures RefusalOf(c, env, r) == RefusalOf(d, env, r)
  {
    hide Acceptable, WithinLimits, I32At, U32At, U16At;
  }

  /**
    Every packet that is not a repeat is answered last, with its number: an error exactly when `RefusalOf` gives it.
   */
  lemma RefusedExactly(c: Core, env: Env, r: Packet)
    requires Invariant(c) && !IsRepeat(c, r)
    ensures AnsweredWith(HandlePacket(c, env, r), r, RefusalOf(c, env, r))
  {
    var seen := c.(lastHostMs := Now(env), counters := c.counters.(commands := Add32(c.counters.commands, 1)));
    SameRefusal(c, seen, env, r);
    hide Dispatch, RefusalOf, ConfigsValid, StateAgrees;
    DispatchRefusal(Start(seen), env, r);
  }
}
