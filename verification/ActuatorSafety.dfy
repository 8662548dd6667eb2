/** When the actuator moves the motor, when it cannot, and how it leaves the faulted state. */
module ActuatorSafety {
  import opened Bytes
  import opened Config
  import opened Protocol
  import opened ActuatorTypes
  import opened ActuatorSteps

  // ----- Bounds of a motion call -----

  /** Where a backend position lies on the logical axis, over the unbounded integers. */
  function OnLogicalAxis(c: ActuatorConfig, backend: int): int {
    if c.calibration.directionInverted then -backend else backend
  }

  predicate WithinSoftLimits(c: ActuatorConfig, logical: int) {
    !c.motion.softLimitsEnabled || c.motion.softMin <= logical <= c.motion.softMax
  }

  /** The one position whose mirror image the 32-bit logical axis cannot represent. */
  predicate AtUnmirroredPosition(c: ActuatorConfig, position: int32) {
    c.calibration.directionInverted && position == INT32_MIN
  }

  predicate MayMove(c: Core) {
    c.drive.enabled && !c.settings.isStaged && c.drive.state != Faulted && c.drive.state != Stopping
  }

  /** What holds of every motion call, in terms of the actuator before the step and of the position reported in it. */
  predicate InBounds(c: Core, env: Env, call: Call)
    requires call.IsMotion()
  {
    var config := c.settings.active;
    && MayMove(c)
    && match call
       case MoveAbsolute(target, velocity, accel, _) =>
         && c.drive.state != RunningVelocity
         && WithinLimits(config, velocity, accel)
         && WithinSoftLimits(config, OnLogicalAxis(config, target))
       case MoveRelative(delta, velocity, accel, _) =>
         var position := env.position.Or(0);
         var endpoint := OnLogicalAxis(config, position + delta);
         && c.drive.state != RunningVelocity
         && WithinLimits(config, velocity, accel)
         && (if AtUnmirroredPosition(config, position) then WithinSoftLimits(config, endpoint - 1)
             else WithinSoftLimits(config, endpoint))
         && INT32_MIN <= endpoint <= INT32_MAX + (if AtUnmirroredPosition(config, position) then 1 else 0)
       case RunVelocity(speed, accel, _) =>
         && c.drive.state != MovingPosition
         && WithinLimits(config, Magnitude(speed), accel)
  }

  ghost predicate AllInBounds(c: Core, env: Env, calls: seq<Call>) {
    forall i :: 0 <= i < |calls| && calls[i].IsMotion() ==> InBounds(c, env, calls[i])
  }

  ghost predicate NoMotion(calls: seq<Call>) {
    forall i :: 0 <= i < |calls| ==> !calls[i].IsMotion()
  }

  lemma MoveAbsBounded(w: Work, env: Env, r: Packet)
    requires w.calls == []
    ensures AllInBounds(w.core, env, MoveAbs(w, env, r).calls)
  {
    hide Send, Notify, TransitionTo, SetFault, Acknowledge, Reject, RejectVia;
  }

  lemma MoveRelBounded(w: Work, env: Env, r: Packet)
    requires w.calls == []
    ensures AllInBounds(w.core, env, MoveRel(w, env, r).calls)
  {
    hide Send, Notify, TransitionTo, SetFault, Acknowledge, Reject, RejectVia;
  }

  lemma RunVelBounded(w: Work, env: Env, r: Packet)
    requires w.calls == []
    ensures AllInBounds(w.core, env, RunVel(w, env, r).calls)
  {
    hide Send, Notify, TransitionTo, SetFault, Acknowledge, Reject, RejectVia;
  }

  // ----- What a command may change -----

  /** A request for a mode that moves, which the state does not refuse, and both driver calls succeed. */
  predicate Enables(c: Core, env: Env, r: Packet) {
    && r.msgId == SET_CONTROL_MODE
    && |r.payload| == 1 && 1 <= r.payload[0] <= 3
    && c.drive.state != Faulted && !c.drive.InMotion()
    && env.configureDriver.Or(true) && env.enableDriver.Or(true)
  }

  /** A request and answers that take a faulted actuator out of the faulted state. */
  predicate LeavesFaulted(c: Core, env: Env, r: Packet) {
    || (r.msgId == CLEAR_FAULTS && r.payload == [])
    || (r.msgId == SET_CONTROL_MODE && r.payload == [0])
    || (r.msgId == CONFIG_STAGE_FIELD && StageRequest(c, r).StageAccepted?)
    || (r.msgId == CONFIG_APPLY && r.payload == [] && c.settings.isStaged && IsValid(c.settings.staged)
        && (!DriverChanged(c) || env.configureDriver.Or(true)))
    || (r.msgId == RAMP_STOP && |r.payload| == 4 && env.motionActive.Or(false) && env.rampStop.Or(false))
  }

  predicate Permitted(w: Work, env: Env, r: Packet, w': Work) {
    && (!w.core.drive.enabled ==> (w'.core.drive.enabled <==> Enables(w.core, env, r)))
    && (w.core.drive.state == Faulted ==> (w'.core.drive.state != Faulted <==> LeavesFaulted(w.core, env, r)))
  }

  lemma InquirePermitted(w: Work, env: Env, r: Packet)
    requires r.msgId < SET_CONTROL_MODE || r.msgId == GET_DRIVER_STATUS
    ensures Permitted(w, env, r, Inquire(w, env, r))
    ensures NoMotion(w.calls) ==> NoMotion(Inquire(w, env, r).calls)
  {
    hide IsValid, Send, Notify, TransitionTo, SetFault, Acknowledge, Reject, RejectVia;
  }

  lemma SetControlModePermitted(w: Work, env: Env, r: Packet)
    requires r.msgId == SET_CONTROL_MODE
    ensures Permitted(w, env, r, SetControlMode(w, env, r))
    ensures NoMotion(w.calls) ==> NoMotion(SetControlMode(w, env, r).calls)
  {
    hide Framed, IsValid, TransitionTo, Acknowledge, Reject, EnableInMode;
    if |r.payload| == 1 && r.payload[0] <= 3 {
      EnableInModeSwitches(WithMode(w, ModeOf(r.payload[0])), env, r);
    }
  }

  lemma EnableInModeSwitches(w: Work, env: Env, r: Packet)
    ensures
      var w' := EnableInMode(w, env, r);
      && (NoMotion(w.calls) ==> NoMotion(w'.calls))
      && (if env.configureDriver.Or(true) && env.enableDriver.Or(true)
          then w'.core.drive.enabled && w'.core.drive.state != Faulted
          else w'.core.drive.enabled == w.core.drive.enabled && w'.core.drive.state == Faulted)
  {
    hide Framed, TransitionTo, SetFault, Acknowledge, Reject;
  }

  lemma EmergencyStopNowPermitted(w: Work, env: Env, r: Packet)
    requires r.msgId == ESTOP
    requires r.payload == []
    ensures Permitted(w, env, r, EmergencyStopNow(w, env, r))
    ensures NoMotion(w.calls) ==> NoMotion(EmergencyStopNow(w, env, r).calls)
  {
    hide IsValid, Send, Notify, TransitionTo, SetFault, Acknowledge, Reject, RejectVia;
  }

  lemma RampStopNowPermitted(w: Work, env: Env, r: Packet)
    requires r.msgId == RAMP_STOP
    ensures Permitted(w, env, r, RampStopNow(w, env, r))
    ensures NoMotion(w.calls) ==> NoMotion(RampStopNow(w, env, r).calls)
  {
    hide IsValid, Send, Notify, TransitionTo, SetFault, Acknowledge, Reject, RejectVia;
  }

  lemma ClearFaultsPermitted(w: Work, env: Env, r: Packet)
    requires r.msgId == CLEAR_FAULTS
    requires r.payload == []
    ensures Permitted(w, env, r, ClearFaults(w, env, r))
    ensures NoMotion(w.calls) ==> NoMotion(ClearFaults(w, env, r).calls)
  {
    hide IsValid, Send, Notify, TransitionTo, SetFault, Acknowledge, Reject, RejectVia;
  }

  lemma ReportFieldPermitted(w: Work, env: Env, r: Packet)
    requires r.msgId == CONFIG_QUERY
    ensures Permitted(w, env, r, ReportField(w, env, r))
    ensures NoMotion(w.calls) ==> NoMotion(ReportField(w, env, r).calls)
  {
    hide IsValid, Send, Notify, TransitionTo, SetFault, Acknowledge, Reject, RejectVia;
  }

  lemma StagePermitted(w: Work, env: Env, r: Packet)
    requires r.msgId == CONFIG_STAGE_FIELD
    ensures Permitted(w, env, r, Stage(w, env, r))
    ensures NoMotion(w.calls) ==> NoMotion(Stage(w, env, r).calls)
  {
    hide IsValid, Send, Notify, TransitionTo, SetFault, Acknowledge, Reject, RejectVia, StageRequest;
  }

  lemma ApplyStagedPermitted(w: Work, env: Env, r: Packet)
    requires r.msgId == CONFIG_APPLY
    requires r.payload == []
    ensures Permitted(w, env, r, ApplyStaged(w, env, r))
    ensures NoMotion(w.calls) ==> NoMotion(ApplyStaged(w, env, r).calls)
  {
    hide IsValid, Send, Notify, TransitionTo, SetFault, Acknowledge, Reject, RejectVia;
  }

  lemma SaveActivePermitted(w: Work, env: Env, r: Packet)
    requires r.msgId == CONFIG_SAVE
    requires r.payload == []
    ensures Permitted(w, env, r, SaveActive(w, env, r))
    ensures NoMotion(w.calls) ==> NoMotion(SaveActive(w, env, r).calls)
  {
    hide IsValid, Send, Notify, TransitionTo, SetFault, Acknowledge, Reject, RejectVia;
  }

  lemma ResetDefaultsPermitted(w: Work, env: Env, r: Packet)
    requires r.msgId == CONFIG_RESET_DEFAULTS
    requires r.payload == []
    ensures Permitted(w, env, r, ResetDefaults(w, env, r))
    ensures NoMotion(w.calls) ==> NoMotion(ResetDefaults(w, env, r).calls)
  {
    hide IsValid, Send, Notify, TransitionTo, SetFault, Acknowledge, Reject, RejectVia;
  }

  lemma RebootNowPermitted(w: Work, env: Env, r: Packet)
    requires r.msgId == REBOOT
    requires r.payload == []
    ensures Permitted(w, env, r, RebootNow(w, env, r))
    ensures NoMotion(w.calls) ==> NoMotion(RebootNow(w, env, r).calls)
  {
    hide IsValid, Send, Notify, TransitionTo, SetFault, Acknowledge, Reject, RejectVia;
  }

  lemma MoveAbsPermitted(w: Work, env: Env, r: Packet)
    requires r.msgId == MOVE_ABS
    ensures Permitted(w, env, r, MoveAbs(w, env, r))
  {
    hide IsValid, Send, Notify, TransitionTo, SetFault, Acknowledge, Reject, RejectVia;
  }

  lemma MoveRelPermitted(w: Work, env: Env, r: Packet)
    requires r.msgId == MOVE_REL
    ensures Permitted(w, env, r, MoveRel(w, env, r))
  {
    hide IsValid, Send, Notify, TransitionTo, SetFault, Acknowledge, Reject, RejectVia;
  }

  lemma RunVelPermitted(w: Work, env: Env, r: Packet)
    requires r.msgId == RUN_VEL
    ensures Permitted(w, env, r, RunVel(w, env, r))
  {
    hide IsValid, Send, Notify, TransitionTo, SetFault, Acknowledge, Reject, RejectVia;
  }

  lemma SetTelemetryRatePermitted(w: Work, env: Env, r: Packet)
    requires r.msgId == SET_TELEM_RATE
    ensures Permitted(w, env, r, SetTelemetryRate(w, env, r))
    ensures NoMotion(w.calls) ==> NoMotion(SetTelemetryRate(w, env, r).calls)
  {
    hide IsValid, Send, Notify, TransitionTo, SetFault, Acknowledge, Reject, RejectVia;
  }

  lemma UnknownPermitted(w: Work, env: Env, r: Packet)
    requires r.msgId !in {CLEAR_FAULTS, SET_CONTROL_MODE, CONFIG_STAGE_FIELD, CONFIG_APPLY, RAMP_STOP}
    ensures Permitted(w, env, r, Unknown(w, env, r))
    ensures NoMotion(w.calls) ==> NoMotion(Unknown(w, env, r).calls)
  {
    hide IsValid, Send, Notify, TransitionTo, SetFault, Acknowledge, Reject, RejectVia;
  }

  lemma RejectPermitted(w: Work, env: Env, r: Packet, code: ErrorCode)
    requires TakesNoPayload(r.msgId) && r.payload != []
    ensures Permitted(w, env, r, Reject(w, env, r, code))
    ensures Reject(w, env, r, code).calls == w.calls
  {
    hide RejectVia;
  }

  lemma DispatchPermitted(w: Work, env: Env, r: Packet)
    requires w.calls == []
    ensures Permitted(w, env, r, Dispatch(w, env, r))
    ensures AllInBounds(w.core, env, Dispatch(w, env, r).calls)
  {
    hide Permitted, InBounds, Send, Notify, RejectVia,
         Inquire, SetControlMode, EmergencyStopNow, RampStopNow, ClearFaults, ReportField, Stage, ApplyStaged,
         SaveActive, ResetDefaults, RebootNow, MoveAbs, MoveRel, RunVel, SetTelemetryRate, Unknown;
    if TakesNoPayload(r.msgId) && r.payload != [] {
      RejectPermitted(w, env, r, Malformed);
    } else if r.msgId < SET_CONTROL_MODE || r.msgId == GET_DRIVER_STATUS {
      InquirePermitted(w, env, r);
    } else if r.msgId == SET_CONTROL_MODE {
      SetControlModePermitted(w, env, r);
    } else if r.msgId == ESTOP {
      EmergencyStopNowPermitted(w, env, r);
    } else if r.msgId == RAMP_STOP {
      RampStopNowPermitted(w, env, r);
    } else if r.msgId == CLEAR_FAULTS {
      ClearFaultsPermitted(w, env, r);
    } else if r.msgId == CONFIG_QUERY {
      ReportFieldPermitted(w, env, r);
    } else if r.msgId == CONFIG_STAGE_FIELD {
      StagePermitted(w, env, r);
    } else if r.msgId == CONFIG_APPLY {
      ApplyStagedPermitted(w, env, r);
    } else if r.msgId == CONFIG_SAVE {
      SaveActivePermitted(w, env, r);
    } else if r.msgId == CONFIG_RESET_DEFAULTS {
      ResetDefaultsPermitted(w, env, r);
    } else if r.msgId == REBOOT {
      RebootNowPermitted(w, env, r);
    } else if r.msgId == MOVE_ABS {
      MoveAbsPermitted(w, env, r);
      MoveAbsBounded(w, env, r);
    } else if r.msgId == MOVE_REL {
      MoveRelPermitted(w, env, r);
      MoveRelBounded(w, env, r);
    } else if r.msgId == RUN_VEL {
      RunVelPermitted(w, env, r);
      RunVelBounded(w, env, r);
    } else if r.msgId == SET_TELEM_RATE {
      SetTelemetryRatePermitted(w, env, r);
    } else {
      UnknownPermitted(w, env, r);
    }
  }

  /** Only a packet that enables the driver enables it, and only the listed packets leave the faulted state. */
  lemma HandlePermitted(c: Core, env: Env, r: Packet)
    ensures
      var w' := HandlePacket(c, env, r);
      && AllInBounds(c, env, w'.calls)
      && (IsRepeat(c, r) ==> w'.calls == [] && w'.core.drive == c.drive)
      && (!c.drive.enabled ==> (w'.core.drive.enabled <==> !IsRepeat(c, r) && Enables(c, env, r)))
      && (c.drive.state == Faulted ==>
            (w'.core.drive.state != Faulted <==> !IsRepeat(c, r) && LeavesFaulted(c, env, r)))
  {
    hide InBounds, Enables, Dispatch, Send, RejectVia;
    if !IsRepeat(c, r) {
      var seen := c.(lastHostMs := Now(env), counters := c.counters.(commands := Add32(c.counters.commands, 1)));
      DispatchPermitted(Start(seen), env, r);
      SameView(c, seen, env, r);
    }
  }

  lemma SameView(c: Core, d: Core, env: Env, r: Packet)
    requires d.settings == c.settings && d.drive == c.drive
    ensures forall call: Call :: call.IsMotion() && InBounds(d, env, call) ==> InBounds(c, env, call)
    ensures LeavesFaulted(d, env, r) == LeavesFaulted(c, env, r) && Enables(d, env, r) == Enables(c, env, r)
  {}

  // ----- The other steps -----

  predicate Calms(w: Work, w': Work) {
    && (w'.core.drive.enabled ==> w.core.drive.enabled)
    && (w.core.drive.state == Faulted ==> w'.core.drive == w.core.drive)
  }

  lemma FinishMotionPermitted(w: Work, env: Env, via: Writer)
    ensures Calms(w, FinishMotion(w, env, via)) && FinishMotion(w, env, via).calls == w.calls
  {
    hide Notify, TransitionTo;
  }

  lemma CheckHostPermitted(w: Work, env: Env, via: Writer)
    ensures Calms(w, CheckHost(w, env, via)) && (NoMotion(w.calls) ==> NoMotion(CheckHost(w, env, via).calls))
  {
    hide Notify, TransitionTo, SetFault;
  }

  lemma UpdatePermitted(c: Core, env: Env, via: Writer)
    ensures
      var w := Update(c, env, via);
      && NoMotion(w.calls)
      && (w.core.drive.enabled ==> c.drive.enabled)
      && (c.drive.state == Faulted ==> w.core.drive == c.drive)
  {
    var w := AnnounceBoot(Start(c), env, via);
    hide Notify, AnnounceBoot, FinishMotion, CheckHost;
    FinishMotionPermitted(w, env, via);
    CheckHostPermitted(FinishMotion(w, env, via), env, via);
  }

  lemma BeginPermitted(defaults: ActuatorConfig, env: Env)
    ensures NoMotion(Begin(defaults, env).calls) && !Begin(defaults, env).core.drive.enabled
  {
    hide Send, Notify, TransitionTo, SetFault, Validate;
  }

  /** The steps that turn a disabled driver on. */
  predicate TurnsOn(c: Core, env: Env, a: Action) {
    a.Handle? && !IsRepeat(c, a.request) && Enables(c, env, a.request)
  }

  /** A driver is turned on exactly by those steps, and FAULTED is left exactly by the listed packets and a restart. */

  lemma StepPermitted(c: Core, env: Env, a: Action)
    ensures
      var w := Step(c, env, a);
      && AllInBounds(c, env, w.calls)
      && (!c.drive.enabled ==> (w.core.drive.enabled <==> TurnsOn(c, env, a)))
      && (c.drive.state == Faulted && !a.Restart? ==>
            (w.core.drive.state != Faulted <==>
               a.Handle? && !IsRepeat(c, a.request) && LeavesFaulted(c, env, a.request)))
  {
    hide InBounds, Enables, LeavesFaulted, Send, Notify, TransitionTo, SetFault, HandlePacket, Update, Begin;
    match a
    case Handle(r) => HandlePermitted(c, env, r);
    case Tick(writer) => UpdatePermitted(c, env, if writer then Direct else NoWriter);
    case FrameFailed(_) =>
    case Telemetry(_) =>
    case Restart => BeginPermitted(c.settings.defaults, env);
  }

  // ----- An emergency stop, and a timeout that disables -----

  /** A handled ESTOP stops the backend, then disables the driver, and leaves the actuator faulted and disabled. */
  lemma EmergencyStopDisables(c: Core, env: Env, r: Packet)
    requires r.msgId == ESTOP && r.payload == [] && !IsRepeat(c, r)
    ensures
      var w := HandlePacket(c, env, r);
      && w.core.drive == Drive(Faulted, ModeDisabled, false)
      && w.calls == (if env.emergencyStop.Absent? then [] else [EmergencyStop])
                  + (if env.enableDriver.Absent? then [] else [EnableDriver(false, env.enableDriver.value)])
  {
    hide Send, Notify, TransitionTo, Acknowledge;
  }

  /** So does a velocity timeout whose configured action is to disable. */
  lemma TimeoutDisables(c: Core, env: Env, via: Writer)
    requires TimedOut(c, Now(env)) && c.settings.active.safety.timeoutAction == ACTION_DISABLE
    ensures
      var w := Update(c, env, via);
      && w.core.drive == Drive(Faulted, ModeDisabled, false) && HostTimeout in w.core.faults
      && w.calls == (if env.emergencyStop.Absent? then [] else [EmergencyStop])
                  + (if env.enableDriver.Absent? then [] else [EnableDriver(false, env.enableDriver.value)])
  {
    hide Send, Notify, TransitionTo, SetFault;
  }

  // ----- The endpoint that direction inversion gets wrong -----

  /** The request that the check of the endpoint lets through although the move ends beyond the upper limit. */
  predicate OvershootsByOne(c: Core, env: Env, r: Packet)
    requires |r.payload| == 12
  {
    && AtUnmirroredPosition(c.settings.active, env.position.Or(0))
    && I32At(r.payload, 0) == c.settings.active.motion.softMax - INT32_MAX
  }

  /**
    A relative move made under soft limits ends within them, except from the one backend position that inversion cannot
    mirror, and from there exactly when the request asks for the move to the upper limit.
   */
  lemma RelativeEndpoint(c: Core, env: Env, r: Packet)
    requires !IsRepeat(c, r) && r.msgId == MOVE_REL && c.settings.active.motion.softLimitsEnabled
    ensures
      var config, calls := c.settings.active, HandlePacket(c, env, r).calls;
      calls != [] ==>
        && calls[0].MoveRelative? && |r.payload| == 12
        && (WithinSoftLimits(config, OnLogicalAxis(config, env.position.Or(0) + calls[0].delta)) <==>
              !OvershootsByOne(c, env, r))
  {
    var seen := Start(c.(lastHostMs := Now(env), counters := c.counters.(commands := Add32(c.counters.commands, 1))));
    RelativeCall(seen, env, r);
    MoveRelDispatch(seen, env, r);
    hide Dispatch, MoveRel, I32At;
  }

  lemma MoveRelDispatch(w: Work, env: Env, r: Packet)
    requires r.msgId == MOVE_REL
    ensures Dispatch(w, env, r) == MoveRel(w, env, r)
  {
    hide MoveRel, RejectVia;
  }

  lemma RelativeCall(w: Work, env: Env, r: Packet)
    requires w.calls == [] && w.core.settings.active.motion.softLimitsEnabled
    ensures
      var config, calls := w.core.settings.active, MoveRel(w, env, r).calls;
      calls != [] ==>
        && calls[0].MoveRelative? && |r.payload| == 12
        && (WithinSoftLimits(config, OnLogicalAxis(config, env.position.Or(0) + calls[0].delta)) <==>
              !OvershootsByOne(w.core, env, r))
  {
    hide Send, Notify, TransitionTo, SetFault, Acknowledge, Reject, RejectVia, I32At, U32At;
  }

  /** From that position a move to the upper limit is accepted, and it ends one step beyond. */
  lemma RelativeEndpointEscapes(c: Core, env: Env, r: Packet)
    requires MayMove(c) && c.drive.state != RunningVelocity && !IsRepeat(c, r)
    requires AtUnmirroredPosition(c.settings.active, env.position.Or(0)) && env.moveRelative == Returned(true)
    requires c.settings.active.motion.softLimitsEnabled
    requires 0 <= c.settings.active.motion.softMax
        && c.settings.active.motion.softMin <= c.settings.active.motion.softMax
    requires r.msgId == MOVE_REL && |r.payload| == 12
    requires I32At(r.payload, 0) == c.settings.active.motion.softMax - INT32_MAX
    requires WithinLimits(c.settings.active, U32At(r.payload, 4), U32At(r.payload, 8))
    ensures
      var calls := HandlePacket(c, env, r).calls;
      && |calls| == 1 && calls[0].MoveRelative?
      && OnLogicalAxis(c.settings.active, env.position.Or(0) + calls[0].delta) == c.settings.active.motion.softMax + 1
  {
    hide Send, Notify, TransitionTo, SetFault, Acknowledge, Reject, RejectVia;
  }
}
