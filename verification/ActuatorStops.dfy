/** How a velocity run ends: exactly which steps leave it behind without asking the backend for a stop. */
module ActuatorStops {
  import opened Bytes
  import opened Config
  import opened Protocol
  import opened ActuatorTypes
  import opened ActuatorSteps
  import opened ActuatorTrace

  predicate IsStop(call: Call) { call.EmergencyStop? || call.RampStop? }

  ghost predicate NoStop(calls: seq<Call>) { forall i :: 0 <= i < |calls| ==> !IsStop(calls[i]) }

  /** The packets after which a velocity run is no longer in progress although no stop was asked for. */
  predicate PacketAbandons(c: Core, env: Env, r: Packet) {
    if TakesNoPayload(r.msgId) && r.payload != [] then false
    else if r.msgId == CLEAR_FAULTS then true
    else if r.msgId == ESTOP then env.emergencyStop.Absent?
    else if r.msgId == RAMP_STOP then |r.payload| == 4 && env.rampStop.Absent?
    else if r.msgId == GET_DRIVER_STATUS then var s := env.driverStatus.Or(NO_STATUS); s.configured && !s.uartOk
    else if r.msgId == CONFIG_SAVE then !env.saveConfig.Or(false)
    else if r.msgId == RUN_VEL then
      && |r.payload| == 8 && MotionRefusal(c, ModeVelocity).None?
      && WithinLimits(c.settings.active, Magnitude(I32At(r.payload, 0)), U32At(r.payload, 4))
      && ToBackend(c.settings.active, I32At(r.payload, 0)).Some? && !env.runVelocity.Or(false)
    else !IsKnown(r.msgId)
  }

  predicate IsKnown(msgId: byte) {
    || TakesNoPayload(msgId) || msgId == SET_CONTROL_MODE || msgId == RAMP_STOP || msgId == CONFIG_QUERY
    || msgId == CONFIG_STAGE_FIELD || msgId == MOVE_ABS || msgId == MOVE_REL || msgId == RUN_VEL
        || msgId == SET_TELEM_RATE
  }

  predicate Abandons(c: Core, env: Env, a: Action) {
    match a
    case Handle(r) => !IsRepeat(c, r) && PacketAbandons(c, env, r)
    case Tick(_) =>
      TimedOut(c, Now(env)) &&
      (if c.settings.active.safety.timeoutAction == ACTION_DISABLE then env.emergencyStop.Absent?
       else env.rampStop.Absent?)
    case FrameFailed(_) => true
    case Telemetry(_) => false
    case Restart => false
  }

  /** A run in progress goes on, is stopped, or is abandoned; its limits stay what they are. */
  ghost predicate RunStep(w: Work, w': Work, abandons: bool) {
    && (w'.core.drive.state != RunningVelocity && NoStop(w'.calls) <==> abandons)
    && w'.core.settings.active == w.core.settings.active.(telemetry := w'.core.settings.active.telemetry)
  }

  ghost predicate Running(w: Work) { w.core.drive.state == RunningVelocity && w.calls == [] }

  lemma StaysRunning(w: Work, env: Env, r: Packet, code: ErrorCode)
    requires Running(w)
    ensures RunStep(w, Reject(w, env, r, code), false) && RunStep(w, Acknowledge(w, env, r), false)
  {
    hide Send, RejectVia;
  }

  lemma ControlWhileRunning(w: Work, env: Env, r: Packet)
    requires Running(w)
    ensures RunStep(w, SetControlMode(w, env, r), false)
    ensures RunStep(w, ClearFaults(w, env, r), true)
  {
    hide Send, Notify, Reject, Acknowledge, TransitionTo, TurnOff, EnableInMode;
  }

  lemma EmergencyStopWhileRunning(w: Work, env: Env, r: Packet)
    requires Running(w)
    ensures RunStep(w, EmergencyStopNow(w, env, r), env.emergencyStop.Absent?)
  {
    hide Send, Acknowledge, TransitionTo;
    var calls := EmergencyStopNow(w, env, r).calls;
    assert env.emergencyStop.Returned? ==> calls != [] && IsStop(calls[0]);
  }

  lemma RampStopWhileRunning(w: Work, env: Env, r: Packet)
    requires Running(w)
    ensures RunStep(w, RampStopNow(w, env, r), |r.payload| == 4 && env.rampStop.Absent?)
  {
    hide Send, Reject, Acknowledge, TransitionTo, SetFault;
    var calls := RampStopNow(w, env, r).calls;
    assert calls != [] ==> IsStop(calls[0]);
  }

  lemma ConfigWhileRunning(w: Work, env: Env, r: Packet)
    requires Running(w)
    ensures RunStep(w, ReportField(w, env, r), false) && RunStep(w, Stage(w, env, r), false)
    ensures RunStep(w, ApplyStaged(w, env, r), false) && RunStep(w, ResetDefaults(w, env, r), false)
    ensures RunStep(w, SetTelemetryRate(w, env, r), false) && RunStep(w, RebootNow(w, env, r), false)
  {
    hide Send, Notify, Reject, Acknowledge, TransitionTo, SetFault, StageRequest, Adopt, IsValid;
  }

  lemma SaveWhileRunning(w: Work, env: Env, r: Packet)
    requires Running(w)
    ensures RunStep(w, SaveActive(w, env, r), !env.saveConfig.Or(false))
  {
    hide Send, Notify, Reject, Acknowledge, SetFault;
  }

  lemma MoveWhileRunning(w: Work, env: Env, r: Packet)
    requires Running(w)
    ensures RunStep(w, MoveAbs(w, env, r), false) && RunStep(w, MoveRel(w, env, r), false)
  {
    hide RunStep, Send, Reject, SetFault, Started, WithinLimits, SoftLimitViolation, ToBackend;
    forall code ensures RunStep(w, Reject(w, env, r, code), false) {
      StaysRunning(w, env, r, code);
    }
  }

  lemma RunVelWhileRunning(w: Work, env: Env, r: Packet)
    requires Running(w) && r.msgId == RUN_VEL
    ensures RunStep(w, RunVel(w, env, r), PacketAbandons(w.core, env, r))
  {
    hide Send, Reject, Acknowledge, TransitionTo, SetFault, MotionRefusal, WithinLimits, ToBackend;
  }

  lemma InquireWhileRunning(w: Work, env: Env, r: Packet)
    requires Running(w) && (r.msgId < SET_CONTROL_MODE || r.msgId == GET_DRIVER_STATUS)
        && (TakesNoPayload(r.msgId) ==> r.payload == [])
    ensures RunStep(w, Inquire(w, env, r), PacketAbandons(w.core, env, r))
  {
    hide Send, Notify, Reject, Acknowledge, SetFault, Report;
  }

  lemma UnknownWhileRunning(w: Work, env: Env, r: Packet)
    requires Running(w)
    ensures RunStep(w, Unknown(w, env, r), true)
  {
    hide Reject, SetFault;
  }

  lemma DispatchWhileRunning(w: Work, env: Env, r: Packet)
    requires Running(w)
    ensures RunStep(w, Dispatch(w, env, r), PacketAbandons(w.core, env, r))
  {
    hide RunStep, Running, Reject, MotionRefusal, WithinLimits, ToBackend,
         Inquire, SetControlMode, EmergencyStopNow, RampStopNow, ClearFaults, ReportField, Stage, ApplyStaged,
         SaveActive, ResetDefaults, RebootNow, MoveAbs, MoveRel, RunVel, SetTelemetryRate, Unknown;
    if TakesNoPayload(r.msgId) && r.payload != [] {
      StaysRunning(w, env, r, Malformed);
    } else if r.msgId < SET_CONTROL_MODE || r.msgId == GET_DRIVER_STATUS {
      InquireWhileRunning(w, env, r);
    } else if r.msgId == RUN_VEL {
      RunVelWhileRunning(w, env, r);
    } else {
      ControlWhileRunning(w, env, r);
      EmergencyStopWhileRunning(w, env, r);
      RampStopWhileRunning(w, env, r);
      ConfigWhileRunning(w, env, r);
      SaveWhileRunning(w, env, r);
      MoveWhileRunning(w, env, r);
      UnknownWhileRunning(w, env, r);
    }
  }

  lemma UpdateWhileRunning(c: Core, env: Env, writer: bool)
    requires c.drive.state == RunningVelocity
    ensures RunStep(Start(c), Step(c, env, Tick(writer)), Abandons(c, env, Tick(writer)))
  {
    hide Notify, TransitionTo, SetFault, AnnounceBoot, FinishMotion, CheckHost;
    var via := if writer then Direct else NoWriter;
    CheckHostWhileRunning(FinishMotion(AnnounceBoot(Start(c), env, via), env, via), env, via);
  }

  lemma CheckHostWhileRunning(w: Work, env: Env, via: Writer)
    requires Running(w)
    ensures RunStep(w, CheckHost(w, env, via), Abandons(w.core, env, Tick(true)))
  {
    hide Notify, TransitionTo, SetFault;
    var calls := CheckHost(w, env, via).calls;
    assert calls != [] && IsStop(calls[0]) ==> !NoStop(calls);
  }

  /**
    Over one step, a velocity run in progress is left without any stop call exactly when the step is one of those
    listed: the state no longer says the motor runs, yet nothing has told the motor to stop. Whatever the step, the
    configuration the run goes by does not change, but for the telemetry rate.
   */
  lemma RunIsAbandonedExactly(c: Core, env: Env, a: Action)
    requires c.drive.state == RunningVelocity && !a.Restart?
    ensures
      var w := Step(c, env, a);
      && (w.core.drive.state != RunningVelocity && NoStop(w.calls) <==> Abandons(c, env, a))
      && w.core.settings.active == c.settings.active.(telemetry := w.core.settings.active.telemetry)
  {
    match a
    case Handle(r) => HandleWhileRunning(c, env, r);
    case Tick(writer) => UpdateWhileRunning(c, env, writer);
    case FrameFailed(_) => hide SetFault;
    case Telemetry(_) => hide Send, Report;
  }

  lemma HandleWhileRunning(c: Core, env: Env, r: Packet)
    requires c.drive.state == RunningVelocity
    ensures RunStep(Start(c), HandlePacket(c, env, r), !IsRepeat(c, r) && PacketAbandons(c, env, r))
  {
    hide Send, SendAll, RejectVia, Dispatch, MotionRefusal, WithinLimits, ToBackend;
    if !IsRepeat(c, r) {
      var seen := c.(lastHostMs := Now(env), counters := c.counters.(commands := Add32(c.counters.commands, 1)));
      DispatchWhileRunning(Start(seen), env, r);
      SameAbandons(c, seen, env, r);
    }
  }

  lemma SameAbandons(c: Core, d: Core, env: Env, r: Packet)
    requires c.drive == d.drive && c.settings == d.settings
    ensures PacketAbandons(c, env, r) <==> PacketAbandons(d, env, r)
  {}

  predicate IsHostStep(a: Action) { a.Handle? || a.Restart? }

  /**
    Out of a velocity run the watchdog guards nothing: until another packet comes, the backend is not called at all.
   */
  lemma {:induction false} AbandonedIsUnwatched(c: Core, inputs: seq<Input>)
    requires c.drive.state != RunningVelocity
    requires forall input :: input in inputs ==> !IsHostStep(input.action)
    ensures Calls(c, inputs) == [] && Run(c, inputs).drive.state != RunningVelocity
    decreases |inputs|
  {
    hide Step;
    if inputs != [] {
      var init, last := inputs[..|inputs| - 1], inputs[|inputs| - 1];
      assert last in inputs;
      AbandonedIsUnwatched(c, init);
      UnwatchedStep(Run(c, init), last.env, last.action);
    }
  }

  lemma UnwatchedStep(c: Core, env: Env, a: Action)
    requires c.drive.state != RunningVelocity && !IsHostStep(a)
    ensures
      var w := Step(c, env, a);
      w.calls == [] && w.core.drive.state != RunningVelocity
  {
    hide Send, Notify, SetFault, TransitionTo, Report;
  }
}
