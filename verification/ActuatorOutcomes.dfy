/** What a request makes of the drive, and which faults each step raises. */
module ActuatorOutcomes {
  import opened Bytes
  import opened Config
  import opened Protocol
  import opened ActuatorTypes
  import opened ActuatorSteps
  import opened ActuatorInvariant
  import opened ActuatorSafety
  import opened ActuatorAnswers
  import opened ActuatorRefusals
  import opened ActuatorEffects
  import opened ActuatorUpdates
  import opened ActuatorTrace
  import opened ActuatorRuns

  // ----- Causes -----

  /** The payload has the length that its kind of request takes. */
  predicate WellFormed(r: Packet) { PayloadLength(r.msgId) == Some(|r.payload|) }

  predicate UartFails(env: Env) {
    env.driverStatus.Returned? && env.driverStatus.value.configured && !env.driverStatus.value.uartOk
  }

  /** A move that is within all limits but for where it would end. */
  predicate EndsOutside(c: Core, env: Env, r: Packet) {
    var config := c.settings.active;
    && r.msgId in {MOVE_ABS, MOVE_REL} && WellFormed(r) && MayMove(c) && c.drive.state != RunningVelocity
    && WithinLimits(config, U32At(r.payload, 4), U32At(r.payload, 8))
    && (var target := I32At(r.payload, 0) + if r.msgId == MOVE_ABS then 0 else LogicalPosition(config, env) as int;
        INT32_MIN <= target <= INT32_MAX && !WithinSoftLimits(config, target))
  }

  /** A request that the driver or the motion backend was asked to carry out, and did not. */
  predicate DriverFails(c: Core, env: Env, r: Packet) {
    RefusalOf(c, env, r) == Some(BadState) && (AsksForMotion(r) ==> MayMove(c))
  }

  /** The fault that a request raises. */
  function CauseOf(c: Core, env: Env, r: Packet): Option<Fault> {
    if PayloadLength(r.msgId) == None then Some(UnsupportedCommand)
    else if r.msgId == GET_DRIVER_STATUS && WellFormed(r) && UartFails(env) then Some(DriverUart)
    else if RefusalOf(c, env, r) == Some(ErrorCode.Storage) then Some(ConfigStorage)
    else if EndsOutside(c, env, r) then Some(Fault.SoftLimit)
    else if DriverFails(c, env, r) then Some(DriverFault)
    else None
  }

  function FaultsAfter(c: Core, env: Env, r: Packet): set<Fault> {
    if r.msgId == CLEAR_FAULTS && WellFormed(r) then {}
    else c.faults + match CauseOf(c, env, r) { case None => {} case Some(f) => {f} }
  }

  // ----- The drive -----

  /** The drive after a request that is not refused. */
  function DriveOf(c: Core, env: Env, r: Packet): Drive
    requires RefusalOf(c, env, r) == None
  {
    var d := c.drive;
    if r.msgId == SET_CONTROL_MODE then
      var mode := [ModeDisabled, ModePosition, ModeVelocity, ModeCommissioning][r.payload[0]];
      Drive(StateOfMode(mode), mode, mode != ModeDisabled)
    else if r.msgId == ESTOP then Drive(Faulted, ModeDisabled, false)
    else if r.msgId == RAMP_STOP && IsMoving(c, env) then Drive(Stopping, ModePosition, d.enabled)
    else if r.msgId == CLEAR_FAULTS then (if d.enabled then d.(state := Idle) else Drive(Disabled, ModeDisabled, false))
    else if r.msgId == CONFIG_STAGE_FIELD && !d.InMotion() then d.(state := ConfigStaged)
    else if r.msgId == CONFIG_APPLY && c.settings.isStaged then d.(state := if d.enabled then Idle else Disabled)
    else if r.msgId == MOVE_ABS || r.msgId == MOVE_REL then Drive(MovingPosition, ModePosition, d.enabled)
    else if r.msgId == RUN_VEL then Drive(RunningVelocity, ModeVelocity, d.enabled)
    else if r.msgId == GET_DRIVER_STATUS && UartFails(env) then d.(state := Faulted)
    else d
  }

  /** A refused mode is not in force, but if the driver refused it, it is what the actuator then reports. */
  function DriveAfter(c: Core, env: Env, r: Packet): Drive {
    if RefusalOf(c, env, r) == None then DriveOf(c, env, r)
    else if CauseOf(c, env, r) in {None, Some(Fault.SoftLimit)} then c.drive
    else if r.msgId == SET_CONTROL_MODE && WellFormed(r) && r.payload[0] <= 3 then
      Drive(Faulted, [ModeDisabled, ModePosition, ModeVelocity, ModeCommissioning][r.payload[0]], c.drive.enabled)
    else c.drive.(state := Faulted)
  }

  ghost predicate ComesOut(c: Core, env: Env, r: Packet, w: Work) {
    w.core.drive == DriveAfter(c, env, r) && w.core.faults == FaultsAfter(c, env, r)
  }

  // ----- Command by command -----

  lemma InquireOutcome(w: Work, env: Env, r: Packet)
    requires r.msgId < SET_CONTROL_MODE || r.msgId == GET_DRIVER_STATUS
    requires TakesNoPayload(r.msgId) ==> r.payload == []
    ensures ComesOut(w.core, env, r, Inquire(w, env, r))
  {
    hide Send, Notify, TransitionTo, SetFault, Acknowledge, Reject, Report;
  }

  /** What a mode request makes of a drive in a given mode and of its faults. */
  ghost predicate ModeOutcome(c: Core, env: Env, r: Packet, d: Drive, faults: set<Fault>) {
    var refused := if |r.payload| != 1 then Some(Malformed) else ModeRefusal(c, env, r.payload[0]);
    if refused.Some? && refused != Some(BadState) then d == c.drive && faults == c.faults
    else
      var mode := ModeOf(r.payload[0]);
      if refused.Some? then d == Drive(Faulted, mode, c.drive.enabled) && faults == c.faults + {DriverFault}
      else d == Drive(StateOfMode(mode), mode, mode != ModeDisabled) && faults == c.faults
  }

  lemma ModeCause(c: Core, env: Env, r: Packet)
    requires r.msgId == SET_CONTROL_MODE
    ensures ModeOutcome(c, env, r, DriveAfter(c, env, r), FaultsAfter(c, env, r))
  {}

  lemma ControlModeDoes(w: Work, env: Env, r: Packet)
    ensures
      var c := SetControlMode(w, env, r).core;
      ModeOutcome(w.core, env, r, c.drive, c.faults)
  {
    hide TurnOff, EnableInMode, Reject, Framed;
    if |r.payload| == 1 && r.payload[0] <= 3 {
      var chosen := WithMode(w, ModeOf(r.payload[0]));
      if r.payload[0] == 0 {
        TurnOffDoes(chosen, env, r);
      } else {
        EnableInModeDoes(chosen, env, r);
      }
    }
  }

  lemma OneModeOutcome(c: Core, env: Env, r: Packet, d: Drive, d': Drive, faults: set<Fault>, faults': set<Fault>)
    requires ModeOutcome(c, env, r, d, faults) && ModeOutcome(c, env, r, d', faults')
    ensures d == d' && faults == faults'
  {}

  lemma ControlModeOutcome(w: Work, env: Env, r: Packet)
    requires r.msgId == SET_CONTROL_MODE
    ensures ComesOut(w.core, env, r, SetControlMode(w, env, r))
  {
    ModeCause(w.core, env, r);
    ControlModeDoes(w, env, r);
    hide ModeOutcome, SetControlMode, DriveAfter, FaultsAfter;
    var c := SetControlMode(w, env, r).core;
    OneModeOutcome(w.core, env, r, c.drive, DriveAfter(w.core, env, r), c.faults, FaultsAfter(w.core, env, r));
  }

  lemma TurnOffDoes(w: Work, env: Env, r: Packet)
    ensures
      var c := TurnOff(w, env, r).core;
      c.drive == Drive(Disabled, w.core.drive.mode, false) && c.faults == w.core.faults
  {
    hide TransitionTo, Acknowledge;
  }

  lemma EnableInModeDoes(w: Work, env: Env, r: Packet)
    ensures
      var c, mode := EnableInMode(w, env, r).core, w.core.drive.mode;
      if env.configureDriver == Returned(false) || env.enableDriver == Returned(false)
      then c.drive == w.core.drive.(state := Faulted) && c.faults == w.core.faults + {DriverFault}
      else
        && c.drive == Drive(if mode == ModeCommissioning then Commissioning else Idle, mode, true)
        && c.faults == w.core.faults
  {
    hide TransitionTo, SetFault, Acknowledge, Reject;
  }

  lemma EmergencyStopOutcome(w: Work, env: Env, r: Packet)
    requires r.msgId == ESTOP && r.payload == []
    ensures ComesOut(w.core, env, r, EmergencyStopNow(w, env, r))
  {
    hide TransitionTo, Acknowledge;
  }

  lemma RampStopOutcome(w: Work, env: Env, r: Packet)
    requires r.msgId == RAMP_STOP
    ensures ComesOut(w.core, env, r, RampStopNow(w, env, r))
  {
    hide TransitionTo, SetFault, Acknowledge, Reject, U32At;
  }

  lemma ClearFaultsOutcome(w: Work, env: Env, r: Packet)
    requires r.msgId == CLEAR_FAULTS && r.payload == []
    ensures ComesOut(w.core, env, r, ClearFaults(w, env, r))
  {
    hide Notify, TransitionTo, Acknowledge;
  }

  lemma ReportFieldOutcome(w: Work, env: Env, r: Packet)
    requires r.msgId == CONFIG_QUERY
    ensures ComesOut(w.core, env, r, ReportField(w, env, r))
  {
    hide Send, Reject, FieldOf, FieldValue, FieldMutability, U16At;
  }

  lemma StageOutcome(w: Work, env: Env, r: Packet)
    requires Sound(w.core) && r.msgId == CONFIG_STAGE_FIELD
    ensures ComesOut(w.core, env, r, Stage(w, env, r))
  {
    StageRequestIs(w.core, env, r);
    hide Sound, TransitionTo, Acknowledge, Reject, StageRequest, Acceptable, FieldOf, U16At, I32At;
  }

  lemma ApplyOutcome(w: Work, env: Env, r: Packet)
    requires Sound(w.core) && r.msgId == CONFIG_APPLY && r.payload == []
    ensures ComesOut(w.core, env, r, ApplyStaged(w, env, r))
  {
    hide IsValid, Notify, TransitionTo, SetFault, Acknowledge, Reject, DriverChanged;
  }

  lemma SaveOutcome(w: Work, env: Env, r: Packet)
    requires r.msgId == CONFIG_SAVE && r.payload == []
    ensures ComesOut(w.core, env, r, SaveActive(w, env, r))
  {
    hide Notify, SetFault, Acknowledge, Reject;
  }

  lemma ResetOutcome(w: Work, env: Env, r: Packet)
    requires r.msgId == CONFIG_RESET_DEFAULTS && r.payload == []
    ensures ComesOut(w.core, env, r, ResetDefaults(w, env, r))
  {
    hide Notify, SetFault, Acknowledge, Reject;
  }

  lemma OthersOutcome(w: Work, env: Env, r: Packet)
    ensures r.msgId == REBOOT && r.payload == [] ==> ComesOut(w.core, env, r, RebootNow(w, env, r))
    ensures r.msgId == SET_TELEM_RATE ==> ComesOut(w.core, env, r, SetTelemetryRate(w, env, r))
    ensures PayloadLength(r.msgId) == None ==> ComesOut(w.core, env, r, Unknown(w, env, r))
    ensures TakesNoPayload(r.msgId) && r.payload != [] ==> ComesOut(w.core, env, r, Reject(w, env, r, Malformed))
  {
    hide SetFault, Acknowledge, Reject, U16At;
  }

  lemma MotionCause(c: Core, env: Env, r: Packet)
    requires AsksForMotion(r)
    ensures
      var refusal, cause := RefusalOf(c, env, r), CauseOf(c, env, r);
      && refusal == (if |r.payload| != (if r.msgId == RUN_VEL then 8 else 12) then Some(Malformed)
                     else MotionRefusalOf(c, env, r))
      && cause == (if EndsOutside(c, env, r) then Some(Fault.SoftLimit)
                   else if refusal == Some(BadState) && MayMove(c) then Some(DriverFault) else None)
      && FaultsAfter(c, env, r) == c.faults + (if cause.None? then {} else {cause.value})
      && DriveAfter(c, env, r) ==
         if cause == Some(DriverFault) then c.drive.(state := Faulted)
         else if refusal.Some? then c.drive
         else if r.msgId == RUN_VEL then Drive(RunningVelocity, ModeVelocity, c.drive.enabled)
         else Drive(MovingPosition, ModePosition, c.drive.enabled)
  {
    hide EndsOutside, OtherMotion, MotionFits, BackendAgrees;
    if EndsOutside(c, env, r) {
      OutsideIsRefused(c, env, r);
    }
  }

  lemma OutsideIsRefused(c: Core, env: Env, r: Packet)
    requires EndsOutside(c, env, r)
    ensures MotionRefusalOf(c, env, r) == Some(OutOfRange)
  {
    hide WithinLimits, I32At, U32At, LogicalPosition;
  }

  lemma StartedDoes(w: Work, env: Env, r: Packet, ok: bool, s: State, mode: Mode)
    ensures
      var w' := Started(w, env, r, ok, s, mode);
      && w'.core.drive == (if ok then Drive(s, mode, w.core.drive.enabled) else w.core.drive.(state := Faulted))
      && w'.core.faults == w.core.faults + if ok then {} else {DriverFault}
  {
    hide TransitionTo, SetFault, Acknowledge, Reject;
  }

  lemma MoveAbsOutcome(w: Work, env: Env, r: Packet)
    requires r.msgId == MOVE_ABS
    ensures ComesOut(w.core, env, r, MoveAbs(w, env, r))
  {
    MotionCause(w.core, env, r);
    RefusalCode(w.core, ModePosition, r);
    if |r.payload| == 12 {
      MirrorIsExact(w.core.settings.active, I32At(r.payload, 0));
      forall called, ok {
        StartedDoes(called, env, r, ok, MovingPosition, ModePosition);
      }
    }
    hide Started, SetFault, Reject, I32At, U32At, MotionRefusal, WithinLimits, ToBackend, HasMirror, RefusalOf, CauseOf,
         DriveAfter, FaultsAfter;
  }

  lemma MoveRelOutcome(w: Work, env: Env, r: Packet)
    requires r.msgId == MOVE_REL
    ensures ComesOut(w.core, env, r, MoveRel(w, env, r))
  {
    MotionCause(w.core, env, r);
    RefusalCode(w.core, ModePosition, r);
    if |r.payload| == 12 {
      MoveRelFits(w.core, env, r);
      forall called, ok {
        StartedDoes(called, env, r, ok, MovingPosition, ModePosition);
      }
    }
    hide Started, SetFault, Reject, I32At, U32At, MotionRefusal, MotionFits, WithinLimits, ToBackend, LogicalPosition,
         RefusalOf, CauseOf, DriveAfter, FaultsAfter;
  }

  lemma RunVelOutcome(w: Work, env: Env, r: Packet)
    requires r.msgId == RUN_VEL
    ensures ComesOut(w.core, env, r, RunVel(w, env, r))
  {
    MotionCause(w.core, env, r);
    RefusalCode(w.core, ModeVelocity, r);
    if |r.payload| == 8 {
      MirrorIsExact(w.core.settings.active, I32At(r.payload, 0));
      forall called, ok {
        StartedDoes(called, env, r, ok, RunningVelocity, ModeVelocity);
      }
    }
    hide Started, SetFault, Reject, I32At, U32At, MotionRefusal, WithinLimits, ToBackend, HasMirror, RefusalOf, CauseOf,
         DriveAfter, FaultsAfter;
  }

  lemma DispatchOutcome(w: Work, env: Env, r: Packet)
    requires Sound(w.core)
    ensures ComesOut(w.core, env, r, Dispatch(w, env, r))
  {
    hide ComesOut, Sound, Reject,
         Inquire, SetControlMode, EmergencyStopNow, RampStopNow, ClearFaults, ReportField, Stage, ApplyStaged,
         SaveActive, ResetDefaults, RebootNow, MoveAbs, MoveRel, RunVel, SetTelemetryRate, Unknown;
    OthersOutcome(w, env, r);
    if TakesNoPayload(r.msgId) && r.payload != [] {
    } else if r.msgId < SET_CONTROL_MODE || r.msgId == GET_DRIVER_STATUS {
      InquireOutcome(w, env, r);
    } else if r.msgId == SET_CONTROL_MODE {
      ControlModeOutcome(w, env, r);
    } else if r.msgId == ESTOP {
      EmergencyStopOutcome(w, env, r);
    } else if r.msgId == RAMP_STOP {
      RampStopOutcome(w, env, r);
    } else if r.msgId == CLEAR_FAULTS {
      ClearFaultsOutcome(w, env, r);
    } else if r.msgId == CONFIG_QUERY {
      ReportFieldOutcome(w, env, r);
    } else if r.msgId == CONFIG_STAGE_FIELD {
      StageOutcome(w, env, r);
    } else if r.msgId == CONFIG_APPLY {
      ApplyOutcome(w, env, r);
    } else if r.msgId == CONFIG_SAVE {
      SaveOutcome(w, env, r);
    } else if r.msgId == CONFIG_RESET_DEFAULTS {
      ResetOutcome(w, env, r);
    } else if r.msgId == MOVE_ABS {
      MoveAbsOutcome(w, env, r);
    } else if r.msgId == MOVE_REL {
      MoveRelOutcome(w, env, r);
    } else if r.msgId == RUN_VEL {
      RunVelOutcome(w, env, r);
    }
  }

  lemma SameOutcome(c: Core, d: Core, env: Env, r: Packet)
    requires c.settings == d.settings && c.drive == d.drive && c.faults == d.faults
    ensures DriveAfter(c, env, r) == DriveAfter(d, env, r) && FaultsAfter(c, env, r) == FaultsAfter(d, env, r)
  {
    SameRefusal(c, d, env, r);
    hide RefusalOf, WithinLimits, WithinSoftLimits, I32At, U32At, LogicalPosition;
  }

  /**
    What a request makes of the drive and of the faults follows from the table of refusals: a refusal leaves the drive
    as it is unless it is the driver's, the backend's or the store's, which is a fault; and what is not refused leaves
    the drive as its kind of request demands.
   */
  lemma RequestComesOut(c: Core, env: Env, r: Packet)
    requires Invariant(c) && !IsRepeat(c, r)
    ensures ComesOut(c, env, r, HandlePacket(c, env, r))
  {
    SameOutcome(c, Seen(c, env), env, r);
    HandledAs(c, env, r);
    hide HandlePacket, Dispatch, DriveAfter, FaultsAfter, ConfigsValid, StateAgrees;
    DispatchOutcome(Start(Seen(c, env)), env, r);
  }

  // ----- Faults of a step -----

  predicate Stored(env: Env, valid: bool) {
    && env.loadConfig.Returned? && env.loadConfig.value.Some?
    && (IsValid(env.loadConfig.value.value.config) <==> valid)
  }

  function RaisedBy(c: Core, env: Env, a: Action): set<Fault> {
    match a
    case Handle(r) =>
      if IsRepeat(c, r) || CauseOf(c, env, r).None? then {} else {CauseOf(c, env, r).value}
    case Tick(_) => if HostIsSilent(c, env) then {HostTimeout} else {}
    case FrameFailed(error) =>
      {match error { case BadCrc => CrcFault case BadPayload => PayloadFault case BadVersion => RxFrame }}
    case Telemetry(_) => {}
    case Restart =>
      (if Stored(env, false) then {InvalidConfig} else {})
      + (if env.configureDriver == Returned(false) then {DriverFault} else {})
  }

  /** The steps that forget the faults before them. */
  predicate Forgets(c: Core, a: Action) {
    a.Restart? || (a.Handle? && !IsRepeat(c, a.request) && a.request.msgId == CLEAR_FAULTS && a.request.payload == [])
  }

  lemma ClearRaisesNothing(c: Core, env: Env, r: Packet)
    requires r.msgId == CLEAR_FAULTS && r.payload == []
    ensures CauseOf(c, env, r) == None
  {}

  lemma BootFaults(defaults: ActuatorConfig, env: Env)
    ensures Begin(defaults, env).core.faults ==
      (if Stored(env, false) then {InvalidConfig} else {})
      + (if env.configureDriver == Returned(false) then {DriverFault} else {})
  {
    hide IsValid, TransitionTo, SetFault;
  }

  lemma RepeatKeepsFaults(c: Core, env: Env, r: Packet)
    requires IsRepeat(c, r)
    ensures HandlePacket(c, env, r).core.faults == c.faults
  {
    hide SendAll, RejectVia, Dispatch;
  }

  /** Each step keeps the faults it finds, or forgets them, and adds those it has a cause for: none else. */
  lemma FaultsOfStep(c: Core, env: Env, a: Action)
    requires Invariant(c)
    ensures Step(c, env, a).core.faults == (if Forgets(c, a) then {} else c.faults) + RaisedBy(c, env, a)
  {
    hide Invariant, CauseOf, DriveAfter;
    match a
    case Handle(r) =>
      hide HandlePacket;
      if IsRepeat(c, r) {
        RepeatKeepsFaults(c, env, r);
      } else {
        RequestComesOut(c, env, r);
        if r.msgId == CLEAR_FAULTS && r.payload == [] {
          ClearRaisesNothing(c, env, r);
        }
      }
    case Tick(writer) =>
      UpdateEffect(c, env, if writer then Direct else NoWriter);
      hide Update, HostIsSilent, TimeoutDoes;
      if Travels(c.drive) {
        NoRunNoSilence(c, env);
      }
    case FrameFailed(_) =>
      hide SetFault;
    case Telemetry(_) =>
      hide Send, Report;
    case Restart =>
      BootFaults(c.settings.defaults, env);
      hide Begin, IsValid;
  }

  // ----- Faults of a run -----

  ghost predicate RaisedAt(c: Core, inputs: seq<Input>, i: nat, f: Fault)
    requires i < |inputs|
  {
    f in RaisedBy(Run(c, inputs[..i]), inputs[i].env, inputs[i].action)
  }

  /** A step of the run, the given one or a later one, forgets the faults before it. */
  ghost predicate ForgottenFrom(c: Core, inputs: seq<Input>, k: nat) {
    exists j :: k <= j < |inputs| && ForgetsAt(c, inputs, j)
  }

  ghost predicate ForgetsAt(c: Core, inputs: seq<Input>, j: nat)
    requires j < |inputs|
  {
    Forgets(Run(c, inputs[..j]), inputs[j].action)
  }

  /** The fault was raised in the run, and no step since has cleared it. */
  ghost predicate Outstanding(c: Core, inputs: seq<Input>, f: Fault) {
    exists i :: 0 <= i < |inputs| && RaisedAt(c, inputs, i, f) && !ForgottenFrom(c, inputs, i + 1)
  }

  lemma ForgottenStep(c: Core, inputs: seq<Input>, k: nat)
    requires k < |inputs|
    ensures
      var init, last := inputs[..|inputs| - 1], inputs[|inputs| - 1];
      ForgottenFrom(c, inputs, k) <==> ForgottenFrom(c, init, k) || Forgets(Run(c, init), last.action)
  {
    hide Forgets, Run;
    var init, n := inputs[..|inputs| - 1], |inputs| - 1;
    assert forall j :: 0 <= j < n ==> init[..j] == inputs[..j];
    assert forall j :: 0 <= j < n ==> (ForgetsAt(c, init, j) <==> ForgetsAt(c, inputs, j));
    assert ForgetsAt(c, inputs, n) <==> Forgets(Run(c, init), inputs[n].action);
    if ForgottenFrom(c, init, k) {
      var j :| k <= j < n && ForgetsAt(c, init, j);
      assert ForgetsAt(c, inputs, j);
    }
  }

  lemma OutstandingStep(c: Core, inputs: seq<Input>, f: Fault)
    requires inputs != []
    ensures
      var init, last := inputs[..|inputs| - 1], inputs[|inputs| - 1];
      var before := Run(c, init);
      Outstanding(c, inputs, f) <==>
        f in RaisedBy(before, last.env, last.action) || (Outstanding(c, init, f) && !Forgets(before, last.action))
  {
    hide RaisedBy, Forgets, Run, ForgottenFrom;
    var init, n := inputs[..|inputs| - 1], |inputs| - 1;
    assert forall i :: 0 <= i < n ==> init[..i] == inputs[..i];
    assert forall i :: 0 <= i < n ==> (RaisedAt(c, init, i, f) <==> RaisedAt(c, inputs, i, f));
    assert RaisedAt(c, inputs, n, f) <==> f in RaisedBy(Run(c, init), inputs[n].env, inputs[n].action);
    if Outstanding(c, inputs, f) {
      var i :| 0 <= i < |inputs| && RaisedAt(c, inputs, i, f) && !ForgottenFrom(c, inputs, i + 1);
      if i < n {
        ForgottenStep(c, inputs, i + 1);
        assert RaisedAt(c, init, i, f);
      }
    }
    if Outstanding(c, init, f) && !Forgets(Run(c, init), inputs[n].action) {
      var i :| 0 <= i < n && RaisedAt(c, init, i, f) && !ForgottenFrom(c, init, i + 1);
      ForgottenStep(c, inputs, i + 1);
      assert RaisedAt(c, inputs, i, f);
    }
    NothingForgotten(c, inputs);
  }

  lemma NothingForgotten(c: Core, inputs: seq<Input>)
    ensures !ForgottenFrom(c, inputs, |inputs|)
  {}

  /**
    After any run the faults are exactly those that one of its steps raised, or that stood before it, and that no step
    since has cleared: none is lost, and none made up.
   */
  lemma {:induction false} FaultsOfRun(c: Core, inputs: seq<Input>, f: Fault)
    requires Invariant(c)
    ensures f in Run(c, inputs).faults <==>
      Outstanding(c, inputs, f) || (f in c.faults && !ForgottenFrom(c, inputs, 0))
    decreases |inputs|
  {
    hide Step, Invariant, RaisedBy, Forgets, Outstanding, ForgottenFrom;
    if inputs == [] {
      NothingForgotten(c, inputs);
      NothingOutstanding(c, f);
    } else {
      var init, last := inputs[..|inputs| - 1], inputs[|inputs| - 1];
      FaultsOfRun(c, init, f);
      RunKeepsInvariant(c, init);
      FaultsOfStep(Run(c, init), last.env, last.action);
      OutstandingStep(c, inputs, f);
      ForgottenStep(c, inputs, 0);
    }
  }

  lemma NothingOutstanding(c: Core, f: Fault)
    ensures !Outstanding(c, [], f)
  {}
}
