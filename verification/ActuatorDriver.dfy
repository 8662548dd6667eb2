/** The driver behind the actuator: whether it is energised and how it is configured, as the backend calls leave it. */
module ActuatorDriver {
  import opened Bytes
  import opened Config
  import opened Protocol
  import opened ActuatorTypes
  import opened ActuatorSteps
  import opened ActuatorInvariant
  import opened ActuatorSafety
  import opened ActuatorAnswers
  import opened ActuatorRefusals
  import opened ActuatorEffects
  import opened ActuatorStaging
  import opened ActuatorRuns
  import opened ActuatorUpdates
  import opened ActuatorTrace

  // ----- The driver, by its calls -----

  /** A call that enables the driver and is refused leaves it as it was; a call that disables it always does. */
  function SwitchedOn(on: bool, calls: seq<Call>): bool
    decreases |calls|
  {
    if calls == [] then on
    else
      var before := SwitchedOn(on, calls[..|calls| - 1]);
      match calls[|calls| - 1]
      case EnableDriver(wanted, ok) => if wanted && !ok then before else wanted
      case _ => before
  }

  /** A configuration that is refused leaves the one before it. */
  function SetUp(known: DriverConfig, calls: seq<Call>): DriverConfig
    decreases |calls|
  {
    if calls == [] then known
    else
      var before := SetUp(known, calls[..|calls| - 1]);
      match calls[|calls| - 1]
      case ConfigureDriver(driver, ok) => if ok then driver else before
      case _ => before
  }

  lemma {:induction false} DriverConcat(on: bool, known: DriverConfig, s: seq<Call>, t: seq<Call>)
    ensures SwitchedOn(on, s + t) == SwitchedOn(SwitchedOn(on, s), t)
    ensures SetUp(known, s + t) == SetUp(SetUp(known, s), t)
    decreases |t|
  {
    if t == [] {
      assert s + t == s;
    } else {
      assert (s + t)[..|s + t| - 1] == s + t[..|t| - 1];
      DriverConcat(on, known, s, t[..|t| - 1]);
    }
  }

  lemma OneCall(on: bool, known: DriverConfig, call: Call)
    ensures SwitchedOn(on, [call]) ==
      match call { case EnableDriver(wanted, ok) => if wanted && !ok then on else wanted case _ => on }
    ensures SetUp(known, [call]) ==
      match call { case ConfigureDriver(driver, ok) => if ok then driver else known case _ => known }
  {
    assert [call][..0] == [];
  }

  lemma TwoCalls(on: bool, known: DriverConfig, first: Call, second: Call)
    ensures SwitchedOn(on, [first, second]) == SwitchedOn(SwitchedOn(on, [first]), [second])
    ensures SetUp(known, [first, second]) == SetUp(SetUp(known, [first]), [second])
  {
    assert [first, second] == [first] + [second];
    DriverConcat(on, known, [first], [second]);
  }

  ghost predicate NoDriverCall(calls: seq<Call>) {
    forall i :: 0 <= i < |calls| ==> !calls[i].EnableDriver? && !calls[i].ConfigureDriver?
  }

  lemma {:induction false} NoDriverNoChange(on: bool, known: DriverConfig, calls: seq<Call>)
    requires NoDriverCall(calls)
    ensures SwitchedOn(on, calls) == on && SetUp(known, calls) == known
    decreases |calls|
  {
    if calls != [] {
      NoDriverNoChange(on, known, calls[..|calls| - 1]);
    }
  }

  // ----- One step -----

  /** What the drive says of the driver and what the active configuration says of it, against the calls of a step. */
  predicate Follows(env: Env, c: Core, w: Work) {
    && (env.enableDriver.Returned? ==> w.core.drive.enabled == SwitchedOn(c.drive.enabled, w.calls))
    && (env.configureDriver.Returned? ==>
          w.core.settings.active.driver == SetUp(c.settings.active.driver, w.calls))
  }

  ghost predicate LeavesDriver(w: Work, w': Work) {
    && w'.core.drive.enabled == w.core.drive.enabled
    && w'.core.settings.active.driver == w.core.settings.active.driver
    && (NoDriverCall(w.calls) ==> NoDriverCall(w'.calls))
  }

  lemma MoveAbsLeavesDriver(w: Work, env: Env, r: Packet)
    ensures LeavesDriver(w, MoveAbs(w, env, r))
  {
    hide TransitionTo, SetFault, Acknowledge, Reject, MotionRefusal, WithinLimits, SoftLimitViolation, ToBackend,
         U32At, I32At;
  }

  lemma MoveRelLeavesDriver(w: Work, env: Env, r: Packet)
    ensures LeavesDriver(w, MoveRel(w, env, r))
  {
    hide TransitionTo, SetFault, Acknowledge, Reject, MotionRefusal, WithinLimits, SoftLimitViolation, ToBackend,
         U32At, I32At;
  }

  lemma RunVelLeavesDriver(w: Work, env: Env, r: Packet)
    ensures LeavesDriver(w, RunVel(w, env, r))
  {
    hide TransitionTo, SetFault, Acknowledge, Reject, MotionRefusal, WithinLimits, ToBackend, U32At, I32At;
  }

  lemma RampStopLeavesDriver(w: Work, env: Env, r: Packet)
    ensures LeavesDriver(w, RampStopNow(w, env, r))
  {
    hide TransitionTo, SetFault, Acknowledge, Reject, U32At;
  }

  lemma ClearFaultsLeavesDriver(w: Work, env: Env, r: Packet)
    ensures LeavesDriver(w, ClearFaults(w, env, r))
  {
    hide Notify, TransitionTo, Acknowledge;
  }

  lemma QueriesLeaveDriver(w: Work, env: Env, r: Packet)
    ensures LeavesDriver(w, Inquire(w, env, r)) && LeavesDriver(w, ReportField(w, env, r))
  {
    hide Send, Notify, TransitionTo, SetFault, Acknowledge, Reject, Report, U16At;
  }

  lemma SettingsLeaveDriver(w: Work, env: Env, r: Packet)
    ensures LeavesDriver(w, Stage(w, env, r)) && LeavesDriver(w, SetTelemetryRate(w, env, r))
    ensures LeavesDriver(w, SaveActive(w, env, r)) && LeavesDriver(w, RebootNow(w, env, r))
  {
    hide Notify, TransitionTo, SetFault, Acknowledge, Reject, StageRequest, U16At;
  }

  predicate UsesDriver(msgId: byte) { msgId in {SET_CONTROL_MODE, ESTOP, CONFIG_APPLY, CONFIG_RESET_DEFAULTS} }

  lemma DispatchLeavesDriver(w: Work, env: Env, r: Packet)
    requires !UsesDriver(r.msgId)
    ensures LeavesDriver(w, Dispatch(w, env, r))
  {
    MoveAbsLeavesDriver(w, env, r);
    MoveRelLeavesDriver(w, env, r);
    RunVelLeavesDriver(w, env, r);
    RampStopLeavesDriver(w, env, r);
    ClearFaultsLeavesDriver(w, env, r);
    QueriesLeaveDriver(w, env, r);
    SettingsLeaveDriver(w, env, r);
    hide NoDriverCall, SetFault, Reject, RejectVia, Inquire, SetControlMode, EmergencyStopNow, RampStopNow, ClearFaults,
         ReportField, Stage, ApplyStaged, SaveActive, ResetDefaults, RebootNow, MoveAbs, MoveRel, RunVel,
         SetTelemetryRate;
  }

  lemma NoCallFollows(env: Env, c: Core, w: Work)
    requires w.calls == [] && w.core.drive.enabled == c.drive.enabled && w.core.settings == c.settings
    ensures Follows(env, c, w)
  {
    NoDriverNoChange(c.drive.enabled, c.settings.active.driver, []);
  }

  lemma SameFollows(env: Env, c: Core, d: Core, w: Work)
    requires c.drive.enabled == d.drive.enabled && c.settings == d.settings
    ensures Follows(env, c, w) <==> Follows(env, d, w)
  {
    hide SwitchedOn, SetUp;
  }

  lemma SetControlModeFollows(w: Work, env: Env, r: Packet)
    requires w.calls == []
    ensures Follows(env, w.core, SetControlMode(w, env, r))
  {
    hide TurnOff, EnableInMode, Reject, Follows;
    forall code ensures Follows(env, w.core, Reject(w, env, r, code)) {
      NoCallFollows(env, w.core, Reject(w, env, r, code));
    }
    if |r.payload| == 1 && r.payload[0] <= 3 {
      var chosen := WithMode(w, ModeOf(r.payload[0]));
      TurnOffFollows(chosen, env, r);
      EnableInModeFollows(chosen, env, r);
      SameFollows(env, w.core, chosen.core, SetControlMode(w, env, r));
    }
  }

  lemma TurnOffFollows(w: Work, env: Env, r: Packet)
    requires w.calls == []
    ensures Follows(env, w.core, TurnOff(w, env, r))
  {
    var call := EnableDriver(false, env.enableDriver.Or(true));
    OneCall(w.core.drive.enabled, w.core.settings.active.driver, call);
    NoDriverNoChange(w.core.drive.enabled, w.core.settings.active.driver, []);
    hide TransitionTo, Acknowledge, SwitchedOn, SetUp;
    assert TurnOff(w, env, r).calls == if env.enableDriver.Absent? then [] else [call];
  }

  lemma EnableInModeFollows(w: Work, env: Env, r: Packet)
    requires w.calls == []
    ensures Follows(env, w.core, EnableInMode(w, env, r))
  {
    var on, known := w.core.drive.enabled, w.core.settings.active.driver;
    var setUp := ConfigureDriver(known, env.configureDriver.Or(true));
    var enable := EnableDriver(true, env.enableDriver.Or(true));
    OneCall(on, known, setUp);
    OneCall(on, known, enable);
    TwoCalls(on, known, setUp, enable);
    hide TransitionTo, SetFault, Acknowledge, Reject, SwitchedOn, SetUp;
    assert SwitchedOn(on, []) == on && SetUp(known, []) == known by { NoDriverNoChange(on, known, []); }
    assert EnableInMode(w, env, r).calls ==
      if env.configureDriver.Absent? then (if env.enableDriver.Absent? then [] else [enable])
      else if env.enableDriver.Absent? || !env.configureDriver.value then [setUp]
      else [setUp, enable];
  }

  lemma EmergencyStopFollows(w: Work, env: Env, r: Packet)
    requires w.calls == []
    ensures Follows(env, w.core, EmergencyStopNow(w, env, r))
  {
    var on, known := w.core.drive.enabled, w.core.settings.active.driver;
    StopFollows(on, known, env);
    hide TransitionTo, Acknowledge, SwitchedOn, SetUp;
    assert EmergencyStopNow(w, env, r).calls == StopCalls(env);
  }

  /** The calls that stop a motor at once and turn the driver off. */
  function StopCalls(env: Env): seq<Call> {
    MaybeCall(env.emergencyStop, EmergencyStop)
    + MaybeCall(env.enableDriver, EnableDriver(false, env.enableDriver != Returned(false)))
  }

  lemma StopFollows(on: bool, known: DriverConfig, env: Env)
    ensures env.enableDriver.Returned? ==> !SwitchedOn(on, StopCalls(env))
    ensures SetUp(known, StopCalls(env)) == known
  {
    var off := EnableDriver(false, env.enableDriver != Returned(false));
    OneCall(on, known, off);
    OneCall(on, known, EmergencyStop);
    TwoCalls(on, known, EmergencyStop, off);
    NoDriverNoChange(on, known, []);
    hide SwitchedOn, SetUp;
    assert StopCalls(env) == if env.emergencyStop.Absent? then MaybeCall(env.enableDriver, off)
                             else if env.enableDriver.Absent? then [EmergencyStop] else [EmergencyStop, off];
  }

  lemma UpdateFollows(c: Core, env: Env, via: Writer)
    ensures Follows(env, c, Update(c, env, via))
  {
    UpdateEffect(c, env, via);
    StopFollows(c.drive.enabled, c.settings.active.driver, env);
    var stop := RampStop(c.settings.active.motion.stopDecel, env.rampStop != Returned(false));
    NoDriverNoChange(c.drive.enabled, c.settings.active.driver, MaybeCall(env.rampStop, stop));
    NoDriverNoChange(c.drive.enabled, c.settings.active.driver, []);
    hide Update, SwitchedOn, SetUp, HostIsSilent;
  }

  // ----- Configurations -----

  /** What is staged and what is active differ only in what can be staged. */
  predicate DifferByEdits(s: Settings) { Unstageable(s.staged) == Unstageable(s.active) }

  /** A configuration of the driver that is refused, and adopted all the same: at a boot, and when resetting. */
  predicate AdoptsRefused(c: Core, env: Env, a: Action) {
    env.configureDriver == Returned(false) &&
    (a.Restart? || (a.Handle? && IsReset(a.request) && !IsRepeat(c, a.request) && !c.drive.InMotion()))
  }

  predicate IsReset(r: Packet) { r.msgId == CONFIG_RESET_DEFAULTS && r.payload == [] }

  lemma ApplyFollows(c: Core, env: Env, r: Packet)
    requires Invariant(c) && DifferByEdits(c.settings) && !IsRepeat(c, r) && r.msgId == CONFIG_APPLY && r.payload == []
    ensures Follows(env, c, HandlePacket(c, env, r)) && DifferByEdits(HandlePacket(c, env, r).core.settings)
  {
    ApplyEffect(c, env, r);
    ApplyOutcome(c, env, r);
    var on, known := c.drive.enabled, c.settings.active.driver;
    OneCall(on, known, ConfigureDriver(c.settings.staged.driver, env.configureDriver == Returned(true)));
    NoDriverNoChange(on, known, []);
    SameDriver(c);
    SettledStaging(c);
    hide HandlePacket, SwitchedOn, SetUp, Invariant, DriverChanged;
  }

  lemma SettledStaging(c: Core)
    requires Invariant(c)
    ensures !c.settings.isStaged ==> c.settings.staged == c.settings.active
  {
    hide IsValid;
  }

  lemma SameDriver(c: Core)
    requires DifferByEdits(c.settings)
    ensures !DriverChanged(c) ==> c.settings.staged.driver == c.settings.active.driver
  {}

  lemma ResetFollows(c: Core, env: Env, r: Packet)
    requires !IsRepeat(c, r) && IsReset(r) && DifferByEdits(c.settings)
    ensures
      var w := HandlePacket(c, env, r);
      && DifferByEdits(w.core.settings)
      && (if AdoptsRefused(c, env, Handle(r)) then SetUp(c.settings.active.driver, w.calls) == c.settings.active.driver
          else Follows(env, c, w))
      && SwitchedOn(c.drive.enabled, w.calls) == c.drive.enabled == w.core.drive.enabled
  {
    ResetEffect(c, env, r);
    ResetCalls(c.drive.enabled, c.settings.active.driver, c.settings.defaults.driver, env);
    NoDriverNoChange(c.drive.enabled, c.settings.active.driver, []);
    hide HandlePacket, SwitchedOn, SetUp, MaybeCall;
  }

  lemma ResetCalls(on: bool, known: DriverConfig, driver: DriverConfig, env: Env)
    ensures
      var calls := MaybeCall(env.configureDriver, ConfigureDriver(driver, env.configureDriver == Returned(true)))
                 + (if env.configureDriver == Returned(false) then []
                    else MaybeCall(env.resetStorage, ResetStorage(env.resetStorage == Returned(true))));
      && SwitchedOn(on, calls) == on
      && SetUp(known, calls) == if env.configureDriver == Returned(true) then driver else known
  {
    var setUp := ConfigureDriver(driver, env.configureDriver == Returned(true));
    var reset := MaybeCall(env.resetStorage, ResetStorage(env.resetStorage == Returned(true)));
    OneCall(on, known, setUp);
    DriverConcat(on, known, [], reset);
    DriverConcat(on, known, [setUp], []);
    DriverConcat(on, known, [setUp], reset);
    DriverConcat(on, known, [], []);
    hide SwitchedOn, SetUp;
    NoDriverNoChange(on, known, []);
    NoDriverNoChange(on, driver, []);
    NoDriverNoChange(on, driver, reset);
    NoDriverNoChange(on, known, reset);
  }

  /** A boot turns the driver off, unless the driver refuses its configuration: then it is not called again. */
  lemma BootFollows(defaults: ActuatorConfig, env: Env, on: bool, known: DriverConfig)
    ensures
      var w := Begin(defaults, env);
      var refused := env.configureDriver == Returned(false);
      && (env.enableDriver.Returned? ==> SwitchedOn(on, w.calls) == (refused && on))
      && (env.configureDriver.Returned? ==>
            SetUp(known, w.calls) == if refused then known else w.core.settings.active.driver)
      && DifferByEdits(w.core.settings)
  {
    BootEffect(defaults, env);
    BootSettles(defaults, env);
    BootCalls(on, known, Begin(defaults, env).core.settings.active.driver, env);
    hide Begin, SwitchedOn, SetUp;
  }

  lemma BootCalls(on: bool, known: DriverConfig, driver: DriverConfig, env: Env)
    ensures
      var refused := [ConfigureDriver(driver, false)];
      SwitchedOn(on, refused) == on && SetUp(known, refused) == known
    ensures
      var setUp := MaybeCall(env.configureDriver, ConfigureDriver(driver, true));
      var off := MaybeCall(env.enableDriver, EnableDriver(false, env.enableDriver.Or(true)));
      && SwitchedOn(on, setUp + off) == (on && env.enableDriver.Absent?)
      && SetUp(known, setUp + off) == if env.configureDriver.Absent? then known else driver
  {
    var setUp := MaybeCall(env.configureDriver, ConfigureDriver(driver, true));
    var off := MaybeCall(env.enableDriver, EnableDriver(false, env.enableDriver.Or(true)));
    OneCall(on, known, ConfigureDriver(driver, false));
    OneCall(on, known, ConfigureDriver(driver, true));
    OneCall(on, SetUp(known, setUp), EnableDriver(false, env.enableDriver.Or(true)));
    DriverConcat(on, known, setUp, off);
    NoDriverNoChange(on, known, []);
    NoDriverNoChange(on, SetUp(known, setUp), []);
    hide SwitchedOn, SetUp;
  }

  lemma BootSettles(defaults: ActuatorConfig, env: Env)
    ensures var s := Begin(defaults, env).core.settings; s.staged == s.active && !s.isStaged
  {
    hide IsValid, Notify, TransitionTo, SetFault;
  }

  lemma DispatchFollows(c: Core, env: Env, r: Packet)
    requires !IsRepeat(c, r) && (!UsesDriver(r.msgId) || (TakesNoPayload(r.msgId) && r.payload != []))
    ensures Follows(env, c, HandlePacket(c, env, r))
  {
    var w := Start(Seen(c, env));
    HandledAs(c, env, r);
    if UsesDriver(r.msgId) {
      assert Dispatch(w, env, r) == Reject(w, env, r, Malformed);
      NoCallFollows(env, c, HandlePacket(c, env, r));
    } else {
      DispatchLeavesDriver(w, env, r);
      hide SwitchedOn, SetUp, HandlePacket, Dispatch, UsesDriver;
      NoDriverNoChange(c.drive.enabled, c.settings.active.driver, Dispatch(w, env, r).calls);
    }
  }

  lemma ControlFollows(c: Core, env: Env, r: Packet)
    requires !IsRepeat(c, r) && (r.msgId == SET_CONTROL_MODE || (r.msgId == ESTOP && r.payload == []))
    ensures Follows(env, c, HandlePacket(c, env, r))
  {
    var w := Start(Seen(c, env));
    HandledAs(c, env, r);
    SetControlModeFollows(w, env, r);
    EmergencyStopFollows(w, env, r);
    hide HandlePacket, Dispatch, SwitchedOn, SetUp, SetControlMode, EmergencyStopNow;
    if r.msgId == ESTOP {
      EmergencyStopDispatch(w, env, r);
    } else {
      ModeDispatch(w, env, r);
    }
  }

  lemma EmergencyStopDispatch(w: Work, env: Env, r: Packet)
    requires r.msgId == ESTOP && r.payload == []
    ensures Dispatch(w, env, r) == EmergencyStopNow(w, env, r)
  {
    hide EmergencyStopNow, RejectVia;
  }

  /**
    After every step the drive says that the driver is enabled exactly if the last call to it that took effect enabled
    it, and the active configuration is the last one the driver took: except after a boot or a reset whose
    configuration the driver refuses. The driver then keeps its configuration, and after such a boot stays as it was.
   */
  lemma DriverFollows(c: Core, env: Env, a: Action)
    requires Invariant(c) && DifferByEdits(c.settings)
    ensures
      var w := Step(c, env, a);
      var refused := AdoptsRefused(c, env, a);
      && (env.enableDriver.Returned? ==>
            SwitchedOn(c.drive.enabled, w.calls) == if refused then c.drive.enabled else w.core.drive.enabled)
      && (env.configureDriver.Returned? ==>
            SetUp(c.settings.active.driver, w.calls) ==
              if refused then c.settings.active.driver else w.core.settings.active.driver)
  {
    hide SwitchedOn, SetUp, Invariant, DifferByEdits;
    match a
    case Handle(r) =>
      hide HandlePacket;
      if IsRepeat(c, r) {
        RepeatFollows(c, env, r);
      } else {
        if r.msgId == SET_CONTROL_MODE || (r.msgId == ESTOP && r.payload == []) {
          ControlFollows(c, env, r);
        } else if r.msgId == CONFIG_APPLY && r.payload == [] {
          ApplyFollows(c, env, r);
        } else if IsReset(r) {
          ResetFollows(c, env, r);
        } else {
          DispatchFollows(c, env, r);
        }
      }
    case Tick(writer) =>
      UpdateFollows(c, env, if writer then Direct else NoWriter);
      hide Update;
    case FrameFailed(_) =>
      SilentFollows(c, env, a);
      hide RecordFrameError;
    case Telemetry(_) =>
      SilentFollows(c, env, a);
      hide SendTelemetry;
    case Restart =>
      BootFollows(c.settings.defaults, env, c.drive.enabled, c.settings.active.driver);
      hide Begin;
  }

  lemma RepeatFollows(c: Core, env: Env, r: Packet)
    requires IsRepeat(c, r)
    ensures Follows(env, c, HandlePacket(c, env, r)) && HandlePacket(c, env, r).core.settings == c.settings
  {
    NoCallFollows(env, c, HandlePacket(c, env, r));
    hide Follows, SendAll, RejectVia, Dispatch;
  }

  lemma SilentFollows(c: Core, env: Env, a: Action)
    requires a.FrameFailed? || a.Telemetry?
    ensures Follows(env, c, Step(c, env, a)) && Step(c, env, a).core.settings == c.settings
  {
    NoCallFollows(env, c, Step(c, env, a));
    hide Follows, SetFault, Send, Report;
  }

  // ----- Runs -----

  lemma MalformedKeepsConfigs(c: Core, env: Env, r: Packet)
    requires !IsRepeat(c, r) && |r.payload| != (if r.msgId == SET_TELEM_RATE then 2 else 0)
    requires r.msgId in {CONFIG_APPLY, CONFIG_RESET_DEFAULTS, SET_TELEM_RATE}
    ensures HandlePacket(c, env, r).core.settings == c.settings
  {
    HandledAs(c, env, r);
    hide HandlePacket, RejectVia, ApplyStaged, ResetDefaults;
  }

  lemma RateKeepsRest(a: ActuatorConfig, b: ActuatorConfig)
    requires OnlyRateDiffers(a, b)
    ensures Unstageable(a) == Unstageable(b)
  {}

  lemma StayByEdits(c: Core, env: Env, a: Action)
    requires Invariant(c) && DifferByEdits(c.settings)
    ensures DifferByEdits(Step(c, env, a).core.settings)
  {
    hide Invariant, HandlePacket, Unstageable, OnlyRateDiffers, Follows;
    if a.Restart? {
      BootFollows(c.settings.defaults, env, false, c.settings.active.driver);
      hide Begin;
    } else if a.Handle? && IsRepeat(c, a.request) {
      RepeatFollows(c, env, a.request);
    } else if !a.Handle? || !(Reconfigures(a) || a.request.msgId == CONFIG_STAGE_FIELD) {
      hide Step;
      OtherStepsKeepConfigs(c, env, a);
    } else if a.request.msgId == CONFIG_STAGE_FIELD {
      StageEffect(c, env, a.request);
      hide AcceptsEdit, EditOf, FieldValue;
    } else if |a.request.payload| != (if a.request.msgId == SET_TELEM_RATE then 2 else 0) {
      MalformedKeepsConfigs(c, env, a.request);
    } else if a.request.msgId == CONFIG_APPLY {
      ApplyFollows(c, env, a.request);
    } else if a.request.msgId == CONFIG_RESET_DEFAULTS {
      ResetFollows(c, env, a.request);
    } else {
      TelemetryRateEffect(c, env, a.request);
      var after := HandlePacket(c, env, a.request).core.settings;
      RateKeepsRest(after.active, c.settings.active);
      RateKeepsRest(after.staged, c.settings.staged);
    }
  }

  /** The callbacks that the driver is reached by are installed, and it refuses no boot and no reset. */
  predicate DriverServes(c: Core, input: Input) {
    && input.env.enableDriver.Returned? && input.env.configureDriver.Returned?
    && !AdoptsRefused(c, input.env, input.action)
  }

  ghost predicate DriverAlwaysServes(c: Core, inputs: seq<Input>) {
    forall i :: 0 <= i < |inputs| ==> DriverServes(Run(c, inputs[..i]), inputs[i])
  }

  lemma ServesBefore(c: Core, inputs: seq<Input>)
    requires DriverAlwaysServes(c, inputs) && inputs != []
    ensures
      var init, last := inputs[..|inputs| - 1], inputs[|inputs| - 1];
      DriverAlwaysServes(c, init) && DriverServes(Run(c, init), last)
  {
    hide Run, DriverServes;
    var init := inputs[..|inputs| - 1];
    forall i | 0 <= i < |init| ensures DriverServes(Run(c, init[..i]), init[i]) {
      assert init[..i] == inputs[..i] && DriverServes(Run(c, inputs[..i]), inputs[i]);
    }
  }

  /** Through a whole run the drive and the active configuration say what its calls have made of the driver. */
  lemma {:induction false} DriverFollowsRun(c: Core, inputs: seq<Input>)
    requires Invariant(c) && DifferByEdits(c.settings) && DriverAlwaysServes(c, inputs)
    ensures
      var d := Run(c, inputs);
      && DifferByEdits(d.settings)
      && d.drive.enabled == SwitchedOn(c.drive.enabled, Calls(c, inputs))
      && d.settings.active.driver == SetUp(c.settings.active.driver, Calls(c, inputs))
    decreases |inputs|
  {
    hide Step, Invariant, DifferByEdits, AdoptsRefused, DriverAlwaysServes;
    if inputs == [] {
      NoDriverNoChange(c.drive.enabled, c.settings.active.driver, []);
    } else {
      var init, last := inputs[..|inputs| - 1], inputs[|inputs| - 1];
      var d := Run(c, init);
      ServesBefore(c, inputs);
      DriverFollowsRun(c, init);
      RunKeepsInvariant(c, init);
      StayByEdits(d, last.env, last.action);
      DriverFollows(d, last.env, last.action);
      DriverConcat(c.drive.enabled, c.settings.active.driver, Calls(c, init), Step(d, last.env, last.action).calls);
    }
  }

  /**
    From a boot on, however the driver was before it: the drive says that the driver is enabled exactly if the last call
    to it that took effect enabled it, and the active configuration is the one it was last given.
   */
  lemma DriverFollowsSinceBoot(defaults: ActuatorConfig, boot: Env, inputs: seq<Input>, on: bool, known: DriverConfig)
    requires IsValid(defaults) && boot.enableDriver.Returned? && boot.configureDriver == Returned(true)
    requires DriverAlwaysServes(Begin(defaults, boot).core, inputs)
    ensures
      var booted := Begin(defaults, boot);
      var calls := booted.calls + Calls(booted.core, inputs);
      && Run(booted.core, inputs).drive.enabled == SwitchedOn(on, calls)
      && Run(booted.core, inputs).settings.active.driver == SetUp(known, calls)
  {
    BeginEstablishes(defaults, boot);
    BootFollows(defaults, boot, on, known);
    BeginPermitted(defaults, boot);
    hide Begin, Invariant, DifferByEdits, DriverAlwaysServes, Run, Calls, SwitchedOn, SetUp;
    var booted := Begin(defaults, boot);
    DriverFollowsRun(booted.core, inputs);
    DriverConcat(on, known, booted.calls, Calls(booted.core, inputs));
  }
}
