/** The event packets as a log: folding them rebuilds the actuator's state and faults. */
module ActuatorLog {
  import opened Bytes
  import opened Config
  import opened Protocol
  import opened ActuatorTypes
  import opened ActuatorSteps
  import opened ActuatorTrace

  /** What a listener knows. */
  datatype View = View(state: State, faults: set<Fault>)

  function ViewOf(c: Core): View { View(c.drive.state, c.faults) }

  function Heard(v: View, o: Outgoing): View {
    match o.message
    case Notice(StateChanged(_, to)) => v.(state := to)
    case Notice(FaultSet(_, faults)) => v.(faults := faults)
    case Notice(FaultCleared(_)) => v.(faults := {})
    case _ => v
  }

  function Fold(v: View, s: seq<Outgoing>): View
    decreases |s|
  {
    if s == [] then v else Heard(Fold(v, s[..|s| - 1]), s[|s| - 1])
  }

  /** Every change of state starts from the state in which the one before it ended. */
  predicate Chained(v: View, s: seq<Outgoing>)
    decreases |s|
  {
    s == [] ||
    (var init, last := s[..|s| - 1], s[|s| - 1];
     Chained(v, init) && (last.message.Notice? && last.message.event.StateChanged? ==>
                            last.message.event.from == Fold(v, init).state))
  }

  lemma {:induction false} FoldConcat(v: View, s: seq<Outgoing>, t: seq<Outgoing>)
    ensures Fold(v, s + t) == Fold(Fold(v, s), t)
    ensures Chained(v, s + t) <==> Chained(v, s) && Chained(Fold(v, s), t)
    decreases |t|
  {
    hide Heard;
    if t == [] {
      assert s + t == s;
    } else {
      FoldConcat(v, s, t[..|t| - 1]);
      assert (s + t)[..|s + t| - 1] == s + t[..|t| - 1];
    }
  }

  predicate IsSilent(m: Message) {
    m.Notice? ==> !m.event.StateChanged? && !m.event.FaultSet? && !m.event.FaultCleared?
  }

  ghost predicate AllSilent(s: seq<Outgoing>) { forall i :: 0 <= i < |s| ==> IsSilent(s[i].message) }

  lemma {:induction false} SilentFold(v: View, s: seq<Outgoing>)
    requires AllSilent(s)
    ensures Fold(v, s) == v && Chained(v, s)
    decreases |s|
  {
    if s != [] {
      SilentFold(v, s[..|s| - 1]);
    }
  }

  // ----- Within a step -----

  /**
    What was sent so far tells a listener who started from `v` where the actuator is; the cache got no state events.
   */
  ghost predicate Logged(v: View, w: Work) {
    Fold(v, w.sent) == ViewOf(w.core) && Chained(v, w.sent) && AllSilent(w.responses)
  }

  lemma SameLogged(v: View, w: Work, w': Work)
    requires Logged(v, w) && w'.sent == w.sent && w'.responses == w.responses && ViewOf(w'.core) == ViewOf(w.core)
    ensures Logged(v, w')
  {}

  lemma SendLogged(v: View, w: Work, env: Env, via: Writer, number: uint16, m: Message)
    requires Logged(v, w) && IsSilent(m)
    ensures Logged(v, Send(w, env, via, number, m))
  {
    var o := Outgoing(number, m);
    assert (w.sent + [o])[..|w.sent|] == w.sent;
  }

  lemma NotifyLogged(v: View, w: Work, env: Env, via: Writer, number: uint16, e: Occurrence)
    requires Logged(v, w) && IsSilent(Notice(e))
    ensures Logged(v, Notify(w, env, via, number, e))
  {
    hide Send, Logged;
    SendLogged(v, w, env, via, number, Notice(e));
  }

  /** A change of the view and the event that announces it, sent to the serial port. */
  lemma AnnounceLogged(v: View, w: Work, changed: Work, env: Env, number: uint16, e: Occurrence)
    requires Logged(v, w) && changed.sent == w.sent && changed.responses == w.responses
    requires Heard(ViewOf(w.core), Outgoing(number, Notice(e))) == ViewOf(changed.core)
    requires e.StateChanged? ==> e.from == w.core.drive.state
    ensures Logged(v, Notify(changed, env, Direct, number, e))
  {
    var o := Outgoing(number, Notice(e));
    assert (w.sent + [o])[..|w.sent|] == w.sent;
  }

  lemma TransitionLogged(v: View, w: Work, env: Env, s: State)
    requires Logged(v, w)
    ensures Logged(v, TransitionTo(w, env, s, Direct))
  {
    hide Notify, Logged;
    AnnounceLogged(v, w, WithState(w, s), env, 0, StateChanged(w.core.drive.state, s));
  }

  lemma FaultLogged(v: View, w: Work, env: Env, f: Fault)
    requires Logged(v, w)
    ensures Logged(v, SetFault(w, env, f, Direct))
  {
    hide Notify, TransitionTo, Logged;
    var raised := w.(core := w.core.(faults := w.core.faults + {f}));
    var told := raised;
    if f in w.core.faults {
      assert raised.core.faults == w.core.faults;
      SameLogged(v, w, raised);
    } else {
      AnnounceLogged(v, w, raised, env, 0, FaultSet(f, raised.core.faults));
      told := Notify(raised, env, Direct, 0, FaultSet(f, raised.core.faults));
    }
    TransitionLogged(v, told, env, Faulted);
  }

  lemma AcknowledgeLogged(v: View, w: Work, env: Env, r: Packet)
    requires Logged(v, w)
    ensures Logged(v, Acknowledge(w, env, r))
  {
    hide Send, Logged;
    SendLogged(v, w, env, Caching, r.number, Ack(r.msgId));
  }

  lemma RejectLogged(v: View, w: Work, env: Env, via: Writer, r: Packet, code: ErrorCode)
    requires Logged(v, w)
    ensures Logged(v, RejectVia(w, env, via, r, code))
    ensures via == Caching ==> Logged(v, Reject(w, env, r, code))
  {
    hide Send, Logged;
    var counted := w.(core := w.core.(counters := w.core.counters.(rejected := Add32(w.core.counters.rejected, 1))));
    SameLogged(v, w, counted);
    SendLogged(v, counted, env, via, r.number, Error(r.msgId, code));
  }

  lemma FailLogged(v: View, w: Work, env: Env, f: Fault, r: Packet, code: ErrorCode)
    requires Logged(v, w)
    ensures Logged(v, Reject(SetFault(w, env, f, Direct), env, r, code))
  {
    hide SetFault, Reject, RejectVia, Logged;
    FaultLogged(v, w, env, f);
    RejectLogged(v, SetFault(w, env, f, Direct), env, Caching, r, code);
  }

  lemma DoLogged<T>(v: View, w: Work, answer: Answer<T>, call: Call)
    requires Logged(v, w)
    ensures Logged(v, Do(w, answer, call))
  {
    hide Logged;
    SameLogged(v, w, Do(w, answer, call));
  }

  /** A transition, another mode, and the acknowledgement. */
  lemma SettleLogged(v: View, w: Work, env: Env, s: State, mode: Mode, r: Packet)
    requires Logged(v, w)
    ensures Logged(v, Acknowledge(WithMode(TransitionTo(w, env, s, Direct), mode), env, r))
    ensures Logged(v, Acknowledge(TransitionTo(w, env, s, Direct), env, r))
  {
    hide TransitionTo, Acknowledge, Logged;
    var w1 := TransitionTo(w, env, s, Direct);
    TransitionLogged(v, w, env, s);
    SameLogged(v, w1, WithMode(w1, mode));
    AcknowledgeLogged(v, w1, env, r);
    AcknowledgeLogged(v, WithMode(w1, mode), env, r);
  }

  // ----- The commands -----

  lemma ReportFieldLogged(v: View, w: Work, env: Env, r: Packet)
    requires Logged(v, w)
    ensures Logged(v, ReportField(w, env, r))
  {
    hide Send, Notify, TransitionTo, SetFault, Acknowledge, Reject, RejectVia, Logged, FieldOf, FieldValue,
         FieldMutability;
    RejectLogged(v, w, env, Caching, r, Malformed);
    RejectLogged(v, w, env, Caching, r, InvalidField);
    if |r.payload| == 2 {
      match FieldOf(U16At(r.payload, 0))
      case None =>
      case Some(f) =>
        SendLogged(v, w, env, Caching, r.number,
                   ConfigValue(f, FieldMutability(f), w.core.settings.isStaged, FieldValue(w.core.settings.active, f)));
    }
  }

  lemma SetControlModeLogged(v: View, w: Work, env: Env, r: Packet)
    requires Logged(v, w)
    ensures Logged(v, SetControlMode(w, env, r))
  {
    hide Send, Notify, TransitionTo, SetFault, Acknowledge, Reject, RejectVia, Logged, EnableInMode;
    RejectLogged(v, w, env, Caching, r, Malformed);
    RejectLogged(v, w, env, Caching, r, OutOfRange);
    RejectLogged(v, w, env, Caching, r, IsFaulted);
    RejectLogged(v, w, env, Caching, r, Busy);
    if |r.payload| == 1 && r.payload[0] <= 3 {
      var w1 := WithMode(w, ModeOf(r.payload[0]));
      SameLogged(v, w, w1);
      EnableInModeLogged(v, w1, env, r);
      var off := Do(w1, env.enableDriver, EnableDriver(false, env.enableDriver.Or(true)));
      SameLogged(v, w1, WithEnabled(off, false));
      SettleLogged(v, WithEnabled(off, false), env, Disabled, ModeDisabled, r);
    }
  }

  lemma EnableInModeLogged(v: View, w: Work, env: Env, r: Packet)
    requires Logged(v, w)
    ensures Logged(v, EnableInMode(w, env, r))
  {
    hide Send, Notify, TransitionTo, SetFault, Acknowledge, Reject, RejectVia, Logged;
    var configured := Do(w, env.configureDriver,
                         ConfigureDriver(w.core.settings.active.driver, env.configureDriver.Or(true)));
    SameLogged(v, w, configured);
    FailLogged(v, configured, env, DriverFault, r, BadState);
    var on := Do(configured, env.enableDriver, EnableDriver(true, env.enableDriver.Or(true)));
    SameLogged(v, configured, on);
    FailLogged(v, on, env, DriverFault, r, BadState);
    SameLogged(v, on, WithEnabled(on, true));
    SettleLogged(v, WithEnabled(on, true), env, if w.core.drive.mode == ModeCommissioning then Commissioning else Idle,
                 ModeDisabled, r);
  }

  lemma EmergencyStopNowLogged(v: View, w: Work, env: Env, r: Packet)
    requires Logged(v, w)
    ensures Logged(v, EmergencyStopNow(w, env, r))
  {
    hide Send, Notify, TransitionTo, SetFault, Acknowledge, Reject, RejectVia, Logged;
    SameLogged(v, w, StopAndDisable(w, env));
    SettleLogged(v, StopAndDisable(w, env), env, Faulted, ModeDisabled, r);
  }

  lemma RampStopNowLogged(v: View, w: Work, env: Env, r: Packet)
    requires Logged(v, w)
    ensures Logged(v, RampStopNow(w, env, r))
  {
    hide Send, Notify, TransitionTo, SetFault, Acknowledge, Reject, RejectVia, Logged;
    RejectLogged(v, w, env, Caching, r, Malformed);
    AcknowledgeLogged(v, w, env, r);
    if |r.payload| == 4 {
      var called := Do(w, env.rampStop, RampStop(U32At(r.payload, 0), env.rampStop.Or(false)));
      SameLogged(v, w, called);
      FailLogged(v, called, env, DriverFault, r, BadState);
      SettleLogged(v, called, env, Stopping, ModePosition, r);
    }
  }

  lemma ClearFaultsLogged(v: View, w: Work, env: Env, r: Packet)
    requires Logged(v, w)
    ensures Logged(v, ClearFaults(w, env, r))
  {
    hide Send, Notify, TransitionTo, SetFault, Acknowledge, Reject, RejectVia, Logged;
    var previous := w.core.faults;
    var cleared := w.(core := w.core.(faults := {}));
    var told := cleared;
    if previous == {} {
      SameLogged(v, w, cleared);
    } else {
      AnnounceLogged(v, w, cleared, env, r.number, FaultCleared(previous));
      told := Notify(cleared, env, Direct, r.number, FaultCleared(previous));
    }
    SettleLogged(v, told, env, Disabled, ModeDisabled, r);
    SettleLogged(v, told, env, Idle, ModeDisabled, r);
  }

  lemma StageLogged(v: View, w: Work, env: Env, r: Packet)
    requires Logged(v, w)
    ensures Logged(v, Stage(w, env, r))
  {
    hide Send, Notify, TransitionTo, SetFault, Acknowledge, Reject, RejectVia, Logged, StageRequest;
    match StageRequest(w.core, r)
    case StageRefused(code) => RejectLogged(v, w, env, Caching, r, code);
    case StageAccepted(config) =>
      var held := WithSettings(w, w.core.settings.(staged := config, isStaged := true));
      SameLogged(v, w, held);
      AcknowledgeLogged(v, held, env, r);
      SettleLogged(v, held, env, ConfigStaged, ModeDisabled, r);
  }

  lemma ApplyStagedLogged(v: View, w: Work, env: Env, r: Packet)
    requires Logged(v, w)
    ensures Logged(v, ApplyStaged(w, env, r))
  {
    hide Send, Notify, TransitionTo, SetFault, Acknowledge, Reject, RejectVia, Logged, IsValid, DriverChanged;
    AcknowledgeLogged(v, w, env, r);
    RejectLogged(v, w, env, Caching, r, Busy);
    FailLogged(v, w, env, InvalidConfig, r, OutOfRange);
    var called :=
      if DriverChanged(w.core) then
        Do(w, env.configureDriver, ConfigureDriver(w.core.settings.staged.driver, env.configureDriver.Or(true)))
      else w;
    SameLogged(v, w, called);
    FailLogged(v, called, env, DriverFault, r, BadState);
    var applied := WithSettings(called, w.core.settings.(active := w.core.settings.staged, isStaged := false));
    SameLogged(v, called, applied);
    var target := if w.core.drive.enabled then Idle else Disabled;
    TransitionLogged(v, applied, env, target);
    var settled := TransitionTo(applied, env, target, Direct);
    NotifyLogged(v, settled, env, Direct, 0, ConfigApplied(w.core.settings.generation));
    AcknowledgeLogged(v, Notify(settled, env, Direct, 0, ConfigApplied(w.core.settings.generation)), env, r);
  }

  lemma SaveActiveLogged(v: View, w: Work, env: Env, r: Packet)
    requires Logged(v, w)
    ensures Logged(v, SaveActive(w, env, r))
  {
    hide Send, Notify, TransitionTo, SetFault, Acknowledge, Reject, RejectVia, Logged;
    var called := Do(w, env.saveConfig, SaveConfig(w.core.settings.active, env.saveConfig.Or(false)));
    SameLogged(v, w, called);
    FailLogged(v, called, env, ConfigStorage, r, Storage);
    var next := Add32(w.core.settings.generation, 1);
    var counted := WithSettings(called, w.core.settings.(generation := next));
    SameLogged(v, called, counted);
    NotifyLogged(v, counted, env, Direct, r.number, ConfigSaved(next));
    AcknowledgeLogged(v, Notify(counted, env, Direct, r.number, ConfigSaved(next)), env, r);
  }

  lemma ResetDefaultsLogged(v: View, w: Work, env: Env, r: Packet)
    requires Logged(v, w)
    ensures Logged(v, ResetDefaults(w, env, r))
  {
    hide Send, Notify, TransitionTo, SetFault, Acknowledge, Reject, RejectVia, Logged;
    RejectLogged(v, w, env, Caching, r, Busy);
    var defaults := w.core.settings.defaults;
    var back := WithSettings(w, w.core.settings.(active := defaults, staged := defaults, isStaged := false));
    var configured := Do(back, env.configureDriver, ConfigureDriver(defaults.driver, env.configureDriver.Or(true)));
    SameLogged(v, w, configured);
    FailLogged(v, configured, env, DriverFault, r, BadState);
    var erased := Do(configured, env.resetStorage, ResetStorage(env.resetStorage.Or(true)));
    SameLogged(v, configured, erased);
    FailLogged(v, erased, env, ConfigStorage, r, Storage);
    var applied := ConfigApplied(w.core.settings.generation);
    NotifyLogged(v, erased, env, Direct, r.number, applied);
    AcknowledgeLogged(v, Notify(erased, env, Direct, r.number, applied), env, r);
  }

  lemma RebootNowLogged(v: View, w: Work, env: Env, r: Packet)
    requires Logged(v, w)
    ensures Logged(v, RebootNow(w, env, r))
  {
    hide Send, Notify, TransitionTo, SetFault, Acknowledge, Reject, RejectVia, Logged;
    AcknowledgeLogged(v, w, env, r);
    DoLogged(v, Acknowledge(w, env, r), env.reboot, RebootCall);
  }

  lemma StartedLogged(v: View, called: Work, env: Env, r: Packet, ok: bool, s: State, mode: Mode)
    requires Logged(v, called)
    ensures Logged(v, Started(called, env, r, ok, s, mode))
  {
    hide Send, Notify, TransitionTo, SetFault, Acknowledge, Reject, RejectVia, Logged;
    FailLogged(v, called, env, DriverFault, r, BadState);
    SettleLogged(v, called, env, s, mode, r);
  }

  lemma MoveAbsLogged(v: View, w: Work, env: Env, r: Packet)
    requires Logged(v, w)
    ensures Logged(v, MoveAbs(w, env, r))
  {
    hide Send, Notify, TransitionTo, SetFault, Acknowledge, Reject, RejectVia, Logged, Started, WithinLimits,
         SoftLimitViolation, ToBackend;
    RejectLogged(v, w, env, Caching, r, Malformed);
    RejectLogged(v, w, env, Caching, r, OutOfRange);
    if MotionRefusal(w.core, ModePosition).Some? {
      RejectLogged(v, w, env, Caching, r, MotionRefusal(w.core, ModePosition).value);
    }
    FailLogged(v, w, env, SoftLimit, r, OutOfRange);
    if |r.payload| == 12 {
      match ToBackend(w.core.settings.active, I32At(r.payload, 0))
      case None =>
      case Some(value) =>
        var ok := env.moveAbsolute.Or(false);
        var called := Do(w, env.moveAbsolute, MoveAbsolute(value, U32At(r.payload, 4), U32At(r.payload, 8), ok));
        SameLogged(v, w, called);
        StartedLogged(v, called, env, r, ok, MovingPosition, ModePosition);
    }
  }

  lemma MoveRelLogged(v: View, w: Work, env: Env, r: Packet)
    requires Logged(v, w)
    ensures Logged(v, MoveRel(w, env, r))
  {
    hide Send, Notify, TransitionTo, SetFault, Acknowledge, Reject, RejectVia, Logged, Started, WithinLimits,
         SoftLimitViolation, ToBackend, FromBackend;
    RejectLogged(v, w, env, Caching, r, Malformed);
    RejectLogged(v, w, env, Caching, r, OutOfRange);
    if MotionRefusal(w.core, ModePosition).Some? {
      RejectLogged(v, w, env, Caching, r, MotionRefusal(w.core, ModePosition).value);
    }
    FailLogged(v, w, env, SoftLimit, r, OutOfRange);
    if |r.payload| == 12 {
      match ToBackend(w.core.settings.active, I32At(r.payload, 0))
      case None =>
      case Some(value) =>
        var ok := env.moveRelative.Or(false);
        var called := Do(w, env.moveRelative, MoveRelative(value, U32At(r.payload, 4), U32At(r.payload, 8), ok));
        SameLogged(v, w, called);
        StartedLogged(v, called, env, r, ok, MovingPosition, ModePosition);
    }
  }

  lemma RunVelLogged(v: View, w: Work, env: Env, r: Packet)
    requires Logged(v, w)
    ensures Logged(v, RunVel(w, env, r))
  {
    hide Send, Notify, TransitionTo, SetFault, Acknowledge, Reject, RejectVia, Logged, Started, WithinLimits, ToBackend;
    RejectLogged(v, w, env, Caching, r, Malformed);
    RejectLogged(v, w, env, Caching, r, OutOfRange);
    if MotionRefusal(w.core, ModeVelocity).Some? {
      RejectLogged(v, w, env, Caching, r, MotionRefusal(w.core, ModeVelocity).value);
    }
    if |r.payload| == 8 {
      match ToBackend(w.core.settings.active, I32At(r.payload, 0))
      case None =>
      case Some(value) =>
        var ok := env.runVelocity.Or(false);
        var called := Do(w, env.runVelocity, RunVelocity(value, U32At(r.payload, 4), ok));
        SameLogged(v, w, called);
        StartedLogged(v, called, env, r, ok, RunningVelocity, ModeVelocity);
    }
  }

  lemma SetTelemetryRateLogged(v: View, w: Work, env: Env, r: Packet)
    requires Logged(v, w)
    ensures Logged(v, SetTelemetryRate(w, env, r))
  {
    hide Send, Notify, TransitionTo, SetFault, Acknowledge, Reject, RejectVia, Logged;
    RejectLogged(v, w, env, Caching, r, Malformed);
    if |r.payload| == 2 {
      var rate := U16At(r.payload, 0);
      var s := w.core.settings;
      var active := s.active.(telemetry := s.active.telemetry.(intervalMs := rate));
      var staged := if s.isStaged then s.staged.(telemetry := s.staged.telemetry.(intervalMs := rate)) else active;
      var settings := s.(active := active, staged := staged);
      SameLogged(v, w, WithSettings(w, settings));
      AcknowledgeLogged(v, WithSettings(w, settings), env, r);
    }
  }

  lemma UnknownLogged(v: View, w: Work, env: Env, r: Packet)
    requires Logged(v, w)
    ensures Logged(v, Unknown(w, env, r))
  {
    hide Send, Notify, TransitionTo, SetFault, Acknowledge, Reject, RejectVia, Logged;
    FailLogged(v, w, env, UnsupportedCommand, r, Unsupported);
  }

  lemma InquireLogged(v: View, w: Work, env: Env, r: Packet)
    requires Logged(v, w) && r.msgId != GET_DRIVER_STATUS
    ensures Logged(v, Inquire(w, env, r))
  {
    hide Send, Notify, TransitionTo, SetFault, Acknowledge, Reject, RejectVia, Logged, Report, ReportDriver, Unknown;
    UnknownLogged(v, w, env, r);
    AcknowledgeLogged(v, w, env, r);
    SendLogged(v, Acknowledge(w, env, r), env, Caching, r.number, Pong);
    SendLogged(v, w, env, Caching, r.number, Identity(w.core.settings.generation));
    SendLogged(v, w, env, Caching, r.number, Capabilities(w.core.settings.active.safety.hostTimeoutMs));
    ReportIsSilent(w.core, env, false);
    SendLogged(v, w, env, Caching, r.number, Report(w.core, env, false));
    SendLogged(v, w, env, Caching, r.number, FaultReport(w.core.faults));
    SendLogged(v, w, env, Caching, r.number, CounterReport(w.core.counters));
  }

  lemma ReportIsSilent(c: Core, env: Env, telemetry: bool)
    ensures IsSilent(Report(c, env, telemetry))
  {}

  lemma DispatchLogged(v: View, w: Work, env: Env, r: Packet)
    requires Logged(v, w) && !(r.msgId == GET_DRIVER_STATUS && r.payload == [])
    ensures Logged(v, Dispatch(w, env, r))
  {
    hide Logged, Send, Notify, RejectVia, Reject,
         Inquire, SetControlMode, EmergencyStopNow, RampStopNow, ClearFaults, ReportField, Stage, ApplyStaged,
         SaveActive, ResetDefaults, RebootNow, MoveAbs, MoveRel, RunVel, SetTelemetryRate, Unknown;
    if TakesNoPayload(r.msgId) && r.payload != [] {
      RejectLogged(v, w, env, Caching, r, Malformed);
    } else if r.msgId < SET_CONTROL_MODE || r.msgId == GET_DRIVER_STATUS {
      InquireLogged(v, w, env, r);
    } else if r.msgId == SET_CONTROL_MODE {
      SetControlModeLogged(v, w, env, r);
    } else if r.msgId == ESTOP {
      EmergencyStopNowLogged(v, w, env, r);
    } else if r.msgId == RAMP_STOP {
      RampStopNowLogged(v, w, env, r);
    } else if r.msgId == CLEAR_FAULTS {
      ClearFaultsLogged(v, w, env, r);
    } else if r.msgId == CONFIG_QUERY {
      ReportFieldLogged(v, w, env, r);
    } else if r.msgId == CONFIG_STAGE_FIELD {
      StageLogged(v, w, env, r);
    } else if r.msgId == CONFIG_APPLY {
      ApplyStagedLogged(v, w, env, r);
    } else if r.msgId == CONFIG_SAVE {
      SaveActiveLogged(v, w, env, r);
    } else if r.msgId == CONFIG_RESET_DEFAULTS {
      ResetDefaultsLogged(v, w, env, r);
    } else if r.msgId == REBOOT {
      RebootNowLogged(v, w, env, r);
    } else if r.msgId == MOVE_ABS {
      MoveAbsLogged(v, w, env, r);
    } else if r.msgId == MOVE_REL {
      MoveRelLogged(v, w, env, r);
    } else if r.msgId == RUN_VEL {
      RunVelLogged(v, w, env, r);
    } else if r.msgId == SET_TELEM_RATE {
      SetTelemetryRateLogged(v, w, env, r);
    } else {
      UnknownLogged(v, w, env, r);
    }
  }

  // ----- The one request whose answer carries state events -----

  predicate IsChange(o: Outgoing) { o.message.Notice? && o.message.event.StateChanged? }

  ghost predicate ChangesState(s: seq<Outgoing>) { exists i :: 0 <= i < |s| && IsChange(s[i]) }

  /** Every change of state reported starts outside FAULTED. */
  ghost predicate ChangesFromElsewhere(s: seq<Outgoing>) {
    forall i :: 0 <= i < |s| && IsChange(s[i]) ==> s[i].message.event.from != Faulted
  }

  /** Hearing the answers again tells a listener nothing new. */
  ghost predicate Tame(c: Core, responses: seq<Outgoing>) {
    || AllSilent(responses)
    || (c.drive.state == Faulted && Fold(ViewOf(c), responses) == ViewOf(c) && ChangesFromElsewhere(responses))
  }

  lemma {:induction false} NoChangeNoMove(v: View, s: seq<Outgoing>)
    requires !ChangesState(s)
    ensures Fold(v, s).state == v.state
    decreases |s|
  {
    if s != [] {
      var init := s[..|s| - 1];
      assert !IsChange(s[|s| - 1]);
      assert !ChangesState(init) by { assert forall i :: 0 <= i < |init| ==> init[i] == s[i]; }
      NoChangeNoMove(v, init);
    }
  }

  /** To a listener in FAULTED, changes of state that start elsewhere never chain. */
  lemma {:induction false} OldChangesUnchain(v: View, s: seq<Outgoing>)
    requires v.state == Faulted && ChangesFromElsewhere(s)
    ensures Chained(v, s) <==> !ChangesState(s)
    decreases |s|
  {
    if s != [] {
      var init := s[..|s| - 1];
      assert forall i :: 0 <= i < |init| ==> init[i] == s[i];
      OldChangesUnchain(v, init);
      if !ChangesState(init) {
        NoChangeNoMove(v, init);
      }
      assert ChangesState(s) <==> ChangesState(init) || IsChange(s[|s| - 1]) by { LastChange(s); }
    }
  }

  lemma LastChange(s: seq<Outgoing>)
    requires s != []
    ensures ChangesState(s) <==> ChangesState(s[..|s| - 1]) || IsChange(s[|s| - 1])
  {
    var init := s[..|s| - 1];
    assert forall i :: 0 <= i < |init| ==> init[i] == s[i];
  }

  lemma SilentChangesNothing(s: seq<Outgoing>)
    requires AllSilent(s)
    ensures !ChangesState(s)
  {}

  lemma FoldOne(v: View, s: seq<Outgoing>, o: Outgoing)
    ensures Fold(v, s + [o]) == Heard(Fold(v, s), o)
    ensures Chained(v, s + [o]) <==>
      Chained(v, s) && (o.message.Notice? && o.message.event.StateChanged? ==> o.message.event.from == Fold(v, s).state)
  {
    assert (s + [o])[..|s|] == s;
  }

  /** A listener who is or is not up to date, while a faulted driver is being reported through the cache. */
  ghost predicate Reporting(v: View, w: Work, last: Core) {
    && Fold(v, w.sent) == ViewOf(w.core) && Chained(v, w.sent)
    && Fold(ViewOf(last), w.responses) == ViewOf(last) && ChangesFromElsewhere(w.responses)
  }

  lemma CachedNotice(v: View, w: Work, changed: Work, env: Env, number: uint16, m: Message, last: Core)
    requires Reporting(v, w, last) && changed.sent == w.sent && changed.responses == w.responses
    requires Heard(ViewOf(w.core), Outgoing(number, m)) == ViewOf(changed.core)
    requires Heard(ViewOf(last), Outgoing(number, m)) == ViewOf(last)
    requires m.Notice? && m.event.StateChanged? ==> m.event.from == w.core.drive.state != Faulted
    ensures Reporting(v, Send(changed, env, Caching, number, m), last)
  {
    FoldOne(v, w.sent, Outgoing(number, m));
    FoldOne(ViewOf(last), w.responses, Outgoing(number, m));
    hide Fold, Chained, Heard;
  }

  lemma UartFaultReported(v: View, w: Work, env: Env, last: Core)
    requires Reporting(v, w, last)
    requires ViewOf(last) == View(Faulted, w.core.faults + {DriverUart})
    ensures Reporting(v, SetFault(w, env, DriverUart, Caching), last)
  {
    hide Send, Reporting;
    var faults := w.core.faults + {DriverUart};
    var raised := w.(core := w.core.(faults := faults));
    var told := raised;
    if DriverUart in w.core.faults {
      assert faults == w.core.faults;
      assert raised == w;
    } else {
      CachedNotice(v, w, raised, env, 0, Notice(FaultSet(DriverUart, faults)), last);
      told := Notify(raised, env, Caching, 0, FaultSet(DriverUart, faults));
    }
    if told.core.drive.state != Faulted {
      CachedNotice(v, told, WithState(told, Faulted), env, 0, Notice(StateChanged(told.core.drive.state, Faulted)),
                   last);
    }
  }

  lemma ReportDriverLogged(v: View, w: Work, env: Env, r: Packet)
    requires Logged(v, w) && w.responses == []
    ensures
      var w' := ReportDriver(w, env, r);
      Fold(v, w'.sent) == ViewOf(w'.core) && Chained(v, w'.sent) && Tame(w'.core, w'.responses)
  {
    var status := env.driverStatus.Or(NO_STATUS);
    if status.configured && !status.uartOk {
      hide Send, Reporting;
      var last := ReportDriver(w, env, r).core;
      assert Reporting(v, w, last) by { NothingReported(v, w, last); }
      UartFaultReported(v, w, env, last);
      var w1 := SetFault(w, env, DriverUart, Caching);
      var failure := Notice(DriverUartFailure(status.details));
      CachedNotice(v, w1, w1, env, r.number, failure, last);
      var w2 := Send(w1, env, Caching, r.number, failure);
      CachedNotice(v, w2, w2, env, r.number, DriverReport(status), last);
      ReportedIsTame(v, ReportDriver(w, env, r), last);
    } else {
      hide Send;
      SendLogged(v, w, env, Caching, r.number, DriverReport(status));
    }
  }

  lemma NothingReported(v: View, w: Work, last: Core)
    requires Logged(v, w) && w.responses == []
    ensures Reporting(v, w, last)
  {}

  lemma ReportedIsTame(v: View, w: Work, last: Core)
    requires Reporting(v, w, last) && w.core.drive.state == Faulted && ViewOf(w.core) == ViewOf(last)
    ensures Fold(v, w.sent) == ViewOf(w.core) && Chained(v, w.sent) && Tame(w.core, w.responses)
  {}

  // ----- Steps -----

  /** Repeating the cached answer tells nothing new. */
  ghost predicate CacheTame(c: Core) { Tame(c, c.cache.responses) }

  /** An exact repeat of a request whose answer reported a change of state. */
  ghost predicate Unchains(c: Core, a: Action) {
    a.Handle? && c.cache.request == Some(a.request) && ChangesState(c.cache.responses)
  }

  lemma FreshLogged(c: Core, env: Env, r: Packet)
    requires !IsRepeat(c, r)
    ensures
      var w := HandlePacket(c, env, r);
      Fold(ViewOf(c), w.sent) == ViewOf(w.core) && Chained(ViewOf(c), w.sent) && CacheTame(w.core)
  {
    hide Dispatch, ReportDriver;
    var seen := Start(c.(lastHostMs := Now(env), counters := c.counters.(commands := Add32(c.counters.commands, 1))));
    assert Logged(ViewOf(c), seen);
    if r.msgId == GET_DRIVER_STATUS && r.payload == [] {
      ReportDriverLogged(ViewOf(c), seen, env, r);
      DriverStatusDispatch(seen, env, r);
    } else {
      DispatchLogged(ViewOf(c), seen, env, r);
    }
  }

  lemma DriverStatusDispatch(w: Work, env: Env, r: Packet)
    requires r.msgId == GET_DRIVER_STATUS && r.payload == []
    ensures Dispatch(w, env, r) == ReportDriver(w, env, r)
  {
    hide ReportDriver, Send, RejectVia;
  }

  /** A repeat leaves the fold right, and breaks the chain exactly when it re-sends a change of state. */
  lemma RepeatLogged(c: Core, env: Env, r: Packet)
    requires IsRepeat(c, r) && CacheTame(c)
    ensures
      var w := HandlePacket(c, env, r);
      && Fold(ViewOf(c), w.sent) == ViewOf(c) == ViewOf(w.core)
      && w.core.cache == c.cache
      && (Chained(ViewOf(c), w.sent) <==> !Unchains(c, Handle(r)))
  {
    hide Send, Fold, Chained, ChangesState, ChangesFromElsewhere;
    var seen := Start(c.(lastHostMs := Now(env),
                         counters := c.counters.(duplicates := Add32(c.counters.duplicates, 1))));
    if r == c.cache.request.value {
      SendAllSends(seen, env, c.cache.responses);
      assert [] + c.cache.responses == c.cache.responses;
      if AllSilent(c.cache.responses) {
        SilentFold(ViewOf(c), c.cache.responses);
        SilentChangesNothing(c.cache.responses);
      } else {
        OldChangesUnchain(ViewOf(c), c.cache.responses);
      }
    } else {
      NothingHeard(ViewOf(c));
      assert Logged(ViewOf(c), seen);
      RejectLogged(ViewOf(c), seen, env, Direct, r, DuplicateMismatch);
    }
  }

  /** An answer reports a change of state exactly when it is that of a driver whose UART fails, outside FAULTED. */
  lemma AnswerChangesState(c: Core, env: Env, r: Packet)
    requires !IsRepeat(c, r)
    ensures
      var status := env.driverStatus.Or(NO_STATUS);
      ChangesState(HandlePacket(c, env, r).core.cache.responses) <==>
        && r.msgId == GET_DRIVER_STATUS && r.payload == []
        && status.configured && !status.uartOk && c.drive.state != Faulted
  {
    hide Dispatch, ReportDriver, ChangesState, Fold, Chained;
    var seen := Start(c.(lastHostMs := Now(env), counters := c.counters.(commands := Add32(c.counters.commands, 1))));
    if r.msgId == GET_DRIVER_STATUS && r.payload == [] {
      DriverStatusDispatch(seen, env, r);
      ReportChangesState(seen, env, r);
    } else {
      NothingHeard(ViewOf(c));
      assert Logged(ViewOf(c), seen);
      DispatchLogged(ViewOf(c), seen, env, r);
      SilentChangesNothing(Dispatch(seen, env, r).responses);
    }
  }

  lemma ReportChangesState(w: Work, env: Env, r: Packet)
    requires w.responses == []
    ensures
      var status := env.driverStatus.Or(NO_STATUS);
      ChangesState(ReportDriver(w, env, r).responses) <==>
        status.configured && !status.uartOk && w.core.drive.state != Faulted
  {
    var status := env.driverStatus.Or(NO_STATUS);
    var w' := ReportDriver(w, env, r);
    if status.configured && !status.uartOk && w.core.drive.state != Faulted {
      assert IsChange(w'.responses[|w'.responses| - 3]);
    }
  }

  /**
    So the chain does break: a driver status request that finds a failing UART outside FAULTED, delivered twice, reports
    the change of state twice.
   */
  lemma RepeatedStatusUnchains(c: Core, env: Env, again: Env, r: Packet)
    requires CacheTame(c) && !IsRepeat(c, r) && c.drive.state != Faulted
    requires r.msgId == GET_DRIVER_STATUS && r.payload == []
    requires env.driverStatus.Returned? && env.driverStatus.value.configured && !env.driverStatus.value.uartOk
    ensures
      var c' := HandlePacket(c, env, r).core;
      !Chained(ViewOf(c'), HandlePacket(c', again, r).sent)
  {
    AnswerChangesState(c, env, r);
    FreshLogged(c, env, r);
    FreshIsCached(c, env, r);
    hide HandlePacket, CacheTame, ChangesState;
    RepeatLogged(HandlePacket(c, env, r).core, again, r);
  }

  lemma FreshIsCached(c: Core, env: Env, r: Packet)
    requires !IsRepeat(c, r)
    ensures HandlePacket(c, env, r).core.cache.request == Some(r)
  {
    hide Dispatch;
  }

  lemma FinishMotionLogged(v: View, w: Work, env: Env)
    requires Logged(v, w)
    ensures Logged(v, FinishMotion(w, env, Direct))
  {
    hide Notify, TransitionTo, Logged;
    var target := if w.core.drive.enabled then Idle else Disabled;
    TransitionLogged(v, w, env, target);
    var settled := TransitionTo(w, env, target, Direct);
    SameLogged(v, settled, WithMode(settled, if w.core.drive.enabled then ModePosition else ModeDisabled));
  }

  lemma CheckHostLogged(v: View, w: Work, env: Env)
    requires Logged(v, w)
    ensures Logged(v, CheckHost(w, env, Direct))
  {
    hide Notify, TransitionTo, SetFault, Logged;
    var safety := w.core.settings.active.safety;
    FaultLogged(v, w, env, HostTimeout);
    var faulted := SetFault(w, env, HostTimeout, Direct);
    NotifyLogged(v, faulted, env, Direct, 0, HostTimedOut(safety.timeoutAction, safety.hostTimeoutMs));
    var told := Notify(faulted, env, Direct, 0, HostTimedOut(safety.timeoutAction, safety.hostTimeoutMs));
    SameLogged(v, told, StopAndDisable(told, env));
    TransitionLogged(v, StopAndDisable(told, env), env, Faulted);
    var called := Do(told, env.rampStop, RampStop(w.core.settings.active.motion.stopDecel, env.rampStop.Or(true)));
    SameLogged(v, told, called);
    TransitionLogged(v, called, env, Stopping);
    var stopping := TransitionTo(called, env, Stopping, Direct);
    SameLogged(v, stopping, WithMode(stopping, ModePosition));
  }

  lemma UpdateLogged(c: Core, env: Env)
    ensures
      var w := Update(c, env, Direct);
      Fold(ViewOf(c), w.sent) == ViewOf(w.core) && Chained(ViewOf(c), w.sent)
  {
    var v := ViewOf(c);
    assert Logged(v, Start(c));
    var w := AnnounceBoot(Start(c), env, Direct);
    assert Logged(v, w) by {
      hide Notify, Logged;
      if c.bootEventPending {
        NotifyLogged(v, Start(c), env, Direct, 0, BootReason(c.bootReason));
        var told := Notify(Start(c), env, Direct, 0, BootReason(c.bootReason));
        SameLogged(v, told, w);
      }
    }
    hide Logged, AnnounceBoot, FinishMotion, CheckHost;
    FinishMotionLogged(v, w, env);
    CheckHostLogged(v, FinishMotion(w, env, Direct), env);
    LoggedSays(v, Update(c, env, Direct));
  }

  lemma LoggedSays(v: View, w: Work)
    requires Logged(v, w)
    ensures Fold(v, w.sent) == ViewOf(w.core) && Chained(v, w.sent)
  {}

  lemma UpdateKeepsTame(c: Core, env: Env, via: Writer)
    requires CacheTame(c)
    ensures CacheTame(Update(c, env, via).core)
  {
    hide Notify, TransitionTo, SetFault, AnnounceBoot, FinishMotion, Fold;
  }

  /** The steps whose events all reach a listener: packets, updates with a writer, and telemetry. */
  predicate Announced(a: Action) { a.Handle? || a.Telemetry? || (a.Tick? && a.writer) }

  lemma StepLogged(c: Core, env: Env, a: Action)
    requires CacheTame(c) && Announced(a)
    ensures
      var w := Step(c, env, a);
      && Fold(ViewOf(c), w.sent) == ViewOf(w.core) && CacheTame(w.core)
      && (Chained(ViewOf(c), w.sent) <==> !Unchains(c, a))
  {
    match a
    case Handle(r) =>
      hide HandlePacket, Fold, ChangesState;
      if IsRepeat(c, r) {
        RepeatLogged(c, env, r);
        SameTame(c, HandlePacket(c, env, r).core);
      } else {
        FreshLogged(c, env, r);
      }
    case Tick(_) =>
      hide Update, Fold;
      UpdateLogged(c, env);
      UpdateKeepsTame(c, env, Direct);
    case Telemetry(number) =>
      assert Logged(ViewOf(c), Start(c));
      hide Send, Report, Fold, Logged;
      ReportIsSilent(c, env, true);
      SendLogged(ViewOf(c), Start(c), env, Direct, number, Report(c, env, true));
      LoggedSays(ViewOf(c), Send(Start(c), env, Direct, number, Report(c, env, true)));
      SameTame(c, SendTelemetry(c, env, number).core);
  }

  lemma SameTame(c: Core, d: Core)
    requires CacheTame(c) && d.cache == c.cache && ViewOf(d) == ViewOf(c)
    ensures CacheTame(d)
  {}

  /** A frame error tells no one: it keeps a listener right exactly when its fault was set and the actuator faulted. */
  lemma FrameErrorIsSilent(c: Core, env: Env, error: FrameError)
    ensures
      var w := RecordFrameError(c, env, error);
      var fault := match error { case BadCrc => CrcFault case BadPayload => PayloadFault case BadVersion => RxFrame };
      && w.sent == []
      && (ViewOf(w.core) == ViewOf(c) <==> fault in c.faults && c.drive.state == Faulted)
  {}

  // ----- Whole runs -----

  /**
    In a run of packets, updates with a writer and telemetry, folding every event sent rebuilds the actuator's state and
    faults. Each change of state starts where the last one ended, exactly when no answer that reported one is repeated.
   */
  lemma {:induction false} LogRebuildsState(c: Core, inputs: seq<Input>)
    requires CacheTame(c) && forall input :: input in inputs ==> Announced(input.action)
    ensures Fold(ViewOf(c), Sent(c, inputs)) == ViewOf(Run(c, inputs)) && CacheTame(Run(c, inputs))
    ensures Chained(ViewOf(c), Sent(c, inputs)) <==> NoneUnchains(c, inputs)
    decreases |inputs|
  {
    hide Step, CacheTame, Announced, Unchains, Fold, Chained;
    if inputs == [] {
      NothingHeard(ViewOf(c));
    } else {
      var init, last := inputs[..|inputs| - 1], inputs[|inputs| - 1];
      assert last in inputs;
      LogRebuildsState(c, init);
      var before := Run(c, init);
      StepLogged(before, last.env, last.action);
      FoldConcat(ViewOf(c), Sent(c, init), Step(before, last.env, last.action).sent);
      LastUnchains(c, inputs);
    }
  }

  ghost predicate NoneUnchains(c: Core, inputs: seq<Input>) {
    forall i :: 0 <= i < |inputs| ==> !Unchains(Run(c, inputs[..i]), inputs[i].action)
  }

  lemma LastUnchains(c: Core, inputs: seq<Input>)
    requires inputs != []
    ensures
      var init, last := inputs[..|inputs| - 1], inputs[|inputs| - 1];
      NoneUnchains(c, inputs) <==> NoneUnchains(c, init) && !Unchains(Run(c, init), last.action)
  {
    hide Run, Unchains;
    var init := inputs[..|inputs| - 1];
    assert forall i :: 0 <= i < |init| ==> init[..i] == inputs[..i] && init[i] == inputs[i];
  }

  lemma NothingHeard(v: View)
    ensures Fold(v, []) == v && Chained(v, [])
  {}

  /** After a boot the log of the whole run since then rebuilds state and faults. */
  lemma LogSinceBoot(defaults: ActuatorConfig, boot: Env, inputs: seq<Input>)
    requires forall input :: input in inputs ==> Announced(input.action)
    ensures
      var c := Begin(defaults, boot).core;
      Fold(ViewOf(c), Sent(c, inputs)) == ViewOf(Run(c, inputs))
  {
    BootedIsTame(defaults, boot);
    hide Begin, CacheTame, Announced, Fold, Run, Sent;
    LogRebuildsState(Begin(defaults, boot).core, inputs);
  }

  lemma BootedIsTame(defaults: ActuatorConfig, boot: Env)
    ensures CacheTame(Begin(defaults, boot).core)
  {
    hide Send, Notify, TransitionTo, SetFault, Validate;
  }
}
