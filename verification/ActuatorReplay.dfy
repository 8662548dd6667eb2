/** The duplicate cache: what a repeat does, and that fresh packets do the same to actuators alike but for repeats. */
module ActuatorReplay {
  import opened Bytes
  import opened Config
  import opened Protocol
  import opened ActuatorTypes
  import opened ActuatorSteps

  // ----- Actuators alike but for the link counters and the host timer -----

  function BlurCounters(k: Counters): Counters { k.(dropped := 0, duplicates := 0) }

  function BlurMessage(m: Message): Message {
    match m case CounterReport(k) => CounterReport(BlurCounters(k)) case _ => m
  }

  function Blur(o: Outgoing): Outgoing { Outgoing(o.number, BlurMessage(o.message)) }

  function BlurAll(s: seq<Outgoing>): seq<Outgoing> { seq(|s|, i requires 0 <= i < |s| => Blur(s[i])) }

  /** The actuator without its count of duplicate and dropped packets and without the time of the last packet. */
  function BlurCore(c: Core): Core {
    c.(counters := BlurCounters(c.counters), lastHostMs := 0,
       cache := c.cache.(responses := BlurAll(c.cache.responses)))
  }

  predicate Alike(v: Work, w: Work) {
    && BlurCore(v.core) == BlurCore(w.core) && v.calls == w.calls
    && BlurAll(v.sent) == BlurAll(w.sent) && BlurAll(v.responses) == BlurAll(w.responses)
  }

  lemma SameView(v: Work, w: Work)
    requires Alike(v, w)
    ensures v.core.settings == w.core.settings && v.core.drive == w.core.drive && v.core.faults == w.core.faults
    ensures BlurCounters(v.core.counters) == BlurCounters(w.core.counters)
  {}

  lemma BlurAppend(s: seq<Outgoing>, o: Outgoing)
    ensures BlurAll(s + [o]) == BlurAll(s) + [Blur(o)]
  {}

  lemma SendAlike(v: Work, w: Work, env: Env, via: Writer, number: uint16, m: Message, n: Message)
    requires Alike(v, w) && BlurMessage(m) == BlurMessage(n)
    ensures Alike(Send(v, env, via, number, m), Send(w, env, via, number, n))
  {
    BlurAppend(v.sent, Outgoing(number, m));
    BlurAppend(w.sent, Outgoing(number, n));
    BlurAppend(v.responses, Outgoing(number, m));
    BlurAppend(w.responses, Outgoing(number, n));
    hide BlurAll;
  }

  lemma NotifyAlike(v: Work, w: Work, env: Env, via: Writer, number: uint16, e: Occurrence)
    requires Alike(v, w)
    ensures Alike(Notify(v, env, via, number, e), Notify(w, env, via, number, e))
  {
    hide Send, Alike;
    SendAlike(v, w, env, via, number, Notice(e), Notice(e));
  }

  lemma WithDriveAlike(v: Work, w: Work, d: Drive)
    requires Alike(v, w)
    ensures Alike(v.(core := v.core.(drive := d)), w.(core := w.core.(drive := d)))
  {
    hide BlurAll;
  }

  lemma WithSettingsAlike(v: Work, w: Work, s: Settings)
    requires Alike(v, w)
    ensures Alike(WithSettings(v, s), WithSettings(w, s))
  {
    hide BlurAll;
  }

  lemma WithFaultsAlike(v: Work, w: Work, f: set<Fault>)
    requires Alike(v, w)
    ensures Alike(v.(core := v.core.(faults := f)), w.(core := w.core.(faults := f)))
  {
    hide BlurAll;
  }

  lemma DoAlike<T>(v: Work, w: Work, answer: Answer<T>, call: Call)
    requires Alike(v, w)
    ensures Alike(Do(v, answer, call), Do(w, answer, call))
  {
    hide BlurAll;
  }

  lemma TransitionAlike(v: Work, w: Work, env: Env, s: State, via: Writer)
    requires Alike(v, w)
    ensures Alike(TransitionTo(v, env, s, via), TransitionTo(w, env, s, via))
  {
    hide Notify, Alike;
    SameView(v, w);
    WithDriveAlike(v, w, v.core.drive.(state := s));
    NotifyAlike(WithState(v, s), WithState(w, s), env, via, 0, StateChanged(v.core.drive.state, s));
  }

  lemma FaultAlike(v: Work, w: Work, env: Env, f: Fault, via: Writer)
    requires Alike(v, w)
    ensures Alike(SetFault(v, env, f, via), SetFault(w, env, f, via))
  {
    hide Notify, TransitionTo, Alike;
    SameView(v, w);
    var faults := v.core.faults + {f};
    var v1, w1 := v.(core := v.core.(faults := faults)), w.(core := w.core.(faults := faults));
    WithFaultsAlike(v, w, faults);
    NotifyAlike(v1, w1, env, via, 0, FaultSet(f, faults));
    if f in v.core.faults {
      TransitionAlike(v1, w1, env, Faulted, via);
    } else {
      TransitionAlike(Notify(v1, env, via, 0, FaultSet(f, faults)), Notify(w1, env, via, 0, FaultSet(f, faults)), env,
                      Faulted, via);
    }
  }

  lemma AcknowledgeAlike(v: Work, w: Work, env: Env, r: Packet)
    requires Alike(v, w)
    ensures Alike(Acknowledge(v, env, r), Acknowledge(w, env, r))
  {
    hide Send, Alike;
    SendAlike(v, w, env, Caching, r.number, Ack(r.msgId), Ack(r.msgId));
  }

  lemma RejectAlike(v: Work, w: Work, env: Env, via: Writer, r: Packet, code: ErrorCode)
    requires Alike(v, w)
    ensures Alike(RejectVia(v, env, via, r, code), RejectVia(w, env, via, r, code))
    ensures via == Caching ==> Alike(Reject(v, env, r, code), Reject(w, env, r, code))
  {
    hide Send, BlurAll;
    var v1 := v.(core := v.core.(counters := v.core.counters.(rejected := Add32(v.core.counters.rejected, 1))));
    var w1 := w.(core := w.core.(counters := w.core.counters.(rejected := Add32(w.core.counters.rejected, 1))));
    assert Alike(v1, w1);
    SendAlike(v1, w1, env, via, r.number, Error(r.msgId, code), Error(r.msgId, code));
  }

  lemma FailAlike(v: Work, w: Work, env: Env, f: Fault, r: Packet, code: ErrorCode)
    requires Alike(v, w)
    ensures Alike(Reject(SetFault(v, env, f, Direct), env, r, code), Reject(SetFault(w, env, f, Direct), env, r, code))
  {
    hide SetFault, Reject, RejectVia, Alike;
    FaultAlike(v, w, env, f, Direct);
    RejectAlike(SetFault(v, env, f, Direct), SetFault(w, env, f, Direct), env, Caching, r, code);
  }

  // ----- The commands -----

  lemma ReportDriverAlike(v: Work, w: Work, env: Env, r: Packet)
    requires Alike(v, w)
    ensures Alike(ReportDriver(v, env, r), ReportDriver(w, env, r))
  {
    hide Send, Notify, TransitionTo, SetFault, Acknowledge, Reject, RejectVia, Alike;
    SameView(v, w);
    var status := env.driverStatus.Or(NO_STATUS);
    var v1, w1 := v, w;
    if status.configured && !status.uartOk {
      FaultAlike(v, w, env, DriverUart, Caching);
      v1, w1 := SetFault(v, env, DriverUart, Caching), SetFault(w, env, DriverUart, Caching);
      NotifyAlike(v1, w1, env, Caching, r.number, DriverUartFailure(status.details));
      v1, w1 := Notify(v1, env, Caching, r.number, DriverUartFailure(status.details)),
                Notify(w1, env, Caching, r.number, DriverUartFailure(status.details));
    }
    SendAlike(v1, w1, env, Caching, r.number, DriverReport(status), DriverReport(status));
  }

  lemma ReportFieldAlike(v: Work, w: Work, env: Env, r: Packet)
    requires Alike(v, w)
    ensures Alike(ReportField(v, env, r), ReportField(w, env, r))
  {
    hide Send, Notify, TransitionTo, SetFault, Acknowledge, Reject, RejectVia, Alike, FieldOf, FieldValue,
         FieldMutability;
    SameView(v, w);
    RejectAlike(v, w, env, Caching, r, Malformed);
    RejectAlike(v, w, env, Caching, r, InvalidField);
    if |r.payload| == 2 {
      match FieldOf(U16At(r.payload, 0))
      case None =>
      case Some(f) =>
        var m := ConfigValue(f, FieldMutability(f), v.core.settings.isStaged, FieldValue(v.core.settings.active, f));
        SendAlike(v, w, env, Caching, r.number, m, m);
    }
  }

  lemma SetControlModeAlike(v: Work, w: Work, env: Env, r: Packet)
    requires Alike(v, w)
    ensures Alike(SetControlMode(v, env, r), SetControlMode(w, env, r))
  {
    hide Send, Notify, TransitionTo, SetFault, Acknowledge, Reject, RejectVia, Alike, EnableInMode;
    SameView(v, w);
    RejectAlike(v, w, env, Caching, r, Malformed);
    RejectAlike(v, w, env, Caching, r, OutOfRange);
    RejectAlike(v, w, env, Caching, r, IsFaulted);
    RejectAlike(v, w, env, Caching, r, Busy);
    if |r.payload| == 1 && r.payload[0] <= 3 {
      var mode := ModeOf(r.payload[0]);
      WithDriveAlike(v, w, v.core.drive.(mode := mode));
      var v1, w1 := WithMode(v, mode), WithMode(w, mode);
      EnableInModeAlike(v1, w1, env, r);
      var call := EnableDriver(false, env.enableDriver.Or(true));
      DoAlike(v1, w1, env.enableDriver, call);
      v1, w1 := Do(v1, env.enableDriver, call), Do(w1, env.enableDriver, call);
      WithDriveAlike(v1, w1, v1.core.drive.(enabled := false));
      v1, w1 := WithEnabled(v1, false), WithEnabled(w1, false);
      TransitionAlike(v1, w1, env, Disabled, Direct);
      AcknowledgeAlike(TransitionTo(v1, env, Disabled, Direct), TransitionTo(w1, env, Disabled, Direct), env, r);
    }
  }

  lemma EnableInModeAlike(v: Work, w: Work, env: Env, r: Packet)
    requires Alike(v, w)
    ensures Alike(EnableInMode(v, env, r), EnableInMode(w, env, r))
  {
    hide Send, Notify, TransitionTo, SetFault, Acknowledge, Reject, RejectVia, Alike;
    SameView(v, w);
    var configure := ConfigureDriver(v.core.settings.active.driver, env.configureDriver.Or(true));
    DoAlike(v, w, env.configureDriver, configure);
    var v1, w1 := Do(v, env.configureDriver, configure), Do(w, env.configureDriver, configure);
    FailAlike(v1, w1, env, DriverFault, r, BadState);
    var enable := EnableDriver(true, env.enableDriver.Or(true));
    DoAlike(v1, w1, env.enableDriver, enable);
    v1, w1 := Do(v1, env.enableDriver, enable), Do(w1, env.enableDriver, enable);
    FailAlike(v1, w1, env, DriverFault, r, BadState);
    WithDriveAlike(v1, w1, v1.core.drive.(enabled := true));
    v1, w1 := WithEnabled(v1, true), WithEnabled(w1, true);
    var target := if v.core.drive.mode == ModeCommissioning then Commissioning else Idle;
    TransitionAlike(v1, w1, env, target, Direct);
    AcknowledgeAlike(TransitionTo(v1, env, target, Direct), TransitionTo(w1, env, target, Direct), env, r);
  }

  lemma EmergencyStopNowAlike(v: Work, w: Work, env: Env, r: Packet)
    requires Alike(v, w)
    ensures Alike(EmergencyStopNow(v, env, r), EmergencyStopNow(w, env, r))
  {
    hide Send, Notify, TransitionTo, SetFault, Acknowledge, Reject, RejectVia, Alike;
    SameView(v, w);
    DoAlike(v, w, env.emergencyStop, EmergencyStop);
    var v1, w1 := Do(v, env.emergencyStop, EmergencyStop), Do(w, env.emergencyStop, EmergencyStop);
    var call := EnableDriver(false, env.enableDriver.Or(true));
    DoAlike(v1, w1, env.enableDriver, call);
    v1, w1 := Do(v1, env.enableDriver, call), Do(w1, env.enableDriver, call);
    WithDriveAlike(v1, w1, v1.core.drive.(enabled := false, mode := ModeDisabled));
    v1, w1 := StopAndDisable(v, env), StopAndDisable(w, env);
    TransitionAlike(v1, w1, env, Faulted, Direct);
    AcknowledgeAlike(TransitionTo(v1, env, Faulted, Direct), TransitionTo(w1, env, Faulted, Direct), env, r);
  }

  lemma RampStopNowAlike(v: Work, w: Work, env: Env, r: Packet)
    requires Alike(v, w)
    ensures Alike(RampStopNow(v, env, r), RampStopNow(w, env, r))
  {
    hide Send, Notify, TransitionTo, SetFault, Acknowledge, Reject, RejectVia, Alike;
    SameView(v, w);
    RejectAlike(v, w, env, Caching, r, Malformed);
    AcknowledgeAlike(v, w, env, r);
    if |r.payload| == 4 {
      var call := RampStop(U32At(r.payload, 0), env.rampStop.Or(false));
      DoAlike(v, w, env.rampStop, call);
      var v1, w1 := Do(v, env.rampStop, call), Do(w, env.rampStop, call);
      FailAlike(v1, w1, env, DriverFault, r, BadState);
      TransitionAlike(v1, w1, env, Stopping, Direct);
      v1, w1 := TransitionTo(v1, env, Stopping, Direct), TransitionTo(w1, env, Stopping, Direct);
      WithDriveAlike(v1, w1, v1.core.drive.(mode := ModePosition));
      AcknowledgeAlike(WithMode(v1, ModePosition), WithMode(w1, ModePosition), env, r);
    }
  }

  lemma ClearFaultsAlike(v: Work, w: Work, env: Env, r: Packet)
    requires Alike(v, w)
    ensures Alike(ClearFaults(v, env, r), ClearFaults(w, env, r))
  {
    hide Send, Notify, TransitionTo, SetFault, Acknowledge, Reject, RejectVia, Alike;
    SameView(v, w);
    var previous := v.core.faults;
    WithFaultsAlike(v, w, {});
    var v1, w1 := v.(core := v.core.(faults := {})), w.(core := w.core.(faults := {}));
    if previous != {} {
      NotifyAlike(v1, w1, env, Direct, r.number, FaultCleared(previous));
      v1, w1 := Notify(v1, env, Direct, r.number, FaultCleared(previous)),
                Notify(w1, env, Direct, r.number, FaultCleared(previous));
    }
    if !v.core.drive.enabled {
      TransitionAlike(v1, w1, env, Disabled, Direct);
      v1, w1 := TransitionTo(v1, env, Disabled, Direct), TransitionTo(w1, env, Disabled, Direct);
      WithDriveAlike(v1, w1, v1.core.drive.(mode := ModeDisabled));
      AcknowledgeAlike(WithMode(v1, ModeDisabled), WithMode(w1, ModeDisabled), env, r);
    } else {
      TransitionAlike(v1, w1, env, Idle, Direct);
      AcknowledgeAlike(TransitionTo(v1, env, Idle, Direct), TransitionTo(w1, env, Idle, Direct), env, r);
    }
  }

  lemma StageAlike(v: Work, w: Work, env: Env, r: Packet)
    requires Alike(v, w)
    ensures Alike(Stage(v, env, r), Stage(w, env, r))
  {
    hide Send, Notify, TransitionTo, SetFault, Acknowledge, Reject, RejectVia, Alike, StageRequest;
    SameView(v, w);
    SameStageRequest(v.core, w.core, r);
    match StageRequest(v.core, r)
    case StageRefused(code) => RejectAlike(v, w, env, Caching, r, code);
    case StageAccepted(config) =>
      var settings := v.core.settings.(staged := config, isStaged := true);
      WithSettingsAlike(v, w, settings);
      var v1, w1 := WithSettings(v, settings), WithSettings(w, settings);
      AcknowledgeAlike(v1, w1, env, r);
      TransitionAlike(v1, w1, env, ConfigStaged, Direct);
      AcknowledgeAlike(TransitionTo(v1, env, ConfigStaged, Direct), TransitionTo(w1, env, ConfigStaged, Direct), env,
                       r);
  }

  lemma SameStageRequest(c: Core, d: Core, r: Packet)
    requires c.settings == d.settings
    ensures StageRequest(c, r) == StageRequest(d, r)
  {}

  lemma ApplyStagedAlike(v: Work, w: Work, env: Env, r: Packet)
    requires Alike(v, w)
    ensures Alike(ApplyStaged(v, env, r), ApplyStaged(w, env, r))
  {
    hide Send, Notify, TransitionTo, SetFault, Acknowledge, Reject, RejectVia, Alike, IsValid;
    SameView(v, w);
    AcknowledgeAlike(v, w, env, r);
    RejectAlike(v, w, env, Caching, r, Busy);
    FailAlike(v, w, env, InvalidConfig, r, OutOfRange);
    var v1, w1 := v, w;
    if DriverChanged(v.core) {
      var call := ConfigureDriver(v.core.settings.staged.driver, env.configureDriver.Or(true));
      DoAlike(v, w, env.configureDriver, call);
      v1, w1 := Do(v, env.configureDriver, call), Do(w, env.configureDriver, call);
    }
    FailAlike(v1, w1, env, DriverFault, r, BadState);
    var settings := v.core.settings.(active := v.core.settings.staged, isStaged := false);
    WithSettingsAlike(v1, w1, settings);
    v1, w1 := WithSettings(v1, settings), WithSettings(w1, settings);
    var target := if v.core.drive.enabled then Idle else Disabled;
    TransitionAlike(v1, w1, env, target, Direct);
    v1, w1 := TransitionTo(v1, env, target, Direct), TransitionTo(w1, env, target, Direct);
    var applied := ConfigApplied(v.core.settings.generation);
    NotifyAlike(v1, w1, env, Direct, 0, applied);
    AcknowledgeAlike(Notify(v1, env, Direct, 0, applied), Notify(w1, env, Direct, 0, applied), env, r);
  }

  lemma SaveActiveAlike(v: Work, w: Work, env: Env, r: Packet)
    requires Alike(v, w)
    ensures Alike(SaveActive(v, env, r), SaveActive(w, env, r))
  {
    hide Send, Notify, TransitionTo, SetFault, Acknowledge, Reject, RejectVia, Alike;
    SameView(v, w);
    var call := SaveConfig(v.core.settings.active, env.saveConfig.Or(false));
    DoAlike(v, w, env.saveConfig, call);
    var v1, w1 := Do(v, env.saveConfig, call), Do(w, env.saveConfig, call);
    FailAlike(v1, w1, env, ConfigStorage, r, Storage);
    var settings := v.core.settings.(generation := Add32(v.core.settings.generation, 1));
    WithSettingsAlike(v1, w1, settings);
    v1, w1 := WithSettings(v1, settings), WithSettings(w1, settings);
    NotifyAlike(v1, w1, env, Direct, r.number, ConfigSaved(settings.generation));
    AcknowledgeAlike(Notify(v1, env, Direct, r.number, ConfigSaved(settings.generation)),
                     Notify(w1, env, Direct, r.number, ConfigSaved(settings.generation)), env, r);
  }

  lemma ResetDefaultsAlike(v: Work, w: Work, env: Env, r: Packet)
    requires Alike(v, w)
    ensures Alike(ResetDefaults(v, env, r), ResetDefaults(w, env, r))
  {
    hide Send, Notify, TransitionTo, SetFault, Acknowledge, Reject, RejectVia, Alike;
    SameView(v, w);
    RejectAlike(v, w, env, Caching, r, Busy);
    var defaults := v.core.settings.defaults;
    var settings := v.core.settings.(active := defaults, staged := defaults, isStaged := false);
    WithSettingsAlike(v, w, settings);
    var v1, w1 := WithSettings(v, settings), WithSettings(w, settings);
    var configure := ConfigureDriver(defaults.driver, env.configureDriver.Or(true));
    DoAlike(v1, w1, env.configureDriver, configure);
    v1, w1 := Do(v1, env.configureDriver, configure), Do(w1, env.configureDriver, configure);
    FailAlike(v1, w1, env, DriverFault, r, BadState);
    var reset := ResetStorage(env.resetStorage.Or(true));
    DoAlike(v1, w1, env.resetStorage, reset);
    v1, w1 := Do(v1, env.resetStorage, reset), Do(w1, env.resetStorage, reset);
    FailAlike(v1, w1, env, ConfigStorage, r, Storage);
    var applied := ConfigApplied(v.core.settings.generation);
    NotifyAlike(v1, w1, env, Direct, r.number, applied);
    AcknowledgeAlike(Notify(v1, env, Direct, r.number, applied), Notify(w1, env, Direct, r.number, applied), env, r);
  }

  lemma RebootNowAlike(v: Work, w: Work, env: Env, r: Packet)
    requires Alike(v, w)
    ensures Alike(RebootNow(v, env, r), RebootNow(w, env, r))
  {
    hide Send, Notify, TransitionTo, SetFault, Acknowledge, Reject, RejectVia, Alike;
    SameView(v, w);
    AcknowledgeAlike(v, w, env, r);
    DoAlike(Acknowledge(v, env, r), Acknowledge(w, env, r), env.reboot, RebootCall);
  }

  lemma StartedAlike(v: Work, w: Work, env: Env, r: Packet, ok: bool, s: State, mode: Mode)
    requires Alike(v, w)
    ensures Alike(Started(v, env, r, ok, s, mode), Started(w, env, r, ok, s, mode))
  {
    hide Send, Notify, TransitionTo, SetFault, Acknowledge, Reject, RejectVia, Alike;
    FailAlike(v, w, env, DriverFault, r, BadState);
    TransitionAlike(v, w, env, s, Direct);
    var v1, w1 := TransitionTo(v, env, s, Direct), TransitionTo(w, env, s, Direct);
    SameView(v1, w1);
    WithDriveAlike(v1, w1, v1.core.drive.(mode := mode));
    AcknowledgeAlike(WithMode(v1, mode), WithMode(w1, mode), env, r);
  }

  lemma MoveAbsAlike(v: Work, w: Work, env: Env, r: Packet)
    requires Alike(v, w)
    ensures Alike(MoveAbs(v, env, r), MoveAbs(w, env, r))
  {
    hide Send, Notify, TransitionTo, SetFault, Acknowledge, Reject, RejectVia, Alike, Started, WithinLimits,
         SoftLimitViolation, ToBackend;
    SameView(v, w);
    RejectAlike(v, w, env, Caching, r, Malformed);
    RejectAlike(v, w, env, Caching, r, OutOfRange);
    if MotionRefusal(v.core, ModePosition).Some? {
      RejectAlike(v, w, env, Caching, r, MotionRefusal(v.core, ModePosition).value);
    }
    FailAlike(v, w, env, SoftLimit, r, OutOfRange);
    if |r.payload| == 12 {
      match ToBackend(v.core.settings.active, I32At(r.payload, 0))
      case None =>
      case Some(target) =>
        var ok := env.moveAbsolute.Or(false);
        var call := MoveAbsolute(target, U32At(r.payload, 4), U32At(r.payload, 8), ok);
        DoAlike(v, w, env.moveAbsolute, call);
        StartedAlike(Do(v, env.moveAbsolute, call), Do(w, env.moveAbsolute, call), env, r, ok, MovingPosition,
                     ModePosition);
    }
  }

  lemma MoveRelAlike(v: Work, w: Work, env: Env, r: Packet)
    requires Alike(v, w)
    ensures Alike(MoveRel(v, env, r), MoveRel(w, env, r))
  {
    hide Send, Notify, TransitionTo, SetFault, Acknowledge, Reject, RejectVia, Alike, Started, WithinLimits,
         SoftLimitViolation, ToBackend, FromBackend;
    SameView(v, w);
    RejectAlike(v, w, env, Caching, r, Malformed);
    RejectAlike(v, w, env, Caching, r, OutOfRange);
    if MotionRefusal(v.core, ModePosition).Some? {
      RejectAlike(v, w, env, Caching, r, MotionRefusal(v.core, ModePosition).value);
    }
    FailAlike(v, w, env, SoftLimit, r, OutOfRange);
    if |r.payload| == 12 {
      match ToBackend(v.core.settings.active, I32At(r.payload, 0))
      case None =>
      case Some(delta) =>
        var ok := env.moveRelative.Or(false);
        var call := MoveRelative(delta, U32At(r.payload, 4), U32At(r.payload, 8), ok);
        DoAlike(v, w, env.moveRelative, call);
        StartedAlike(Do(v, env.moveRelative, call), Do(w, env.moveRelative, call), env, r, ok, MovingPosition,
                     ModePosition);
    }
  }

  lemma RunVelAlike(v: Work, w: Work, env: Env, r: Packet)
    requires Alike(v, w)
    ensures Alike(RunVel(v, env, r), RunVel(w, env, r))
  {
    hide Send, Notify, TransitionTo, SetFault, Acknowledge, Reject, RejectVia, Alike, Started, WithinLimits, ToBackend;
    SameView(v, w);
    RejectAlike(v, w, env, Caching, r, Malformed);
    RejectAlike(v, w, env, Caching, r, OutOfRange);
    if MotionRefusal(v.core, ModeVelocity).Some? {
      RejectAlike(v, w, env, Caching, r, MotionRefusal(v.core, ModeVelocity).value);
    }
    if |r.payload| == 8 {
      match ToBackend(v.core.settings.active, I32At(r.payload, 0))
      case None =>
      case Some(velocity) =>
        var ok := env.runVelocity.Or(false);
        var call := RunVelocity(velocity, U32At(r.payload, 4), ok);
        DoAlike(v, w, env.runVelocity, call);
        StartedAlike(Do(v, env.runVelocity, call), Do(w, env.runVelocity, call), env, r, ok, RunningVelocity,
                     ModeVelocity);
    }
  }

  lemma SetTelemetryRateAlike(v: Work, w: Work, env: Env, r: Packet)
    requires Alike(v, w)
    ensures Alike(SetTelemetryRate(v, env, r), SetTelemetryRate(w, env, r))
  {
    hide Send, Notify, TransitionTo, SetFault, Acknowledge, Reject, RejectVia, Alike;
    SameView(v, w);
    RejectAlike(v, w, env, Caching, r, Malformed);
    if |r.payload| == 2 {
      var rate := U16At(r.payload, 0);
      var s := v.core.settings;
      var active := s.active.(telemetry := s.active.telemetry.(intervalMs := rate));
      var staged := if s.isStaged then s.staged.(telemetry := s.staged.telemetry.(intervalMs := rate)) else active;
      var settings := s.(active := active, staged := staged);
      WithSettingsAlike(v, w, settings);
      AcknowledgeAlike(WithSettings(v, settings), WithSettings(w, settings), env, r);
    }
  }

  lemma UnknownAlike(v: Work, w: Work, env: Env, r: Packet)
    requires Alike(v, w)
    ensures Alike(Unknown(v, env, r), Unknown(w, env, r))
  {
    hide Send, Notify, TransitionTo, SetFault, Acknowledge, Reject, RejectVia, Alike;
    SameView(v, w);
    FailAlike(v, w, env, UnsupportedCommand, r, Unsupported);
  }

  lemma InquireAlike(v: Work, w: Work, env: Env, r: Packet)
    requires Alike(v, w)
    ensures Alike(Inquire(v, env, r), Inquire(w, env, r))
  {
    hide Send, Notify, TransitionTo, SetFault, Acknowledge, Reject, RejectVia, Alike, Report, ReportDriver, Unknown,
         BlurCounters;
    SameView(v, w);
    UnknownAlike(v, w, env, r);
    ReportDriverAlike(v, w, env, r);
    AcknowledgeAlike(v, w, env, r);
    var s := v.core.settings;
    SameReport(v.core, w.core, env);
    SendAlike(Acknowledge(v, env, r), Acknowledge(w, env, r), env, Caching, r.number, Pong, Pong);
    SendAlike(v, w, env, Caching, r.number, Identity(s.generation), Identity(s.generation));
    SendAlike(v, w, env, Caching, r.number, Capabilities(s.active.safety.hostTimeoutMs),
              Capabilities(s.active.safety.hostTimeoutMs));
    SendAlike(v, w, env, Caching, r.number, Report(v.core, env, false), Report(w.core, env, false));
    SendAlike(v, w, env, Caching, r.number, FaultReport(v.core.faults), FaultReport(v.core.faults));
    SendAlike(v, w, env, Caching, r.number, CounterReport(v.core.counters), CounterReport(w.core.counters));
  }

  lemma SameReport(c: Core, d: Core, env: Env)
    requires c.settings == d.settings && c.drive == d.drive && c.faults == d.faults
    requires BlurCounters(c.counters) == BlurCounters(d.counters)
    ensures Report(c, env, false) == Report(d, env, false) && Report(c, env, true) == Report(d, env, true)
  {}

  lemma DispatchAlike(v: Work, w: Work, env: Env, r: Packet)
    requires Alike(v, w)
    ensures Alike(Dispatch(v, env, r), Dispatch(w, env, r))
  {
    hide Alike, Send, Notify, RejectVia, Reject,
         Inquire, SetControlMode, EmergencyStopNow, RampStopNow, ClearFaults, ReportField, Stage, ApplyStaged,
         SaveActive, ResetDefaults, RebootNow, MoveAbs, MoveRel, RunVel, SetTelemetryRate, Unknown;
    if TakesNoPayload(r.msgId) && r.payload != [] {
      RejectAlike(v, w, env, Caching, r, Malformed);
    } else if r.msgId < SET_CONTROL_MODE || r.msgId == GET_DRIVER_STATUS {
      InquireAlike(v, w, env, r);
    } else if r.msgId == SET_CONTROL_MODE {
      SetControlModeAlike(v, w, env, r);
    } else if r.msgId == ESTOP {
      EmergencyStopNowAlike(v, w, env, r);
    } else if r.msgId == RAMP_STOP {
      RampStopNowAlike(v, w, env, r);
    } else if r.msgId == CLEAR_FAULTS {
      ClearFaultsAlike(v, w, env, r);
    } else if r.msgId == CONFIG_QUERY {
      ReportFieldAlike(v, w, env, r);
    } else if r.msgId == CONFIG_STAGE_FIELD {
      StageAlike(v, w, env, r);
    } else if r.msgId == CONFIG_APPLY {
      ApplyStagedAlike(v, w, env, r);
    } else if r.msgId == CONFIG_SAVE {
      SaveActiveAlike(v, w, env, r);
    } else if r.msgId == CONFIG_RESET_DEFAULTS {
      ResetDefaultsAlike(v, w, env, r);
    } else if r.msgId == REBOOT {
      RebootNowAlike(v, w, env, r);
    } else if r.msgId == MOVE_ABS {
      MoveAbsAlike(v, w, env, r);
    } else if r.msgId == MOVE_REL {
      MoveRelAlike(v, w, env, r);
    } else if r.msgId == RUN_VEL {
      RunVelAlike(v, w, env, r);
    } else if r.msgId == SET_TELEM_RATE {
      SetTelemetryRateAlike(v, w, env, r);
    } else {
      UnknownAlike(v, w, env, r);
    }
  }

  // ----- Packets, fresh and repeated -----

  /** Fresh packets do the same to alike actuators. */
  lemma FreshAlike(c: Core, d: Core, env: Env, r: Packet)
    requires BlurCore(c) == BlurCore(d) && !IsRepeat(c, r)
    ensures !IsRepeat(d, r)
    ensures Alike(HandlePacket(c, env, r), HandlePacket(d, env, r))
  {
    hide Dispatch;
    var c1 := c.(lastHostMs := Now(env), counters := c.counters.(commands := Add32(c.counters.commands, 1)));
    var d1 := d.(lastHostMs := Now(env), counters := d.counters.(commands := Add32(d.counters.commands, 1)));
    assert Alike(Start(c1), Start(d1));
    hide Alike, BlurAll;
    DispatchAlike(Start(c1), Start(d1), env, r);
    CachedAlike(Dispatch(Start(c1), env, r), Dispatch(Start(d1), env, r), Some(r));
  }

  lemma CachedAlike(v: Work, w: Work, request: Option<Packet>)
    requires Alike(v, w)
    ensures Alike(v.(core := v.core.(cache := Cache(request, Cached(v.responses)))),
                  w.(core := w.core.(cache := Cache(request, Cached(w.responses)))))
  {
    BlurCached(v.responses);
    BlurCached(w.responses);
    hide BlurAll, Cached;
  }

  lemma BlurCached(s: seq<Outgoing>)
    ensures BlurAll(Cached(s)) == Cached(BlurAll(s))
  {}

  /**
    An exact repeat calls nothing, sends the cached responses again in order, and changes only counters and the timer.
   */
  lemma RepeatReplays(c: Core, env: Env, r: Packet)
    requires c.cache.request == Some(r)
    ensures
      var w := HandlePacket(c, env, r);
      w.calls == [] && w.sent == c.cache.responses && BlurCore(w.core) == BlurCore(c) && w.core.cache == c.cache
  {
    hide Send, BlurAll;
    var seen := c.(lastHostMs := Now(env), counters := c.counters.(duplicates := Add32(c.counters.duplicates, 1)));
    SendAllSends(Start(seen), env, c.cache.responses);
    assert [] + c.cache.responses == c.cache.responses;
  }

  /** The cache has room for every response, so a repeat re-sends all that the first delivery answered. */
  lemma RepeatAnswersTheSame(c: Core, env: Env, again: Env, r: Packet)
    requires !IsRepeat(c, r)
    ensures
      var first := HandlePacket(c, env, r);
      var second := HandlePacket(first.core, again, r);
      |first.responses| <= CACHE_SIZE && second.sent == first.responses && second.calls == []
  {
    hide Dispatch;
    RepeatReplays(HandlePacket(c, env, r).core, again, r);
  }
}
