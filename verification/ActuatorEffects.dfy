/** What each request does to the actuator and asks of the backend, and what the answers to queries say. */
module ActuatorEffects {
  import opened Bytes
  import opened Config
  import opened Protocol
  import opened ActuatorTypes
  import opened ActuatorSteps
  import opened ActuatorInvariant
  import opened ActuatorSafety
  import opened ActuatorAnswers
  import opened ActuatorRefusals

  function Seen(c: Core, env: Env): Core {
    c.(lastHostMs := Now(env), counters := c.counters.(commands := Add32(c.counters.commands, 1)))
  }

  lemma HandledAs(c: Core, env: Env, r: Packet)
    requires !IsRepeat(c, r)
    ensures
      var w, v := HandlePacket(c, env, r), Dispatch(Start(Seen(c, env)), env, r);
      w.calls == v.calls && w.sent == v.sent && w.core == v.core.(cache := w.core.cache)
  {
    hide Dispatch;
  }

  /** Nothing changes but counters, and nothing is asked of the backend. */
  predicate Untouched(c: Core, w: Work) {
    w.core.settings == c.settings && w.core.drive == c.drive && w.core.faults == c.faults && w.calls == []
  }

  function MaybeCall<T>(answer: Answer<T>, call: Call): seq<Call> { if answer.Absent? then [] else [call] }

  // ----- Stopping and clearing -----

  predicate IsMoving(c: Core, env: Env) {
    c.drive.state in {MovingPosition, RunningVelocity, Stopping} || env.motionActive == Returned(true)
  }

  /**
    A well-formed ramp stop is passed on, with the deceleration it asks for, exactly when the state or the backend says
    that there is a motion; acknowledged then, the actuator is stopping.
   */
  lemma RampStopEffect(c: Core, env: Env, r: Packet)
    requires !IsRepeat(c, r) && r.msgId == RAMP_STOP && |r.payload| == 4
    ensures
      var w := HandlePacket(c, env, r);
      if !IsMoving(c, env) then Untouched(c, w)
      else
        && w.calls == MaybeCall(env.rampStop, RampStop(U32At(r.payload, 0), env.rampStop == Returned(true)))
        && w.core.settings == c.settings && w.core.drive.enabled == c.drive.enabled
        && (env.rampStop == Returned(true) ==>
              w.core.drive == Drive(Stopping, ModePosition, c.drive.enabled) && w.core.faults == c.faults)
  {
    HandledAs(c, env, r);
    RampStopDispatch(Start(Seen(c, env)), env, r);
    hide HandlePacket, Dispatch, Send, TransitionTo, SetFault, Acknowledge, Reject, U32At;
  }

  lemma RampStopDispatch(w: Work, env: Env, r: Packet)
    requires r.msgId == RAMP_STOP
    ensures Dispatch(w, env, r) == RampStopNow(w, env, r)
  {
    hide RampStopNow, RejectVia;
  }

  /** Clearing faults clears all of them, and settles the state by whether the driver is on; it stops nothing. */
  lemma ClearFaultsEffect(c: Core, env: Env, r: Packet)
    requires !IsRepeat(c, r) && r.msgId == CLEAR_FAULTS && r.payload == []
    ensures
      var w := HandlePacket(c, env, r);
      && w.core.faults == {} && w.core.settings == c.settings && w.calls == []
      && w.core.drive ==
         if c.drive.enabled then Drive(Idle, c.drive.mode, true) else Drive(Disabled, ModeDisabled, false)
  {
    HandledAs(c, env, r);
    ClearFaultsDispatch(Start(Seen(c, env)), env, r);
    hide HandlePacket, Dispatch, Notify, TransitionTo, Acknowledge;
  }

  lemma ClearFaultsDispatch(w: Work, env: Env, r: Packet)
    requires r.msgId == CLEAR_FAULTS && r.payload == []
    ensures Dispatch(w, env, r) == ClearFaults(w, env, r)
  {
    hide ClearFaults, RejectVia;
  }

  // ----- Configuration -----

  /** The telemetry rate becomes the one asked for, at once and in what is staged, and nothing else changes. */
  lemma TelemetryRateEffect(c: Core, env: Env, r: Packet)
    requires Invariant(c) && !IsRepeat(c, r) && r.msgId == SET_TELEM_RATE && |r.payload| == 2
    ensures
      var w := HandlePacket(c, env, r);
      var settings := w.core.settings;
      && FieldValue(settings.active, TelemetryIntervalMs) == U16At(r.payload, 0)
      && FieldValue(settings.staged, TelemetryIntervalMs) == U16At(r.payload, 0)
      && OnlyRateDiffers(settings.active, c.settings.active) && OnlyRateDiffers(settings.staged, c.settings.staged)
      && settings.isStaged == c.settings.isStaged && settings.generation == c.settings.generation
      && settings.defaults == c.settings.defaults
      && w.core.drive == c.drive && w.core.faults == c.faults && w.calls == []
  {
    HandledAs(c, env, r);
    TelemetryDispatch(Start(Seen(c, env)), env, r);
    hide HandlePacket, Dispatch, Acknowledge, U16At, IsValid, StateAgrees;
  }

  predicate OnlyRateDiffers(a: ActuatorConfig, b: ActuatorConfig) {
    a == b.(telemetry := b.telemetry.(intervalMs := a.telemetry.intervalMs))
  }

  lemma TelemetryDispatch(w: Work, env: Env, r: Packet)
    requires r.msgId == SET_TELEM_RATE
    ensures Dispatch(w, env, r) == SetTelemetryRate(w, env, r)
  {
    hide SetTelemetryRate, RejectVia;
  }

  /**
    An apply configures the driver with what was staged, exactly when that changes the driver, and calls nothing else.
   */
  lemma ApplyEffect(c: Core, env: Env, r: Packet)
    requires Invariant(c) && !IsRepeat(c, r) && r.msgId == CONFIG_APPLY && r.payload == []
    ensures
      var w := HandlePacket(c, env, r);
      && w.calls == (if c.settings.isStaged && !c.drive.InMotion() && DriverChanged(c)
                     then MaybeCall(env.configureDriver,
                                    ConfigureDriver(c.settings.staged.driver, env.configureDriver == Returned(true)))
                     else [])
      && w.core.drive.enabled == c.drive.enabled && w.core.drive.mode == c.drive.mode
      && (!c.settings.isStaged || c.drive.InMotion() ==> w.core.settings == c.settings && w.core.drive == c.drive)
  {
    HandledAs(c, env, r);
    ApplyDispatch(Start(Seen(c, env)), env, r);
    SameDriverChange(c, Seen(c, env));
    StagedIsSound(c);
    hide HandlePacket, Dispatch, Send, Notify, TransitionTo, SetFault, Acknowledge, Reject, IsValid, DriverChanged;
  }

  lemma StagedIsSound(c: Core)
    requires Invariant(c)
    ensures IsValid(c.settings.staged)
  {
    hide IsValid;
  }

  /** A reset takes the defaults, whatever is staged and whatever the driver and the store then say. */
  lemma ResetEffect(c: Core, env: Env, r: Packet)
    requires !IsRepeat(c, r) && r.msgId == CONFIG_RESET_DEFAULTS && r.payload == []
    ensures
      var w := HandlePacket(c, env, r);
      if c.drive.InMotion() then Untouched(c, w)
      else
        && w.core.settings ==
           Settings(c.settings.defaults, c.settings.defaults, c.settings.defaults, false, c.settings.generation)
        && w.core.drive.enabled == c.drive.enabled && w.core.drive.mode == c.drive.mode
        && w.calls == MaybeCall(env.configureDriver,
                                ConfigureDriver(c.settings.defaults.driver, env.configureDriver == Returned(true)))
           + (if env.configureDriver == Returned(false) then []
              else MaybeCall(env.resetStorage, ResetStorage(env.resetStorage == Returned(true))))
  {
    HandledAs(c, env, r);
    ResetDefaultsDispatch(Start(Seen(c, env)), env, r);
    hide HandlePacket, Dispatch, ResetDefaults, MaybeCall;
    ResetDoes(Start(Seen(c, env)), env, r);
  }

  lemma ResetDoes(w: Work, env: Env, r: Packet)
    requires w.calls == []
    ensures
      var w', defaults := ResetDefaults(w, env, r), w.core.settings.defaults;
      if w.core.drive.InMotion() then Untouched(w.core, w')
      else
        && w'.core.settings == Settings(defaults, defaults, defaults, false, w.core.settings.generation)
        && w'.core.drive.enabled == w.core.drive.enabled && w'.core.drive.mode == w.core.drive.mode
        && w'.calls == MaybeCall(env.configureDriver,
                                 ConfigureDriver(defaults.driver, env.configureDriver == Returned(true)))
           + (if env.configureDriver == Returned(false) then []
              else MaybeCall(env.resetStorage, ResetStorage(env.resetStorage == Returned(true))))
  {
    hide Send, Notify, TransitionTo, SetFault, Acknowledge, Reject;
  }

  lemma ResetDefaultsDispatch(w: Work, env: Env, r: Packet)
    requires r.msgId == CONFIG_RESET_DEFAULTS && r.payload == []
    ensures Dispatch(w, env, r) == ResetDefaults(w, env, r)
  {
    hide ResetDefaults, RejectVia;
  }

  // ----- Queries -----

  predicate IsQuery(r: Packet) {
    && r.msgId in {PING, GET_IDENTITY, GET_CAPABILITIES, GET_STATUS, GET_FAULTS, GET_COUNTERS, HEARTBEAT}
    && r.payload == []
  }

  /** The position on the logical axis, of which the least backend position has no exact image. */
  predicate ShowsPosition(c: ActuatorConfig, shown: int32, backend: int32) {
    if AtUnmirroredPosition(c, backend) then shown == INT32_MAX else shown == OnLogicalAxis(c, backend)
  }

  /** A status message says what the actuator is. */
  predicate ShowsStatus(c: Core, env: Env, m: Message, telemetry: bool) {
    m.Status? && m.telemetry == telemetry &&
    var r, config := m.report, c.settings.active;
    && r.state == c.drive.state && r.mode == c.drive.mode && r.enabled == c.drive.enabled
    && r.staged == c.settings.isStaged && r.faults == c.faults
    && r.generation == c.settings.generation && r.commands == c.counters.commands
    && ShowsPosition(config, r.position, env.position.Or(0))
    && ShowsPosition(config, r.target, env.targetPosition.Or(0))
    && ShowsPosition(config, r.speed, env.speed.Or(0))
  }

  lemma ReportShowsStatus(c: Core, env: Env, telemetry: bool)
    ensures ShowsStatus(c, env, Report(c, env, telemetry), telemetry)
  {}

  /** What the answer to a query says. */
  predicate Tells(c: Core, env: Env, r: Packet, m: Message) {
    if r.msgId == PING then m == Pong
    else if r.msgId == GET_IDENTITY then m == Identity(c.settings.generation)
    else if r.msgId == GET_CAPABILITIES then m == Capabilities(c.settings.active.safety.hostTimeoutMs)
    else if r.msgId == GET_STATUS then ShowsStatus(c, env, m, false)
    else if r.msgId == GET_FAULTS then m == FaultReport(c.faults)
    else if r.msgId == GET_COUNTERS then m == CounterReport(c.counters)
    else m == Ack(r.msgId)
  }

  /** A query changes nothing, asks for nothing, and is answered with what it asks for, the request itself counted. */
  lemma QueryEffect(c: Core, env: Env, r: Packet)
    requires !IsRepeat(c, r) && IsQuery(r)
    ensures
      var w := HandlePacket(c, env, r);
      && Untouched(c, w)
      && w.sent != [] && w.sent[|w.sent| - 1].number == r.number
      && Tells(Seen(c, env), env, r, w.sent[|w.sent| - 1].message)
  {
    HandledAs(c, env, r);
    InquireDispatch(Start(Seen(c, env)), env, r);
    ReportShowsStatus(Seen(c, env), env, false);
    hide HandlePacket, Dispatch, Send, Acknowledge, Report, ShowsStatus, ReportDriver, SetFault, Reject;
  }

  lemma InquireDispatch(w: Work, env: Env, r: Packet)
    requires IsQuery(r)
    ensures Dispatch(w, env, r) == Inquire(w, env, r)
  {
    hide Inquire, RejectVia;
  }

  /** Telemetry says what the actuator is, and changes nothing. */
  lemma TelemetryEffect(c: Core, env: Env, number: uint16)
    ensures
      var w := SendTelemetry(c, env, number);
      && Untouched(c, w) && |w.sent| == 1 && w.sent[0].number == number && ShowsStatus(c, env, w.sent[0].message, true)
  {
    ReportShowsStatus(c, env, true);
    hide Report, ShowsStatus;
  }

  /** A request to reboot is acknowledged, and then the backend is asked to reboot; the actuator itself is unchanged. */
  lemma RebootEffect(c: Core, env: Env, r: Packet)
    requires !IsRepeat(c, r) && r.msgId == REBOOT && r.payload == []
    ensures
      var w := HandlePacket(c, env, r);
      && w.calls == MaybeCall(env.reboot, RebootCall) && w.sent == [Outgoing(r.number, Ack(REBOOT))]
      && w.core.settings == c.settings && w.core.drive == c.drive && w.core.faults == c.faults
  {
    HandledAs(c, env, r);
    assert Dispatch(Start(Seen(c, env)), env, r) == RebootNow(Start(Seen(c, env)), env, r) by {
      hide RebootNow, RejectVia;
    }
    hide HandlePacket, Dispatch;
  }

  /** A query of a known field changes nothing and is answered with its value, and whether anything is staged. */
  lemma FieldQueryEffect(c: Core, env: Env, r: Packet)
    requires !IsRepeat(c, r) && r.msgId == CONFIG_QUERY && |r.payload| == 2 && FieldOf(U16At(r.payload, 0)).Some?
    ensures
      var w, f := HandlePacket(c, env, r), FieldOf(U16At(r.payload, 0)).value;
      && Untouched(c, w)
      && w.sent == [Outgoing(r.number, ConfigValue(f, FieldMutability(f), c.settings.isStaged,
                                                   FieldValue(c.settings.active, f)))]
  {
    HandledAs(c, env, r);
    ReportFieldDispatch(Start(Seen(c, env)), env, r);
    hide HandlePacket, Dispatch, RejectVia, FieldOf, FieldValue, FieldMutability, U16At;
  }

  lemma ReportFieldDispatch(w: Work, env: Env, r: Packet)
    requires r.msgId == CONFIG_QUERY
    ensures Dispatch(w, env, r) == ReportField(w, env, r)
  {
    hide ReportField, RejectVia;
  }

  /** The driver's status is passed on, and a driver that is set up but does not answer is a fault. */
  lemma DriverStatusEffect(c: Core, env: Env, r: Packet)
    requires !IsRepeat(c, r) && r.msgId == GET_DRIVER_STATUS && r.payload == []
    ensures
      var w := HandlePacket(c, env, r);
      var status := if env.driverStatus.Absent? then DriverStatus(false, false, 0) else env.driverStatus.value;
      && w.core.settings == c.settings && w.calls == [] && Ends(w, r.number, DriverReport(status))
      && w.core.drive.enabled == c.drive.enabled && w.core.drive.mode == c.drive.mode
      && (if status.configured && !status.uartOk
          then w.core.drive.state == Faulted && w.core.faults == c.faults + {DriverUart}
          else w.core.drive == c.drive && w.core.faults == c.faults)
  {
    HandledAs(c, env, r);
    ReportDriverDispatch(Start(Seen(c, env)), env, r);
    hide HandlePacket, Dispatch, Send, Notify, SetFault;
  }

  lemma ReportDriverDispatch(w: Work, env: Env, r: Packet)
    requires r.msgId == GET_DRIVER_STATUS && r.payload == []
    ensures Dispatch(w, env, r) == ReportDriver(w, env, r)
  {
    hide ReportDriver, RejectVia;
  }

  // ----- Events -----

  /** The event is what the reply follows on. */
  predicate TellsBeforeReply(w: Work, number: uint16, e: Occurrence) {
    2 <= |w.sent| && w.sent[|w.sent| - 2] == Outgoing(number, Notice(e))
  }

  lemma ReplyFollows(w: Work, env: Env, number: uint16, e: Occurrence, r: Packet, m: Message, via: Writer)
    requires via != NoWriter
    ensures TellsBeforeReply(Send(Notify(w, env, via, number, e), env, Caching, r.number, m), number, e)
  {}

  /** A save that the store takes raises the generation, and tells the new one. */
  lemma SaveTells(c: Core, env: Env, r: Packet)
    requires !IsRepeat(c, r) && r.msgId == CONFIG_SAVE && r.payload == []
    ensures
      var w, saved := HandlePacket(c, env, r), env.saveConfig == Returned(true);
      && w.calls == MaybeCall(env.saveConfig, SaveConfig(c.settings.active, saved))
      && w.core.settings == c.settings.(
           generation := if saved then Add32(c.settings.generation, 1) else c.settings.generation)
      && (saved ==> TellsBeforeReply(w, r.number, ConfigSaved(w.core.settings.generation)))
  {
    HandledAs(c, env, r);
    var w := Start(Seen(c, env));
    assert Dispatch(w, env, r) == SaveActive(w, env, r) by { hide SaveActive, RejectVia; }
    var called := Do(w, env.saveConfig, SaveConfig(c.settings.active, env.saveConfig.Or(false)));
    var generation := Add32(c.settings.generation, 1);
    ReplyFollows(WithSettings(called, c.settings.(generation := generation)), env, r.number, ConfigSaved(generation), r,
                 Ack(r.msgId), Direct);
    hide HandlePacket, Dispatch, Send, Notify, SetFault, Reject, TellsBeforeReply;
  }

  /** An acknowledged apply or reset that changed something tells the generation, which it does not change. */
  lemma AdoptTells(c: Core, env: Env, r: Packet)
    requires !IsRepeat(c, r) && r.payload == []
    requires (r.msgId == CONFIG_APPLY && c.settings.isStaged) || r.msgId == CONFIG_RESET_DEFAULTS
    ensures
      var w := HandlePacket(c, env, r);
      var number := if r.msgId == CONFIG_APPLY then 0 else r.number;
      Ends(w, r.number, Ack(r.msgId)) ==> TellsBeforeReply(w, number, ConfigApplied(c.settings.generation))
  {
    HandledAs(c, env, r);
    var w := Start(Seen(c, env));
    if r.msgId == CONFIG_APPLY {
      ApplyDispatch(w, env, r);
      ApplyTells(w, env, r);
    } else {
      ResetDefaultsDispatch(w, env, r);
      ResetTells(w, env, r);
    }
    hide HandlePacket, Dispatch, ApplyStaged, ResetDefaults;
  }

  lemma ApplyTells(w: Work, env: Env, r: Packet)
    requires w.core.settings.isStaged
    ensures
      var w' := ApplyStaged(w, env, r);
      Ends(w', r.number, Ack(r.msgId)) ==> TellsBeforeReply(w', 0, ConfigApplied(w.core.settings.generation))
  {
    var driver := ConfigureDriver(w.core.settings.staged.driver, env.configureDriver.Or(true));
    var called := if DriverChanged(w.core) then Do(w, env.configureDriver, driver) else w;
    var applied := WithSettings(called, w.core.settings.(active := w.core.settings.staged, isStaged := false));
    var settled := TransitionTo(applied, env, if w.core.drive.enabled then Idle else Disabled, Direct);
    ReplyFollows(settled, env, 0, ConfigApplied(w.core.settings.generation), r, Ack(r.msgId), Direct);
    hide Send, Notify, TransitionTo, SetFault, Reject, TellsBeforeReply, IsValid, DriverChanged;
  }

  lemma ResetTells(w: Work, env: Env, r: Packet)
    ensures
      var w' := ResetDefaults(w, env, r);
      Ends(w', r.number, Ack(r.msgId)) ==> TellsBeforeReply(w', r.number, ConfigApplied(w.core.settings.generation))
  {
    var defaults := w.core.settings.defaults;
    var back := WithSettings(w, w.core.settings.(active := defaults, staged := defaults, isStaged := false));
    var configured := Do(back, env.configureDriver, ConfigureDriver(defaults.driver, env.configureDriver.Or(true)));
    var erased := Do(configured, env.resetStorage, ResetStorage(env.resetStorage.Or(true)));
    ReplyFollows(erased, env, r.number, ConfigApplied(w.core.settings.generation), r, Ack(r.msgId), Direct);
    hide Send, Notify, SetFault, Reject, TellsBeforeReply;
  }

  /** Clearing faults tells, first, which there were; a driver that does not answer is told with its details. */
  lemma FaultsTell(c: Core, env: Env, r: Packet)
    requires !IsRepeat(c, r) && r.payload == []
    ensures
      var w := HandlePacket(c, env, r);
      && (r.msgId == CLEAR_FAULTS && c.faults != {} ==>
            w.sent != [] && w.sent[0] == Outgoing(r.number, Notice(FaultCleared(c.faults))))
      && (r.msgId == GET_DRIVER_STATUS && env.driverStatus.Returned?
            && env.driverStatus.value.configured && !env.driverStatus.value.uartOk ==>
            TellsBeforeReply(w, r.number, DriverUartFailure(env.driverStatus.value.details)))
  {
    HandledAs(c, env, r);
    var w := Start(Seen(c, env));
    if r.msgId == CLEAR_FAULTS {
      ClearFaultsDispatch(w, env, r);
      if c.faults != {} {
        ClearTells(w, env, r);
      }
      hide HandlePacket, Dispatch, ClearFaults;
    } else if r.msgId == GET_DRIVER_STATUS {
      ReportDriverDispatch(w, env, r);
      var status := env.driverStatus.Or(NO_STATUS);
      ReplyFollows(SetFault(w, env, DriverUart, Caching), env, r.number, DriverUartFailure(status.details), r,
                   DriverReport(status), Caching);
      hide HandlePacket, Dispatch, Send, Notify, SetFault, TellsBeforeReply;
    }
  }

  lemma ClearTells(w: Work, env: Env, r: Packet)
    requires w.sent == [] && w.core.faults != {}
    ensures
      var sent := ClearFaults(w, env, r).sent;
      sent != [] && sent[0] == Outgoing(r.number, Notice(FaultCleared(w.core.faults)))
  {}

  // ----- Repeats and restarts -----

  /** A packet numbered like the last one, of the same kind but not the same, is refused, and nothing is done. */
  lemma MismatchEffect(c: Core, env: Env, r: Packet)
    requires c.cache.request.Some? && c.cache.request != Some(r)
    requires r.number == c.cache.request.value.number && r.msgId == c.cache.request.value.msgId
    ensures
      var w := HandlePacket(c, env, r);
      && Untouched(c, w) && w.sent == [Outgoing(r.number, Error(r.msgId, DuplicateMismatch))]
      && w.core.cache == c.cache
  {}

  /** A packet that differs from the last one in number or kind is taken up as a new one. */
  lemma NewPacketIsTaken(c: Core, env: Env, r: Packet)
    requires c.cache.request.None? || r.number != c.cache.request.value.number || r.msgId != c.cache.request.value.msgId
    ensures HandlePacket(c, env, r).core.cache.request == Some(r)
  {
    hide Dispatch;
  }

  /** A boot configures the driver with the active configuration, and then turns it off, or faults. */
  lemma BootEffect(defaults: ActuatorConfig, env: Env)
    ensures
      var w := Begin(defaults, env);
      var config := w.core.settings.active;
      && w.sent == [] && w.core.drive.mode == ModeDisabled && !w.core.drive.enabled && w.core.bootEventPending
      && w.core.bootReason == env.bootReason.Or(0) && w.core.counters == Counters(0, 0, 0, 0, 0, 0)
      && w.core.cache == Cache(None, [])
      && (if env.configureDriver == Returned(false) then
            && w.calls == [ConfigureDriver(config.driver, false)] && w.core.drive.state == Faulted
            && DriverFault in w.core.faults
          else
            && w.calls == MaybeCall(env.configureDriver, ConfigureDriver(config.driver, true))
                        + MaybeCall(env.enableDriver, EnableDriver(false, env.enableDriver.Or(true)))
            && w.core.drive.state == Disabled && DriverFault !in w.core.faults)
  {
    var loaded := LoadStored(Start(Fresh(defaults, env)), env);
    BootLoads(defaults, env);
    hide IsValid, LoadStored, Fresh, SetFault, TransitionTo;
    var configured := Do(loaded, env.configureDriver,
                         ConfigureDriver(loaded.core.settings.active.driver, env.configureDriver.Or(true)));
    FaultsSilently(configured, env, DriverFault);
    MovesSilently(SetFault(configured, env, DriverFault, NoWriter), env, Faulted);
    MovesSilently(Do(configured, env.enableDriver, EnableDriver(false, env.enableDriver.Or(true))), env, Disabled);
  }

  lemma BootLoads(defaults: ActuatorConfig, env: Env)
    ensures
      var w := LoadStored(Start(Fresh(defaults, env)), env);
      && w.sent == [] && w.calls == [] && w.core.drive.mode == ModeDisabled && !w.core.drive.enabled
      && w.core.bootEventPending && w.core.bootReason == env.bootReason.Or(0)
      && w.core.counters == Counters(0, 0, 0, 0, 0, 0) && w.core.cache == Cache(None, [])
      && DriverFault !in w.core.faults
  {
    hide IsValid;
  }

  /** Without a writer nothing is sent, or counted as lost. */
  lemma FaultsSilently(w: Work, env: Env, f: Fault)
    ensures SetFault(w, env, f, NoWriter).sent == w.sent
    ensures SetFault(w, env, f, NoWriter).core.counters == w.core.counters
  {}

  lemma MovesSilently(w: Work, env: Env, s: State)
    ensures TransitionTo(w, env, s, NoWriter).sent == w.sent
    ensures TransitionTo(w, env, s, NoWriter).core.counters == w.core.counters
  {}
}
