/** Every handled packet is answered: with which message, how often, and what an acknowledgement of a motion means. */
module ActuatorAnswers {
  import opened Bytes
  import opened Config
  import opened Protocol
  import opened ActuatorTypes
  import opened ActuatorSteps
  import opened ActuatorSafety

  // ----- Messages as the host tells them apart -----

  const ACK_ID: byte := 0x80
  const ERROR_ID: byte := 0x81
  const EVENT_ID: byte := 0x82

  function IdOf(m: Message): byte {
    match m
    case Ack(_) => ACK_ID
    case Error(_, _) => ERROR_ID
    case Pong => 0x02
    case Identity(_) => 0x04
    case Capabilities(_) => 0x06
    case Status(_, _) => 0x08
    case FaultReport(_) => 0x0A
    case CounterReport(_) => 0x0C
    case DriverReport(_) => 0x31
    case ConfigValue(_, _, _, _) => 0x21
    case Notice(_) => EVENT_ID
  }

  /** The message that answers a request which is not refused. */
  function ReplyId(msgId: byte): byte {
    if msgId == PING then 0x02
    else if msgId == GET_IDENTITY then 0x04
    else if msgId == GET_CAPABILITIES then 0x06
    else if msgId == GET_STATUS then 0x08
    else if msgId == GET_FAULTS then 0x0A
    else if msgId == GET_COUNTERS then 0x0C
    else if msgId == GET_DRIVER_STATUS then 0x31
    else if msgId == CONFIG_QUERY then 0x21
    else ACK_ID
  }

  predicate IsReply(o: Outgoing) { !o.message.Notice? && !(o.message.Status? && o.message.telemetry) }

  function Replies(sent: seq<Outgoing>): seq<Outgoing>
    decreases |sent|
  {
    if sent == [] then []
    else
      var last := sent[|sent| - 1];
      Replies(sent[..|sent| - 1]) + if IsReply(last) then [last] else []
  }

  lemma RepliesAppend(sent: seq<Outgoing>, o: Outgoing)
    ensures Replies(sent + [o]) == Replies(sent) + if IsReply(o) then [o] else []
  {
    assert (sent + [o])[..|sent|] == sent;
  }

  lemma NoReplies()
    ensures Replies([]) == []
  {}

  // ----- Answering -----

  /** How many of the first packets that a step sends the serial port does not take. */
  function Failed(env: Env, sent: nat): nat {
    if sent == 0 then 0 else Failed(env, sent - 1) + if sent - 1 in env.failedSends then 1 else 0
  }

  /** What the count of dropped packets was when the step began, if it has counted every failure since. */
  function DroppedBefore(w: Work, env: Env): uint32 {
    (w.core.counters.dropped - Failed(env, |w.sent|)) % 0x1_0000_0000
  }

  lemma SendCountsDrops(w: Work, env: Env, via: Writer, number: uint16, m: Message)
    ensures DroppedBefore(Send(w, env, via, number, m), env) == DroppedBefore(w, env)
  {}

  /** Nothing but events is sent, nothing is refused, and failed sends are counted. */
  ghost predicate Quiet(v: Work, w: Work, env: Env) {
    && Replies(w.sent) == Replies(v.sent) && Replies(w.responses) == Replies(v.responses)
    && w.core.counters == v.core.counters.(dropped := w.core.counters.dropped)
    && DroppedBefore(w, env) == DroppedBefore(v, env)
  }

  /**
    One reply is sent and kept for repeats, carrying the number of the request: the one the request calls for, or an
    error, which is counted.
   */
  ghost predicate Answered(v: Work, w: Work, r: Packet, env: Env) {
    w.sent != [] &&
    (var reply := w.sent[|w.sent| - 1];
     && IsReply(reply) && reply.number == r.number
     && (reply.message.Error? || IdOf(reply.message) == ReplyId(r.msgId))
     && Replies(w.sent) == Replies(v.sent) + [reply] && Replies(w.responses) == Replies(v.responses) + [reply]
     && DroppedBefore(w, env) == DroppedBefore(v, env)
     && w.core.counters == v.core.counters.(
          dropped := w.core.counters.dropped,
          rejected := if reply.message.Error? then Add32(v.core.counters.rejected, 1) else v.core.counters.rejected))
  }

  lemma SendIsQuiet(w: Work, env: Env, via: Writer, number: uint16, m: Message)
    requires !IsReply(Outgoing(number, m))
    ensures Quiet(w, Send(w, env, via, number, m), env)
  {
    hide Replies;
    RepliesAppend(w.sent, Outgoing(number, m));
    RepliesAppend(w.responses, Outgoing(number, m));
  }

  lemma NotifyIsQuiet(w: Work, env: Env, via: Writer, number: uint16, e: Occurrence)
    ensures Quiet(w, Notify(w, env, via, number, e), env)
  {
    hide Replies, Send;
    SendIsQuiet(w, env, via, number, Notice(e));
  }

  lemma TransitionIsQuiet(w: Work, env: Env, s: State, via: Writer)
    ensures Quiet(w, TransitionTo(w, env, s, via), env)
  {
    hide Replies, Notify;
    NotifyIsQuiet(WithState(w, s), env, via, 0, StateChanged(w.core.drive.state, s));
  }

  lemma FaultIsQuiet(w: Work, env: Env, f: Fault, via: Writer)
    ensures Quiet(w, SetFault(w, env, f, via), env)
  {
    hide Replies, Notify, TransitionTo;
    var raised := w.(core := w.core.(faults := w.core.faults + {f}));
    NotifyIsQuiet(raised, env, via, 0, FaultSet(f, raised.core.faults));
    var told := if f in w.core.faults then raised else Notify(raised, env, via, 0, FaultSet(f, raised.core.faults));
    TransitionIsQuiet(told, env, Faulted, via);
  }

  lemma SendAnswers(v: Work, w: Work, env: Env, r: Packet, m: Message)
    requires Quiet(v, w, env) && IsReply(Outgoing(r.number, m)) && !m.Error? && IdOf(m) == ReplyId(r.msgId)
    ensures Answered(v, Send(w, env, Caching, r.number, m), r, env)
  {
    hide Replies;
    RepliesAppend(w.sent, Outgoing(r.number, m));
    RepliesAppend(w.responses, Outgoing(r.number, m));
  }

  lemma AcknowledgeAnswers(v: Work, w: Work, env: Env, r: Packet)
    requires Quiet(v, w, env) && ReplyId(r.msgId) == ACK_ID
    ensures Answered(v, Acknowledge(w, env, r), r, env)
  {
    hide Quiet, Answered, Send;
    SendAnswers(v, w, env, r, Ack(r.msgId));
  }

  lemma RejectAnswers(v: Work, w: Work, env: Env, r: Packet, code: ErrorCode)
    requires Quiet(v, w, env)
    ensures Answered(v, Reject(w, env, r, code), r, env)
  {
    hide Replies, DroppedBefore;
    var counted := w.(core := w.core.(counters := w.core.counters.(rejected := Add32(w.core.counters.rejected, 1))));
    SameDropped(w, counted, env);
    SendCountsDrops(counted, env, Caching, r.number, Error(r.msgId, code));
    RepliesAppend(w.sent, Outgoing(r.number, Error(r.msgId, code)));
    RepliesAppend(w.responses, Outgoing(r.number, Error(r.msgId, code)));
  }

  lemma SameDropped(v: Work, w: Work, env: Env)
    requires w.sent == v.sent && w.core.counters.dropped == v.core.counters.dropped
    ensures DroppedBefore(w, env) == DroppedBefore(v, env)
  {}

  lemma FailAnswers(v: Work, w: Work, env: Env, f: Fault, r: Packet, code: ErrorCode)
    requires Quiet(v, w, env)
    ensures Answered(v, Reject(SetFault(w, env, f, Direct), env, r, code), r, env)
  {
    hide Replies, SetFault, Reject, Answered;
    FaultIsQuiet(w, env, f, Direct);
    RejectAnswers(v, SetFault(w, env, f, Direct), env, r, code);
  }

  /** A transition, and then an acknowledgement. */
  lemma TransitionAnswers(v: Work, w: Work, env: Env, s: State, r: Packet)
    requires Quiet(v, w, env) && ReplyId(r.msgId) == ACK_ID
    ensures Answered(v, Acknowledge(TransitionTo(w, env, s, Direct), env, r), r, env)
    ensures forall m :: Answered(v, Acknowledge(WithMode(TransitionTo(w, env, s, Direct), m), env, r), r, env)
  {
    hide Replies, TransitionTo, Acknowledge, Answered;
    TransitionIsQuiet(w, env, s, Direct);
    AcknowledgeAnswers(v, TransitionTo(w, env, s, Direct), env, r);
    forall m ensures Answered(v, Acknowledge(WithMode(TransitionTo(w, env, s, Direct), m), env, r), r, env) {
      AcknowledgeAnswers(v, WithMode(TransitionTo(w, env, s, Direct), m), env, r);
    }
  }

  /** An event, and then an acknowledgement. */
  lemma NotifyAnswers(v: Work, w: Work, env: Env, number: uint16, e: Occurrence, r: Packet)
    requires Quiet(v, w, env) && ReplyId(r.msgId) == ACK_ID
    ensures Answered(v, Acknowledge(Notify(w, env, Direct, number, e), env, r), r, env)
  {
    hide Replies, Notify, Acknowledge, Answered;
    NotifyIsQuiet(w, env, Direct, number, e);
    AcknowledgeAnswers(v, Notify(w, env, Direct, number, e), env, r);
  }

  // ----- Command by command -----

  lemma ReportDriverAnswers(w: Work, env: Env, r: Packet)
    requires r.msgId == GET_DRIVER_STATUS
    ensures Answered(w, ReportDriver(w, env, r), r, env)
  {
    hide Replies, Answered, Send, Notify, SetFault;
    var status := env.driverStatus.Or(NO_STATUS);
    if status.configured && !status.uartOk {
      var faulted := SetFault(w, env, DriverUart, Caching);
      FaultIsQuiet(w, env, DriverUart, Caching);
      NotifyIsQuiet(faulted, env, Caching, r.number, DriverUartFailure(status.details));
      SendAnswers(w, Notify(faulted, env, Caching, r.number, DriverUartFailure(status.details)), env, r,
                  DriverReport(status));
    } else {
      SendAnswers(w, w, env, r, DriverReport(status));
    }
  }

  lemma ReportFieldAnswers(w: Work, env: Env, r: Packet)
    requires r.msgId == CONFIG_QUERY
    ensures Answered(w, ReportField(w, env, r), r, env)
  {
    hide Replies, Answered, Send, Reject;
    if |r.payload| != 2 {
      RejectAnswers(w, w, env, r, Malformed);
    } else {
      match FieldOf(U16At(r.payload, 0))
      case None => RejectAnswers(w, w, env, r, InvalidField);
      case Some(f) =>
        SendAnswers(w, w, env, r,
                    ConfigValue(f, FieldMutability(f), w.core.settings.isStaged,
                                FieldValue(w.core.settings.active, f)));
    }
  }

  lemma InquireAnswers(w: Work, env: Env, r: Packet)
    requires r.msgId != PING && (r.msgId < SET_CONTROL_MODE || r.msgId == GET_DRIVER_STATUS)
    ensures Answered(w, Inquire(w, env, r), r, env)
  {
    hide Replies, Answered, Send, Acknowledge, Reject, SetFault, ReportDriver;
    var c := w.core;
    if r.msgId == GET_IDENTITY {
      SendAnswers(w, w, env, r, Identity(c.settings.generation));
    } else if r.msgId == GET_CAPABILITIES {
      SendAnswers(w, w, env, r, Capabilities(c.settings.active.safety.hostTimeoutMs));
    } else if r.msgId == GET_STATUS {
      SendAnswers(w, w, env, r, Report(c, env, false));
    } else if r.msgId == GET_FAULTS {
      SendAnswers(w, w, env, r, FaultReport(c.faults));
    } else if r.msgId == GET_COUNTERS {
      SendAnswers(w, w, env, r, CounterReport(c.counters));
    } else if r.msgId == HEARTBEAT {
      AcknowledgeAnswers(w, w, env, r);
    } else if r.msgId == GET_DRIVER_STATUS {
      ReportDriverAnswers(w, env, r);
    } else {
      FailAnswers(w, w, env, UnsupportedCommand, r, Unsupported);
    }
  }

  lemma SetControlModeAnswers(w: Work, env: Env, r: Packet)
    requires r.msgId == SET_CONTROL_MODE
    ensures Answered(w, SetControlMode(w, env, r), r, env)
  {
    hide Replies, Answered, Reject, TurnOff, EnableInMode;
    if |r.payload| != 1 {
      RejectAnswers(w, w, env, r, Malformed);
    } else if r.payload[0] > 3 {
      RejectAnswers(w, w, env, r, OutOfRange);
    } else if w.core.drive.state == Faulted && r.payload[0] != 0 {
      RejectAnswers(w, w, env, r, IsFaulted);
    } else if w.core.drive.InMotion() {
      RejectAnswers(w, w, env, r, Busy);
    } else {
      TurnOffAnswers(w, WithMode(w, ModeOf(r.payload[0])), env, r);
      EnableInModeAnswers(w, WithMode(w, ModeOf(r.payload[0])), env, r);
    }
  }

  lemma TurnOffAnswers(v: Work, w: Work, env: Env, r: Packet)
    requires Quiet(v, w, env) && r.msgId == SET_CONTROL_MODE
    ensures Answered(v, TurnOff(w, env, r), r, env)
  {
    hide Replies, Answered, TransitionTo, Acknowledge;
    var off := Do(w, env.enableDriver, EnableDriver(false, env.enableDriver.Or(true)));
    TransitionAnswers(v, WithEnabled(off, false), env, Disabled, r);
  }

  lemma EnableInModeAnswers(v: Work, w: Work, env: Env, r: Packet)
    requires Quiet(v, w, env) && r.msgId == SET_CONTROL_MODE
    ensures Answered(v, EnableInMode(w, env, r), r, env)
  {
    hide Replies, Answered, SetFault, TransitionTo, Acknowledge, Reject;
    var configured := Do(w, env.configureDriver,
                         ConfigureDriver(w.core.settings.active.driver, env.configureDriver.Or(true)));
    var on := Do(configured, env.enableDriver, EnableDriver(true, env.enableDriver.Or(true)));
    if !env.configureDriver.Or(true) {
      FailAnswers(v, configured, env, DriverFault, r, BadState);
    } else if !env.enableDriver.Or(true) {
      FailAnswers(v, on, env, DriverFault, r, BadState);
    } else {
      var target := if w.core.drive.mode == ModeCommissioning then Commissioning else Idle;
      TransitionAnswers(v, WithEnabled(on, true), env, target, r);
    }
  }

  lemma EmergencyStopAnswers(w: Work, env: Env, r: Packet)
    requires r.msgId == ESTOP
    ensures Answered(w, EmergencyStopNow(w, env, r), r, env)
  {
    hide Replies, Answered, TransitionTo, Acknowledge;
    TransitionAnswers(w, StopAndDisable(w, env), env, Faulted, r);
  }

  lemma RampStopAnswers(w: Work, env: Env, r: Packet)
    requires r.msgId == RAMP_STOP
    ensures Answered(w, RampStopNow(w, env, r), r, env)
  {
    hide Replies, Answered, SetFault, TransitionTo, Acknowledge, Reject;
    if |r.payload| != 4 {
      RejectAnswers(w, w, env, r, Malformed);
    } else if !w.core.drive.InMotion() && !env.motionActive.Or(false) {
      AcknowledgeAnswers(w, w, env, r);
    } else {
      var ok := env.rampStop.Or(false);
      var called := Do(w, env.rampStop, RampStop(U32At(r.payload, 0), ok));
      if !ok {
        FailAnswers(w, called, env, DriverFault, r, BadState);
      } else {
        TransitionAnswers(w, called, env, Stopping, r);
      }
    }
  }

  lemma ClearFaultsAnswers(w: Work, env: Env, r: Packet)
    requires r.msgId == CLEAR_FAULTS
    ensures Answered(w, ClearFaults(w, env, r), r, env)
  {
    hide Replies, Answered, Notify, TransitionTo, Acknowledge;
    var previous := w.core.faults;
    var cleared := w.(core := w.core.(faults := {}));
    NotifyIsQuiet(cleared, env, Direct, r.number, FaultCleared(previous));
    var told := if previous == {} then cleared else Notify(cleared, env, Direct, r.number, FaultCleared(previous));
    TransitionAnswers(w, told, env, if w.core.drive.enabled then Idle else Disabled, r);
  }

  lemma StageAnswers(w: Work, env: Env, r: Packet)
    requires r.msgId == CONFIG_STAGE_FIELD
    ensures Answered(w, Stage(w, env, r), r, env)
  {
    hide Replies, Answered, StageRequest, TransitionTo, Acknowledge, Reject;
    match StageRequest(w.core, r)
    case StageRefused(code) => RejectAnswers(w, w, env, r, code);
    case StageAccepted(config) =>
      var held := WithSettings(w, w.core.settings.(staged := config, isStaged := true));
      AcknowledgeAnswers(w, held, env, r);
      TransitionAnswers(w, held, env, ConfigStaged, r);
  }

  lemma ApplyStagedAnswers(w: Work, env: Env, r: Packet)
    requires r.msgId == CONFIG_APPLY
    ensures Answered(w, ApplyStaged(w, env, r), r, env)
  {
    hide Replies, Answered, IsValid, SetFault, Adopt, Acknowledge, Reject;
    if !w.core.settings.isStaged {
      AcknowledgeAnswers(w, w, env, r);
    } else if w.core.drive.InMotion() {
      RejectAnswers(w, w, env, r, Busy);
    } else if !IsValid(w.core.settings.staged) {
      FailAnswers(w, w, env, InvalidConfig, r, OutOfRange);
    } else {
      var called :=
        if DriverChanged(w.core) then
          Do(w, env.configureDriver, ConfigureDriver(w.core.settings.staged.driver, env.configureDriver.Or(true)))
        else w;
      FailAnswers(w, called, env, DriverFault, r, BadState);
      AdoptAnswers(w, called, env, r);
    }
  }

  lemma AdoptAnswers(v: Work, w: Work, env: Env, r: Packet)
    requires Quiet(v, w, env) && r.msgId == CONFIG_APPLY
    ensures Answered(v, Adopt(w, env, r), r, env)
  {
    hide Replies, Answered, Notify, TransitionTo, Acknowledge;
    var applied := WithSettings(w, w.core.settings.(active := w.core.settings.staged, isStaged := false));
    var s := if w.core.drive.enabled then Idle else Disabled;
    TransitionIsQuiet(applied, env, s, Direct);
    NotifyAnswers(v, TransitionTo(applied, env, s, Direct), env, 0, ConfigApplied(w.core.settings.generation), r);
  }

  lemma SaveActiveAnswers(w: Work, env: Env, r: Packet)
    requires r.msgId == CONFIG_SAVE
    ensures Answered(w, SaveActive(w, env, r), r, env)
  {
    hide Replies, Answered, SetFault, Notify, Acknowledge, Reject;
    var ok := env.saveConfig.Or(false);
    var called := Do(w, env.saveConfig, SaveConfig(w.core.settings.active, ok));
    if !ok {
      FailAnswers(w, called, env, ConfigStorage, r, Storage);
    } else {
      var counted := WithSettings(called, w.core.settings.(generation := Add32(w.core.settings.generation, 1)));
      NotifyAnswers(w, counted, env, r.number, ConfigSaved(counted.core.settings.generation), r);
    }
  }

  lemma ResetDefaultsAnswers(w: Work, env: Env, r: Packet)
    requires r.msgId == CONFIG_RESET_DEFAULTS
    ensures Answered(w, ResetDefaults(w, env, r), r, env)
  {
    hide Replies, Answered, SetFault, Notify, Acknowledge, Reject;
    if w.core.drive.InMotion() {
      RejectAnswers(w, w, env, r, Busy);
    } else {
      var defaults := w.core.settings.defaults;
      var back := WithSettings(w, w.core.settings.(active := defaults, staged := defaults, isStaged := false));
      var configured := Do(back, env.configureDriver, ConfigureDriver(defaults.driver, env.configureDriver.Or(true)));
      var erased := Do(configured, env.resetStorage, ResetStorage(env.resetStorage.Or(true)));
      if !env.configureDriver.Or(true) {
        FailAnswers(w, configured, env, DriverFault, r, BadState);
      } else if !env.resetStorage.Or(true) {
        FailAnswers(w, erased, env, ConfigStorage, r, Storage);
      } else {
        NotifyAnswers(w, erased, env, r.number, ConfigApplied(w.core.settings.generation), r);
      }
    }
  }

  lemma SetTelemetryRateAnswers(w: Work, env: Env, r: Packet)
    requires r.msgId == SET_TELEM_RATE
    ensures Answered(w, SetTelemetryRate(w, env, r), r, env)
  {
    hide Replies, Answered, Acknowledge, Reject;
    if |r.payload| != 2 {
      RejectAnswers(w, w, env, r, Malformed);
    } else {
      var rate := U16At(r.payload, 0);
      var active := w.core.settings.active.(telemetry := w.core.settings.active.telemetry.(intervalMs := rate));
      var staged :=
        if w.core.settings.isStaged then
          w.core.settings.staged.(telemetry := w.core.settings.staged.telemetry.(intervalMs := rate))
        else active;
      AcknowledgeAnswers(w, WithSettings(w, w.core.settings.(active := active, staged := staged)), env, r);
    }
  }

  lemma RebootNowAnswers(w: Work, env: Env, r: Packet)
    requires r.msgId == REBOOT
    ensures Answered(w, RebootNow(w, env, r), r, env)
  {
    hide Replies, Acknowledge;
    AcknowledgeAnswers(w, w, env, r);
  }

  lemma StartedAnswers(v: Work, w: Work, env: Env, r: Packet, ok: bool, s: State, mode: Mode)
    requires Quiet(v, w, env) && ReplyId(r.msgId) == ACK_ID
    ensures Answered(v, Started(w, env, r, ok, s, mode), r, env)
  {
    hide Replies, Answered, SetFault, TransitionTo, Acknowledge, Reject;
    FailAnswers(v, w, env, DriverFault, r, BadState);
    TransitionAnswers(v, w, env, s, r);
  }

  lemma MoveAbsAnswers(w: Work, env: Env, r: Packet)
    requires r.msgId == MOVE_ABS
    ensures Answered(w, MoveAbs(w, env, r), r, env)
  {
    hide Replies, Answered, SetFault, Started, Reject, MotionRefusal, WithinLimits, SoftLimitViolation, ToBackend;
    if |r.payload| != 12 {
      RejectAnswers(w, w, env, r, Malformed);
    } else if MotionRefusal(w.core, ModePosition).Some? {
      RejectAnswers(w, w, env, r, MotionRefusal(w.core, ModePosition).value);
    } else {
      var target, velocity, accel := I32At(r.payload, 0), U32At(r.payload, 4), U32At(r.payload, 8);
      RejectAnswers(w, w, env, r, OutOfRange);
      FailAnswers(w, w, env, SoftLimit, r, OutOfRange);
      match ToBackend(w.core.settings.active, target)
      case None =>
      case Some(backendTarget) =>
        var ok := env.moveAbsolute.Or(false);
        StartedAnswers(w, Do(w, env.moveAbsolute, MoveAbsolute(backendTarget, velocity, accel, ok)), env, r, ok,
                       MovingPosition, ModePosition);
    }
  }

  lemma MoveRelAnswers(w: Work, env: Env, r: Packet)
    requires r.msgId == MOVE_REL
    ensures Answered(w, MoveRel(w, env, r), r, env)
  {
    hide Replies, Answered, SetFault, Started, Reject, MotionRefusal, WithinLimits, SoftLimitViolation, ToBackend;
    if |r.payload| != 12 {
      RejectAnswers(w, w, env, r, Malformed);
    } else if MotionRefusal(w.core, ModePosition).Some? {
      RejectAnswers(w, w, env, r, MotionRefusal(w.core, ModePosition).value);
    } else {
      var delta, velocity, accel := I32At(r.payload, 0), U32At(r.payload, 4), U32At(r.payload, 8);
      RejectAnswers(w, w, env, r, OutOfRange);
      FailAnswers(w, w, env, SoftLimit, r, OutOfRange);
      match ToBackend(w.core.settings.active, delta)
      case None =>
      case Some(backendDelta) =>
        var ok := env.moveRelative.Or(false);
        StartedAnswers(w, Do(w, env.moveRelative, MoveRelative(backendDelta, velocity, accel, ok)), env, r, ok,
                       MovingPosition, ModePosition);
    }
  }

  lemma RunVelAnswers(w: Work, env: Env, r: Packet)
    requires r.msgId == RUN_VEL
    ensures Answered(w, RunVel(w, env, r), r, env)
  {
    hide Replies, Answered, Started, Reject, MotionRefusal, WithinLimits, ToBackend;
    if |r.payload| != 8 {
      RejectAnswers(w, w, env, r, Malformed);
    } else if MotionRefusal(w.core, ModeVelocity).Some? {
      RejectAnswers(w, w, env, r, MotionRefusal(w.core, ModeVelocity).value);
    } else {
      var velocity, accel := I32At(r.payload, 0), U32At(r.payload, 4);
      RejectAnswers(w, w, env, r, OutOfRange);
      match ToBackend(w.core.settings.active, velocity)
      case None =>
      case Some(backendVelocity) =>
        var ok := env.runVelocity.Or(false);
        StartedAnswers(w, Do(w, env.runVelocity, RunVelocity(backendVelocity, accel, ok)), env, r, ok,
                       RunningVelocity, ModeVelocity);
    }
  }

  lemma DispatchAnswers(w: Work, env: Env, r: Packet)
    requires !(r.msgId == PING && r.payload == [])
    ensures Answered(w, Dispatch(w, env, r), r, env)
  {
    hide Replies, Answered, SetFault, Reject,
         Inquire, SetControlMode, EmergencyStopNow, RampStopNow, ClearFaults, ReportField, Stage, ApplyStaged,
         SaveActive, ResetDefaults, RebootNow, MoveAbs, MoveRel, RunVel, SetTelemetryRate;
    if TakesNoPayload(r.msgId) && r.payload != [] {
      RejectAnswers(w, w, env, r, Malformed);
    } else if r.msgId < SET_CONTROL_MODE || r.msgId == GET_DRIVER_STATUS {
      InquireAnswers(w, env, r);
    } else if r.msgId == SET_CONTROL_MODE {
      SetControlModeAnswers(w, env, r);
    } else if r.msgId == ESTOP {
      EmergencyStopAnswers(w, env, r);
    } else if r.msgId == RAMP_STOP {
      RampStopAnswers(w, env, r);
    } else if r.msgId == CLEAR_FAULTS {
      ClearFaultsAnswers(w, env, r);
    } else if r.msgId == CONFIG_QUERY {
      ReportFieldAnswers(w, env, r);
    } else if r.msgId == CONFIG_STAGE_FIELD {
      StageAnswers(w, env, r);
    } else if r.msgId == CONFIG_APPLY {
      ApplyStagedAnswers(w, env, r);
    } else if r.msgId == CONFIG_SAVE {
      SaveActiveAnswers(w, env, r);
    } else if r.msgId == CONFIG_RESET_DEFAULTS {
      ResetDefaultsAnswers(w, env, r);
    } else if r.msgId == REBOOT {
      RebootNowAnswers(w, env, r);
    } else if r.msgId == MOVE_ABS {
      MoveAbsAnswers(w, env, r);
    } else if r.msgId == MOVE_REL {
      MoveRelAnswers(w, env, r);
    } else if r.msgId == RUN_VEL {
      RunVelAnswers(w, env, r);
    } else if r.msgId == SET_TELEM_RATE {
      SetTelemetryRateAnswers(w, env, r);
    } else {
      FailAnswers(w, w, env, UnsupportedCommand, r, Unsupported);
    }
  }

  // ----- What the host can rely on -----

  /**
    Every packet that is not a repeat gets exactly one reply, which carries its number and is the last thing sent: the
    one its kind calls for, or an error. Errors, and nothing else, are counted as rejected commands.
   */
  lemma EveryRequestIsAnswered(c: Core, env: Env, r: Packet)
    requires !IsRepeat(c, r) && !(r.msgId == PING && r.payload == [])
    ensures
      var w := HandlePacket(c, env, r);
      w.sent != [] &&
      (var reply := w.sent[|w.sent| - 1];
       && Replies(w.sent) == [reply] && Replies(w.core.cache.responses) == [reply] && reply.number == r.number
       && (reply.message.Error? || IdOf(reply.message) == ReplyId(r.msgId))
       && w.core.counters.commands == Add32(c.counters.commands, 1)
       && w.core.counters.rejected ==
          if reply.message.Error? then Add32(c.counters.rejected, 1) else c.counters.rejected)
  {
    hide Replies, Dispatch;
    var seen := c.(lastHostMs := Now(env), counters := c.counters.(commands := Add32(c.counters.commands, 1)));
    DispatchAnswers(Start(seen), env, r);
    NoReplies();
    var reply := Dispatch(Start(seen), env, r).sent[|Dispatch(Start(seen), env, r).sent| - 1];
    assert [] + [reply] == [reply];
  }

  /** A ping gets an acknowledgement and then a pong. */
  lemma PingIsAnswered(c: Core, env: Env, r: Packet)
    requires !IsRepeat(c, r) && r.msgId == PING && r.payload == []
    ensures
      var w := HandlePacket(c, env, r);
      && w.sent == [Outgoing(r.number, Ack(PING)), Outgoing(r.number, Pong)]
      && w.core.cache.responses == w.sent && w.calls == []
  {
    var seen := c.(lastHostMs := Now(env), counters := c.counters.(commands := Add32(c.counters.commands, 1)));
    PingDispatch(Start(seen), env, r);
    hide Dispatch;
  }

  lemma PingDispatch(w: Work, env: Env, r: Packet)
    requires r.msgId == PING && r.payload == []
    ensures Dispatch(w, env, r).sent == w.sent + [Outgoing(r.number, Ack(PING)), Outgoing(r.number, Pong)]
    ensures Dispatch(w, env, r).responses == w.responses + [Outgoing(r.number, Ack(PING)), Outgoing(r.number, Pong)]
    ensures Dispatch(w, env, r).calls == w.calls
  {
    hide ReportDriver, Report, SetFault, Reject, RejectVia;
  }

  // ----- What an acknowledged motion means -----

  predicate AsksForMotion(r: Packet) { r.msgId == MOVE_ABS || r.msgId == MOVE_REL || r.msgId == RUN_VEL }

  /** The one call made is a motion call, and the backend took it on. */
  predicate MotionTaken(calls: seq<Call>) { |calls| == 1 && calls[0].IsMotion() && calls[0].ok }

  /** The call made is for the motion that was asked for, on the backend's side of a possible inversion. */
  predicate IsAsRequested(c: ActuatorConfig, call: Call, r: Packet)
    requires call.IsMotion() && 8 <= |r.payload|
  {
    var value := I32At(r.payload, 0);
    match call
    case MoveAbsolute(target, velocity, accel, _) =>
      r.msgId == MOVE_ABS && |r.payload| == 12 && OnLogicalAxis(c, target) == value
      && velocity == U32At(r.payload, 4) && accel == U32At(r.payload, 8)
    case MoveRelative(delta, velocity, accel, _) =>
      r.msgId == MOVE_REL && |r.payload| == 12 && OnLogicalAxis(c, delta) == value
      && velocity == U32At(r.payload, 4) && accel == U32At(r.payload, 8)
    case RunVelocity(speed, accel, _) =>
      r.msgId == RUN_VEL && |r.payload| == 8 && OnLogicalAxis(c, speed) == value && accel == U32At(r.payload, 4)
  }

  /** Acknowledged exactly when the backend took the motion on, in which case the state says which motion it is. */
  ghost predicate TruthfulMotion(w: Work, w': Work, r: Packet) {
    w'.sent != [] &&
    (var reply := w'.sent[|w'.sent| - 1].message;
     && (reply == Ack(r.msgId) <==> MotionTaken(w'.calls))
     && (!MotionTaken(w'.calls) ==> w'.core.drive.state == w.core.drive.state || w'.core.drive.state == Faulted)
     && (MotionTaken(w'.calls) ==>
           && 8 <= |r.payload| && IsAsRequested(w.core.settings.active, w'.calls[0], r)
           && !w'.core.settings.isStaged && w'.core.drive.enabled
           && w'.core.drive.state == (if r.msgId == RUN_VEL then RunningVelocity else MovingPosition)))
  }

  lemma RefusedIsTruthful(w: Work, faulted: Work, env: Env, r: Packet, code: ErrorCode)
    requires !MotionTaken(faulted.calls)
    requires faulted.core.drive.state == w.core.drive.state || faulted.core.drive.state == Faulted
    ensures TruthfulMotion(w, Reject(faulted, env, r, code), r)
  {}

  lemma StartedIsTruthful(w: Work, env: Env, r: Packet, call: Call, s: State, mode: Mode)
    requires w.calls == [] && call.IsMotion() && s == (if r.msgId == RUN_VEL then RunningVelocity else MovingPosition)
    requires !w.core.settings.isStaged && w.core.drive.enabled
    requires 8 <= |r.payload| && IsAsRequested(w.core.settings.active, call, r)
    ensures TruthfulMotion(w, Started(w.(calls := w.calls + [call]), env, r, call.ok, s, mode), r)
  {
    hide SetFault, TransitionTo, Send, Reject, IsAsRequested;
    if !call.ok {
      RefusedIsTruthful(w, SetFault(w.(calls := w.calls + [call]), env, DriverFault, Direct), env, r, BadState);
    } else {
      AcknowledgeIsLast(WithMode(TransitionTo(w.(calls := w.calls + [call]), env, s, Direct), mode), env, r);
    }
  }

  lemma AcknowledgeIsLast(w: Work, env: Env, r: Packet)
    ensures Acknowledge(w, env, r).sent == w.sent + [Outgoing(r.number, Ack(r.msgId))]
  {}

  /** A callback that is not installed takes nothing on. */
  lemma MissingIsTruthful(w: Work, env: Env, r: Packet, s: State, mode: Mode)
    requires w.calls == []
    ensures TruthfulMotion(w, Started(w, env, r, false, s, mode), r)
  {
    hide SetFault, Reject;
    RefusedIsTruthful(w, SetFault(w, env, DriverFault, Direct), env, r, BadState);
  }

  lemma BackendIsMirror(c: ActuatorConfig, logical: int32)
    ensures ToBackend(c, logical).Some? ==> OnLogicalAxis(c, ToBackend(c, logical).value) == logical
  {}

  lemma MoveAbsIsTruthful(w: Work, env: Env, r: Packet)
    requires w.calls == [] && r.msgId == MOVE_ABS
    ensures TruthfulMotion(w, MoveAbs(w, env, r), r)
  {
    hide TruthfulMotion, MotionTaken, SetFault, Started, Reject, WithinLimits, SoftLimitViolation, ToBackend, I32At,
         U32At;
    RefusalsAreTruthful(w, env, r);
    if |r.payload| == 12 && MotionRefusal(w.core, ModePosition).None? {
      match ToBackend(w.core.settings.active, I32At(r.payload, 0))
      case None =>
      case Some(target) =>
        BackendIsMirror(w.core.settings.active, I32At(r.payload, 0));
        var ok := env.moveAbsolute.Or(false);
        StartedIsTruthful(w, env, r, MoveAbsolute(target, U32At(r.payload, 4), U32At(r.payload, 8), ok),
                          MovingPosition, ModePosition);
        MissingIsTruthful(w, env, r, MovingPosition, ModePosition);
    }
  }

  lemma MoveRelIsTruthful(w: Work, env: Env, r: Packet)
    requires w.calls == [] && r.msgId == MOVE_REL
    ensures TruthfulMotion(w, MoveRel(w, env, r), r)
  {
    hide TruthfulMotion, MotionTaken, SetFault, Started, Reject, WithinLimits, SoftLimitViolation, ToBackend, I32At,
         U32At;
    RefusalsAreTruthful(w, env, r);
    if |r.payload| == 12 && MotionRefusal(w.core, ModePosition).None? {
      match ToBackend(w.core.settings.active, I32At(r.payload, 0))
      case None =>
      case Some(delta) =>
        BackendIsMirror(w.core.settings.active, I32At(r.payload, 0));
        var ok := env.moveRelative.Or(false);
        StartedIsTruthful(w, env, r, MoveRelative(delta, U32At(r.payload, 4), U32At(r.payload, 8), ok), MovingPosition,
                          ModePosition);
        MissingIsTruthful(w, env, r, MovingPosition, ModePosition);
    }
  }

  lemma RunVelIsTruthful(w: Work, env: Env, r: Packet)
    requires w.calls == [] && r.msgId == RUN_VEL
    ensures TruthfulMotion(w, RunVel(w, env, r), r)
  {
    hide TruthfulMotion, MotionTaken, SetFault, Started, Reject, WithinLimits, ToBackend, I32At, U32At;
    RefusalsAreTruthful(w, env, r);
    if |r.payload| == 8 && MotionRefusal(w.core, ModeVelocity).None? {
      match ToBackend(w.core.settings.active, I32At(r.payload, 0))
      case None =>
      case Some(velocity) =>
        BackendIsMirror(w.core.settings.active, I32At(r.payload, 0));
        var ok := env.runVelocity.Or(false);
        StartedIsTruthful(w, env, r, RunVelocity(velocity, U32At(r.payload, 4), ok), RunningVelocity, ModeVelocity);
        MissingIsTruthful(w, env, r, RunningVelocity, ModeVelocity);
    }
  }

  lemma RefusalsAreTruthful(w: Work, env: Env, r: Packet)
    requires w.calls == []
    ensures forall code :: TruthfulMotion(w, Reject(w, env, r, code), r)
    ensures forall code :: TruthfulMotion(w, Reject(SetFault(w, env, SoftLimit, Direct), env, r, code), r)
  {
    hide TruthfulMotion, SetFault, Reject;
    forall code ensures TruthfulMotion(w, Reject(w, env, r, code), r)
                ensures TruthfulMotion(w, Reject(SetFault(w, env, SoftLimit, Direct), env, r, code), r) {
      RefusedIsTruthful(w, w, env, r, code);
      RefusedIsTruthful(w, SetFault(w, env, SoftLimit, Direct), env, r, code);
    }
  }

  /**
    A request to move is acknowledged exactly when the backend was asked once for a motion and took it on; that motion
    is then the one requested, and the state says so. When it is not acknowledged the state stays what it was, or
    becomes faulted.
   */
  lemma MotionIsAcknowledgedTruthfully(c: Core, env: Env, r: Packet)
    requires !IsRepeat(c, r) && AsksForMotion(r)
    ensures TruthfulMotion(Start(c), HandlePacket(c, env, r), r)
  {
    var seen := Start(c.(lastHostMs := Now(env), counters := c.counters.(commands := Add32(c.counters.commands, 1))));
    hide MotionTaken, Dispatch, IsAsRequested;
    MotionDispatch(seen, env, r);
  }

  lemma MotionDispatch(w: Work, env: Env, r: Packet)
    requires w.calls == [] && AsksForMotion(r)
    ensures TruthfulMotion(w, Dispatch(w, env, r), r)
  {
    hide TruthfulMotion, MotionTaken, MoveAbs, MoveRel, RunVel, Inquire, SetControlMode, EmergencyStopNow, RampStopNow,
         ClearFaults, ReportField, Stage, ApplyStaged, SaveActive, ResetDefaults, RebootNow, SetTelemetryRate;
    if r.msgId == MOVE_ABS {
      MoveAbsIsTruthful(w, env, r);
    } else if r.msgId == MOVE_REL {
      MoveRelIsTruthful(w, env, r);
    } else {
      RunVelIsTruthful(w, env, r);
    }
  }

  // ----- What an acknowledged control mode means -----

  function StateOfMode(m: Mode): State {
    match m case ModeDisabled => Disabled case ModeCommissioning => Commissioning case _ => Idle
  }

  /** The calls that enable the driver, for those of the two callbacks that are installed: it is configured first. */
  function EnablingCalls(c: Core, env: Env): seq<Call> {
    (if env.configureDriver.Absent? then [] else [ConfigureDriver(c.settings.active.driver, true)])
    + (if env.enableDriver.Absent? then [] else [EnableDriver(true, true)])
  }

  /** The call that disables it, if that callback is installed, whatever it returns. */
  function DisablingCalls(env: Env): seq<Call> {
    if env.enableDriver.Absent? then [] else [EnableDriver(false, env.enableDriver.value)]
  }

  ghost predicate NeverOn(calls: seq<Call>) { forall i :: 0 <= i < |calls| ==> calls[i] != EnableDriver(true, true) }

  /** Acknowledged, the mode, the driver and the state are as requested; not acknowledged, the driver is as it was. */
  ghost predicate TruthfulMode(w: Work, w': Work, env: Env, r: Packet) {
    w'.sent != [] &&
    if w'.sent[|w'.sent| - 1].message == Ack(r.msgId) then
      && |r.payload| == 1 && r.payload[0] <= 3
      && (var mode := ModeOf(r.payload[0]);
          && w'.core.drive == Drive(StateOfMode(mode), mode, mode != ModeDisabled)
          && w'.calls == if mode == ModeDisabled then DisablingCalls(env) else EnablingCalls(w.core, env))
    else
      && w'.core.drive.enabled == w.core.drive.enabled && NeverOn(w'.calls)
      && (w'.core.drive.state == w.core.drive.state || w'.core.drive.state == Faulted)
  }

  lemma RefusedMode(w: Work, kept: Work, env: Env, r: Packet, code: ErrorCode)
    requires NeverOn(kept.calls) && kept.core.drive.enabled == w.core.drive.enabled
    requires kept.core.drive.state == w.core.drive.state || kept.core.drive.state == Faulted
    ensures TruthfulMode(w, Reject(kept, env, r, code), env, r)
  {}

  lemma AcknowledgedMode(w: Work, changed: Work, env: Env, r: Packet)
    requires |r.payload| == 1 && r.payload[0] <= 3
    requires
      var mode := ModeOf(r.payload[0]);
      && changed.core.drive == Drive(StateOfMode(mode), mode, mode != ModeDisabled)
      && changed.calls == if mode == ModeDisabled then DisablingCalls(env) else EnablingCalls(w.core, env)
    ensures TruthfulMode(w, Acknowledge(changed, env, r), env, r)
  {
    hide EnablingCalls, DisablingCalls;
  }

  lemma SetControlModeIsTruthful(w: Work, env: Env, r: Packet)
    requires w.calls == []
    ensures TruthfulMode(w, SetControlMode(w, env, r), env, r)
  {
    hide TruthfulMode, Reject, TurnOff, EnableInMode;
    forall code ensures TruthfulMode(w, Reject(w, env, r, code), env, r) {
      RefusedMode(w, w, env, r, code);
    }
    if |r.payload| == 1 && r.payload[0] <= 3 {
      var chosen := WithMode(w, ModeOf(r.payload[0]));
      if r.payload[0] == 0 {
        TurnOffIsTruthful(w, chosen, env, r);
      } else {
        EnableInModeIsTruthful(w, chosen, env, r);
      }
    }
  }

  lemma TurnOffIsTruthful(w: Work, chosen: Work, env: Env, r: Packet)
    requires w.calls == [] && r.payload == [0] && chosen == WithMode(w, ModeDisabled)
    ensures TruthfulMode(w, TurnOff(chosen, env, r), env, r)
  {
    hide TruthfulMode, TransitionTo, Acknowledge;
    var off := Do(chosen, env.enableDriver, EnableDriver(false, env.enableDriver.Or(true)));
    AcknowledgedMode(w, TransitionTo(WithEnabled(off, false), env, Disabled, Direct), env, r);
  }

  lemma EnableInModeIsTruthful(w: Work, chosen: Work, env: Env, r: Packet)
    requires w.calls == [] && |r.payload| == 1 && 0 < r.payload[0] <= 3 && chosen == WithMode(w, ModeOf(r.payload[0]))
    ensures TruthfulMode(w, EnableInMode(chosen, env, r), env, r)
  {
    hide TruthfulMode, SetFault, TransitionTo, Acknowledge, Reject;
    var configured := Do(chosen, env.configureDriver,
                         ConfigureDriver(w.core.settings.active.driver, env.configureDriver.Or(true)));
    var on := Do(configured, env.enableDriver, EnableDriver(true, env.enableDriver.Or(true)));
    if !env.configureDriver.Or(true) {
      RefusedMode(w, SetFault(configured, env, DriverFault, Direct), env, r, BadState);
    } else if !env.enableDriver.Or(true) {
      RefusedMode(w, SetFault(on, env, DriverFault, Direct), env, r, BadState);
    } else {
      var target := if r.payload[0] == 3 then Commissioning else Idle;
      AcknowledgedMode(w, TransitionTo(WithEnabled(on, true), env, target, Direct), env, r);
    }
  }

  /**
    A control mode is acknowledged only when it is in force: the driver configured and then enabled, or disabled. When
    it is refused the driver was not turned on.
   */
  lemma ControlModeIsAcknowledgedTruthfully(c: Core, env: Env, r: Packet)
    requires !IsRepeat(c, r) && r.msgId == SET_CONTROL_MODE
    ensures TruthfulMode(Start(c), HandlePacket(c, env, r), env, r)
  {
    var seen := Start(c.(lastHostMs := Now(env), counters := c.counters.(commands := Add32(c.counters.commands, 1))));
    hide SetControlMode, Dispatch, TruthfulMode;
    ModeDispatch(seen, env, r);
    SetControlModeIsTruthful(seen, env, r);
    SameTruth(seen, SetControlMode(seen, env, r), Start(c), HandlePacket(c, env, r), env, r);
  }

  lemma SameTruth(v: Work, v': Work, w: Work, w': Work, env: Env, r: Packet)
    requires TruthfulMode(v, v', env, r)
    requires w.core.drive == v.core.drive && w.core.settings == v.core.settings
    requires w'.core.drive == v'.core.drive && w'.sent == v'.sent && w'.calls == v'.calls
    ensures TruthfulMode(w, w', env, r)
  {
    hide NeverOn;
  }

  lemma ModeDispatch(w: Work, env: Env, r: Packet)
    requires r.msgId == SET_CONTROL_MODE
    ensures Dispatch(w, env, r) == SetControlMode(w, env, r)
  {
    hide SetControlMode, RejectVia;
  }

  // ----- Which motions are accepted -----

  /** No value of the logical axis but the least is without a mirror image. */
  predicate HasMirror(c: ActuatorConfig, logical: int32) { !(c.calibration.directionInverted && logical == INT32_MIN) }

  /** A motion of the other kind is in progress. */
  predicate OtherMotion(c: Core, r: Packet) {
    c.drive.state == (if r.msgId == RUN_VEL then MovingPosition else RunningVelocity)
  }

  /** The request is within the limits, and so is where the motion ends. */
  predicate MotionFits(c: Core, env: Env, r: Packet) {
    var config := c.settings.active;
    if r.msgId == MOVE_ABS then
      && |r.payload| == 12
      && WithinLimits(config, U32At(r.payload, 4), U32At(r.payload, 8))
      && WithinSoftLimits(config, I32At(r.payload, 0)) && HasMirror(config, I32At(r.payload, 0))
    else if r.msgId == MOVE_REL then
      && |r.payload| == 12
      && WithinLimits(config, U32At(r.payload, 4), U32At(r.payload, 8))
      && (var target := LogicalPosition(config, env) as int + I32At(r.payload, 0) as int;
          INT32_MIN <= target <= INT32_MAX && WithinSoftLimits(config, target))
      && HasMirror(config, I32At(r.payload, 0))
    else
      && r.msgId == RUN_VEL && |r.payload| == 8
      && WithinLimits(config, Magnitude(I32At(r.payload, 0)), U32At(r.payload, 4))
      && HasMirror(config, I32At(r.payload, 0))
  }

  predicate BackendAgrees(env: Env, r: Packet) {
    if r.msgId == MOVE_ABS then env.moveAbsolute == Returned(true)
    else if r.msgId == MOVE_REL then env.moveRelative == Returned(true)
    else env.runVelocity == Returned(true)
  }

  /** The requests for a motion that are accepted, in terms of the state, the limits, and the backend's answer. */
  predicate AcceptsMotion(c: Core, env: Env, r: Packet) {
    MayMove(c) && !OtherMotion(c, r) && MotionFits(c, env, r) && BackendAgrees(env, r)
  }

  /** What may not move is refused, and what may is not. */
  lemma RefusalIsExact(c: Core, requested: Mode)
    requires requested == ModePosition || requested == ModeVelocity
    ensures MotionRefusal(c, requested).None? <==>
      && MayMove(c)
      && (requested == ModePosition ==> c.drive.state != RunningVelocity)
      && (requested == ModeVelocity ==> c.drive.state != MovingPosition)
  {}

  lemma MirrorIsExact(c: ActuatorConfig, logical: int32)
    ensures ToBackend(c, logical).Some? <==> HasMirror(c, logical)
  {}

  lemma MoveAbsAccepts(w: Work, env: Env, r: Packet)
    requires w.calls == [] && r.msgId == MOVE_ABS
    ensures MotionTaken(MoveAbs(w, env, r).calls) <==> AcceptsMotion(w.core, env, r)
  {
    RefusalIsExact(w.core, ModePosition);
    if |r.payload| == 12 {
      MirrorIsExact(w.core.settings.active, I32At(r.payload, 0));
    }
    hide Send, Notify, TransitionTo, SetFault, Acknowledge, Reject, RejectVia, MotionRefusal, MayMove, WithinLimits,
         ToBackend, HasMirror, I32At, U32At;
  }

  lemma MoveRelAccepts(w: Work, env: Env, r: Packet)
    requires w.calls == [] && r.msgId == MOVE_REL
    ensures MotionTaken(MoveRel(w, env, r).calls) <==> AcceptsMotion(w.core, env, r)
  {
    RefusalIsExact(w.core, ModePosition);
    if |r.payload| == 12 {
      MirrorIsExact(w.core.settings.active, I32At(r.payload, 0));
    }
    hide Send, Notify, TransitionTo, SetFault, Acknowledge, Reject, RejectVia, MotionRefusal, MayMove, WithinLimits,
         ToBackend, HasMirror, I32At, U32At, LogicalPosition;
  }

  lemma RunVelAccepts(w: Work, env: Env, r: Packet)
    requires w.calls == [] && r.msgId == RUN_VEL
    ensures MotionTaken(RunVel(w, env, r).calls) <==> AcceptsMotion(w.core, env, r)
  {
    RefusalIsExact(w.core, ModeVelocity);
    if |r.payload| == 8 {
      MirrorIsExact(w.core.settings.active, I32At(r.payload, 0));
    }
    hide Send, Notify, TransitionTo, SetFault, Acknowledge, Reject, RejectVia, MotionRefusal, MayMove, WithinLimits,
         ToBackend, HasMirror, I32At, U32At;
  }

  lemma DispatchAccepts(w: Work, env: Env, r: Packet)
    requires w.calls == [] && AsksForMotion(r)
    ensures MotionTaken(Dispatch(w, env, r).calls) <==> AcceptsMotion(w.core, env, r)
  {
    hide MotionTaken, AcceptsMotion, MoveAbs, MoveRel, RunVel, Inquire, SetControlMode, EmergencyStopNow, RampStopNow,
         ClearFaults, ReportField, Stage, ApplyStaged, SaveActive, ResetDefaults, RebootNow, SetTelemetryRate;
    if r.msgId == MOVE_ABS {
      MoveAbsAccepts(w, env, r);
    } else if r.msgId == MOVE_REL {
      MoveRelAccepts(w, env, r);
    } else {
      RunVelAccepts(w, env, r);
    }
  }

  lemma SameAcceptance(c: Core, d: Core, env: Env, r: Packet)
    requires c.settings == d.settings && c.drive == d.drive
    ensures AcceptsMotion(c, env, r) <==> AcceptsMotion(d, env, r)
  {}

  /**
    A request for a motion reaches the backend and is taken on exactly when it is acceptable: neither less nor more.
   */
  lemma MotionIsAcceptedExactly(c: Core, env: Env, r: Packet)
    requires !IsRepeat(c, r) && AsksForMotion(r)
    ensures MotionTaken(HandlePacket(c, env, r).calls) <==> AcceptsMotion(c, env, r)
  {
    var seen := Start(c.(lastHostMs := Now(env), counters := c.counters.(commands := Add32(c.counters.commands, 1))));
    SameAcceptance(c, seen.core, env, r);
    hide Dispatch, MotionTaken, AcceptsMotion;
    DispatchAccepts(seen, env, r);
  }

  // ----- Whom a reply is for -----

  /** Nothing that answers a request of this number. */
  ghost predicate NoReplyTo(sent: seq<Outgoing>, number: uint16) {
    forall i :: 0 <= i < |sent| && IsReply(sent[i]) ==> sent[i].number != number
  }

  lemma {:induction false} RepliesTell(sent: seq<Outgoing>, number: uint16)
    requires forall i :: 0 <= i < |Replies(sent)| ==> Replies(sent)[i].number != number
    ensures NoReplyTo(sent, number)
    decreases |sent|
  {
    if sent != [] {
      var init, last := sent[..|sent| - 1], sent[|sent| - 1];
      assert Replies(sent) == Replies(init) + if IsReply(last) then [last] else [];
      assert forall i :: 0 <= i < |Replies(init)| ==> Replies(init)[i] == Replies(sent)[i];
      RepliesTell(init, number);
      assert IsReply(last) ==> Replies(sent)[|Replies(init)|] == last;
      assert forall i :: 0 <= i < |init| ==> init[i] == sent[i];
    }
  }

  /** An update answers nothing. */
  lemma UpdateIsQuiet(c: Core, env: Env, via: Writer)
    ensures Quiet(Start(c), Update(c, env, via), env)
  {
    hide Quiet, AnnounceBoot, FinishMotion, CheckHost;
    var v := AnnounceBoot(Start(c), env, via);
    var w := FinishMotion(v, env, via);
    AnnounceBootIsQuiet(Start(c), env, via);
    FinishMotionIsQuiet(v, env, via);
    CheckHostIsQuiet(w, env, via);
    QuietTwice(Start(c), v, w, env);
    QuietTwice(Start(c), w, CheckHost(w, env, via), env);
  }

  lemma QuietTwice(u: Work, v: Work, w: Work, env: Env)
    requires Quiet(u, v, env) && Quiet(v, w, env)
    ensures Quiet(u, w, env)
  {
    hide Replies, DroppedBefore;
  }

  lemma AnnounceBootIsQuiet(w: Work, env: Env, via: Writer)
    ensures Quiet(w, AnnounceBoot(w, env, via), env)
  {
    hide Replies, Notify;
    NotifyIsQuiet(w, env, via, 0, BootReason(w.core.bootReason));
  }

  lemma FinishMotionIsQuiet(w: Work, env: Env, via: Writer)
    ensures Quiet(w, FinishMotion(w, env, via), env)
  {
    hide Replies, TransitionTo;
    TransitionIsQuiet(w, env, if w.core.drive.enabled then Idle else Disabled, via);
  }

  lemma CheckHostIsQuiet(w: Work, env: Env, via: Writer)
    ensures Quiet(w, CheckHost(w, env, via), env)
  {
    hide Replies, Notify, SetFault, TransitionTo, Failed;
    var safety := w.core.settings.active.safety;
    var e := HostTimedOut(safety.timeoutAction, safety.hostTimeoutMs);
    FaultIsQuiet(w, env, HostTimeout, via);
    var faulted := SetFault(w, env, HostTimeout, via);
    NotifyIsQuiet(faulted, env, via, 0, e);
    var told := Notify(faulted, env, via, 0, e);
    TransitionIsQuiet(StopAndDisable(told, env), env, Faulted, via);
    var called := Do(told, env.rampStop, RampStop(w.core.settings.active.motion.stopDecel, env.rampStop.Or(true)));
    TransitionIsQuiet(called, env, Stopping, via);
  }
}
