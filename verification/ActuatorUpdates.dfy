/** What `update` does: how a motion ends, how a velocity run times out, and when a boot is announced. */
module ActuatorUpdates {
  import opened Bytes
  import opened Config
  import opened Protocol
  import opened ActuatorTypes
  import opened ActuatorSteps
  import opened ActuatorInvariant
  import opened ActuatorSafety
  import opened ActuatorAnswers
  import opened ActuatorRefusals
  import opened ActuatorEffects
  import opened ActuatorTrace

  // ----- One update -----

  predicate Travels(d: Drive) { d.state == MovingPosition || d.state == Stopping }

  /** Where a motion that has ended leaves the drive. */
  function Settled(d: Drive): Drive {
    if d.enabled then Drive(Idle, ModePosition, true) else Drive(Disabled, ModeDisabled, false)
  }

  /** A velocity run whose host has been silent for longer than it may. */
  predicate HostIsSilent(c: Core, env: Env) {
    && c.drive.state == RunningVelocity && 0 < c.settings.active.safety.hostTimeoutMs
    && (Now(env) - c.lastHostMs) % 0x1_0000_0000 > c.settings.active.safety.hostTimeoutMs
  }

  /** Where a run whose host is silent is left: disabled, or stopping at the configured deceleration. */
  ghost predicate TimeoutDoes(c: Core, env: Env, d: Drive, calls: seq<Call>) {
    if c.settings.active.safety.timeoutAction == ACTION_DISABLE then
      && d == Drive(Faulted, ModeDisabled, false)
      && calls == MaybeCall(env.emergencyStop, EmergencyStop)
                + MaybeCall(env.enableDriver, EnableDriver(false, env.enableDriver != Returned(false)))
    else
      && d == Drive(Stopping, ModePosition, c.drive.enabled)
      && calls == MaybeCall(env.rampStop, RampStop(c.settings.active.motion.stopDecel, env.rampStop != Returned(false)))
  }

  ghost predicate UpdateDoes(c: Core, env: Env, w: Work) {
    if Travels(c.drive) then
      && w.core.drive == (if env.motionActive == Returned(false) then Settled(c.drive) else c.drive)
      && w.core.faults == c.faults && w.calls == []
    else if HostIsSilent(c, env) then
      w.core.faults == c.faults + {HostTimeout} && TimeoutDoes(c, env, w.core.drive, w.calls)
    else w.core.drive == c.drive && w.core.faults == c.faults && w.calls == []
  }

  lemma FinishDoes(w: Work, env: Env, via: Writer)
    ensures FinishMotion(w, env, via).core.drive ==
      if Travels(w.core.drive) && env.motionActive == Returned(false) then Settled(w.core.drive) else w.core.drive
  {
    hide TransitionTo;
  }

  lemma SilenceDoes(w: Work, env: Env, via: Writer)
    requires w.calls == []
    ensures
      var w' := CheckHost(w, env, via);
      if HostIsSilent(w.core, env)
      then w'.core.faults == w.core.faults + {HostTimeout} && TimeoutDoes(w.core, env, w'.core.drive, w'.calls)
      else w' == w
  {
    hide Notify, TransitionTo, SetFault;
  }

  /**
    An update ends a motion exactly when the backend says that it has ended, and a velocity run exactly when the host
    has been silent for too long. Otherwise it leaves the drive as it is, and calls nothing.
   */
  lemma UpdateEffect(c: Core, env: Env, via: Writer)
    ensures UpdateDoes(c, env, Update(c, env, via)) && Update(c, env, via).core.settings == c.settings
  {
    var v := AnnounceBoot(Start(c), env, via);
    FinishDoes(v, env, via);
    SilenceDoes(FinishMotion(v, env, via), env, via);
    hide AnnounceBoot, FinishMotion, CheckHost, TimeoutDoes, HostIsSilent;
    if !Travels(c.drive) {
      SameSilence(c, FinishMotion(v, env, via).core, env);
    } else {
      NoRunNoSilence(FinishMotion(v, env, via).core, env);
    }
  }

  lemma SameSilence(c: Core, d: Core, env: Env)
    requires c.settings == d.settings && c.drive == d.drive && c.lastHostMs == d.lastHostMs
    ensures HostIsSilent(c, env) <==> HostIsSilent(d, env)
    ensures forall drive, calls :: TimeoutDoes(c, env, drive, calls) == TimeoutDoes(d, env, drive, calls)
  {
    hide MaybeCall;
  }

  lemma NoRunNoSilence(c: Core, env: Env)
    requires c.drive.state != RunningVelocity
    ensures !HostIsSilent(c, env)
  {}

  // ----- Runs without commands -----

  /** Updates, telemetry and queries. */
  predicate Watches(a: Action) { a.Tick? || a.Telemetry? || (a.Handle? && IsQuery(a.request)) }

  ghost predicate OnlyWatches(inputs: seq<Input>) { forall i :: 0 <= i < |inputs| ==> Watches(inputs[i].action) }

  predicate Hears(input: Input) { input.action.Tick? && input.env.motionActive == Returned(false) }

  /** An update of the run heard that the motion has ended. */
  ghost predicate EndHeard(inputs: seq<Input>) { exists i :: 0 <= i < |inputs| && Hears(inputs[i]) }

  lemma WatchingStep(c: Core, env: Env, a: Action)
    requires Watches(a) && c.drive.state != RunningVelocity
    ensures Step(c, env, a).core.drive ==
      if Travels(c.drive) && Hears(Input(env, a)) then Settled(c.drive) else c.drive
  {
    match a
    case Handle(r) =>
      if IsRepeat(c, r) {
        HandlePermitted(c, env, r);
      } else {
        QueryEffect(c, env, r);
      }
      hide HandlePacket;
    case Tick(writer) =>
      UpdateEffect(c, env, if writer then Direct else NoWriter);
      hide Update;
    case Telemetry(number) =>
      hide Send, Report;
  }

  /** A motion goes on until the first update that hears of its end, and then it has ended for good. */
  lemma {:induction false} MotionEndsWhenHeard(c: Core, inputs: seq<Input>)
    requires Travels(c.drive) && OnlyWatches(inputs)
    ensures Run(c, inputs).drive == if EndHeard(inputs) then Settled(c.drive) else c.drive
    decreases |inputs|
  {
    hide Step, Watches;
    if inputs != [] {
      var init, last := inputs[..|inputs| - 1], inputs[|inputs| - 1];
      assert OnlyWatches(init) && Watches(last.action) by {
        assert forall i :: 0 <= i < |init| ==> init[i] == inputs[i];
      }
      MotionEndsWhenHeard(c, init);
      WatchingStep(Run(c, init), last.env, last.action);
      HeardBefore(inputs);
    }
  }

  lemma HeardBefore(inputs: seq<Input>)
    requires inputs != []
    ensures EndHeard(inputs) <==> EndHeard(inputs[..|inputs| - 1]) || Hears(inputs[|inputs| - 1])
  {
    var init := inputs[..|inputs| - 1];
    assert forall i :: 0 <= i < |init| ==> init[i] == inputs[i];
    if EndHeard(inputs) {
      var i :| 0 <= i < |inputs| && Hears(inputs[i]);
      assert i < |init| ==> Hears(init[i]);
    }
    if EndHeard(init) {
      var i :| 0 <= i < |init| && Hears(init[i]);
      assert Hears(inputs[i]);
    }
  }

  /**
    So an accepted move, with no other command after it, is in progress until an update hears that it has ended, and
    leaves the actuator idle in position mode with the driver on.
   */
  lemma AcceptedMoveLasts(c: Core, env: Env, r: Packet, inputs: seq<Input>)
    requires Invariant(c) && !IsRepeat(c, r) && r.msgId in {MOVE_ABS, MOVE_REL} && AcceptsMotion(c, env, r)
    requires OnlyWatches(inputs)
    ensures Run(HandlePacket(c, env, r).core, inputs).drive ==
      if EndHeard(inputs) then Drive(Idle, ModePosition, true) else Drive(MovingPosition, ModePosition, true)
  {
    MotionIsAcceptedExactly(c, env, r);
    MotionIsAcknowledgedTruthfully(c, env, r);
    StepKeepsInvariant(c, env, Handle(r));
    MovingIsPosition(HandlePacket(c, env, r).core);
    hide HandlePacket, Invariant, AcceptsMotion, Run, OnlyWatches, EndHeard, MotionTaken, IsAsRequested;
    MotionEndsWhenHeard(HandlePacket(c, env, r).core, inputs);
  }

  lemma MovingIsPosition(c: Core)
    requires Invariant(c)
    ensures c.drive.state == MovingPosition ==> c.drive.mode == ModePosition
  {
    hide ConfigsValid;
  }

  // ----- What an update tells -----

  function Tell(e: Occurrence): seq<Outgoing> { [Outgoing(0, Notice(e))] }

  function TellBoot(c: Core): seq<Outgoing> { if c.bootEventPending then Tell(BootReason(c.bootReason)) else [] }

  function TellEnd(c: Core, env: Env): seq<Outgoing> {
    if Travels(c.drive) && env.motionActive == Returned(false)
    then Tell(StateChanged(c.drive.state, Settled(c.drive).state)) else []
  }

  function TellSilence(c: Core, env: Env): seq<Outgoing> {
    if !HostIsSilent(c, env) then []
    else
      var safety := c.settings.active.safety;
      (if HostTimeout in c.faults then [] else Tell(FaultSet(HostTimeout, c.faults + {HostTimeout})))
      + Tell(HostTimedOut(safety.timeoutAction, safety.hostTimeoutMs))
      + Tell(StateChanged(RunningVelocity, if safety.timeoutAction == ACTION_DISABLE then Faulted else Stopping))
  }

  lemma NotifySends(w: Work, env: Env, via: Writer, e: Occurrence)
    ensures Notify(w, env, via, 0, e).sent == w.sent + if via == NoWriter then [] else Tell(e)
  {}

  lemma TransitionSends(w: Work, env: Env, s: State, via: Writer)
    ensures TransitionTo(w, env, s, via).sent ==
      w.sent + if via == NoWriter || s == w.core.drive.state then [] else Tell(StateChanged(w.core.drive.state, s))
  {
    NotifySends(WithState(w, s), env, via, StateChanged(w.core.drive.state, s));
    hide Notify;
  }

  lemma AnnounceSends(w: Work, env: Env, via: Writer)
    ensures
      var w' := AnnounceBoot(w, env, via);
      && w'.sent == w.sent + (if via == NoWriter then [] else TellBoot(w.core))
      && w'.core.bootEventPending == (w.core.bootEventPending && via == NoWriter)
  {
    NotifySends(w, env, via, BootReason(w.core.bootReason));
    hide Notify;
  }

  lemma FinishSends(w: Work, env: Env, via: Writer)
    ensures FinishMotion(w, env, via).sent == w.sent + if via == NoWriter then [] else TellEnd(w.core, env)
  {
    TransitionSends(w, env, Settled(w.core.drive).state, via);
    hide TransitionTo;
  }

  lemma SilenceSends(w: Work, env: Env, via: Writer)
    ensures CheckHost(w, env, via).sent == w.sent + if via == NoWriter then [] else TellSilence(w.core, env)
  {
    TimeoutSends(w, env, via);
    hide Notify, TransitionTo, SetFault, Tell;
    var told := TimeoutTold(w, env, via);
    TransitionSends(StopAndDisable(told, env), env, Faulted, via);
    var call := RampStop(w.core.settings.active.motion.stopDecel, env.rampStop.Or(true));
    TransitionSends(Do(told, env.rampStop, call), env, Stopping, via);
  }

  /** The first half of a timeout: the fault, and what is told of it. */
  function TimeoutTold(w: Work, env: Env, via: Writer): Work {
    var safety := w.core.settings.active.safety;
    Notify(SetFault(w, env, HostTimeout, via), env, via, 0, HostTimedOut(safety.timeoutAction, safety.hostTimeoutMs))
  }

  lemma TimeoutSends(w: Work, env: Env, via: Writer)
    ensures
      var told, safety := TimeoutTold(w, env, via), w.core.settings.active.safety;
      && told.core.drive == w.core.drive
      && told.sent == w.sent +
         if via == NoWriter then []
         else (if HostTimeout in w.core.faults then [] else Tell(FaultSet(HostTimeout, w.core.faults + {HostTimeout})))
              + Tell(HostTimedOut(safety.timeoutAction, safety.hostTimeoutMs))
  {
    var safety := w.core.settings.active.safety;
    TimeoutFaultSends(w, env, via);
    NotifySends(SetFault(w, env, HostTimeout, via), env, via, HostTimedOut(safety.timeoutAction, safety.hostTimeoutMs));
    hide Notify, SetFault, Tell;
  }

  lemma TimeoutFaultSends(w: Work, env: Env, via: Writer)
    ensures SetFault(w, env, HostTimeout, via).sent == w.sent +
      if via == NoWriter || HostTimeout in w.core.faults then []
      else Tell(FaultSet(HostTimeout, w.core.faults + {HostTimeout}))
  {
    var raised := w.(core := w.core.(faults := w.core.faults + {HostTimeout}));
    NotifySends(raised, env, via, FaultSet(HostTimeout, raised.core.faults));
    hide Notify;
  }

  /**
    With a writer, an update tells a boot that was not told yet, then the end of a motion it heard of or the timeout of
    a run, each with what it changed; without a writer it tells nothing, and the boot is still to be told.
   */
  lemma UpdateTells(c: Core, env: Env, via: Writer)
    ensures
      var w := Update(c, env, via);
      && w.sent == (if via == NoWriter then [] else TellBoot(c) + TellEnd(c, env) + TellSilence(c, env))
      && w.core.bootEventPending == (c.bootEventPending && via == NoWriter) && w.core.bootReason == c.bootReason
  {
    var v := AnnounceBoot(Start(c), env, via);
    AnnounceSends(Start(c), env, via);
    FinishSends(v, env, via);
    SilenceSends(FinishMotion(v, env, via), env, via);
    hide AnnounceBoot, TellBoot, CheckHost, Notify, TransitionTo;
  }

  // ----- Announcing a boot -----

  predicate TellsEvents(a: Action) { a == Tick(true) }

  ghost predicate BootTold(inputs: seq<Input>) {
    exists i :: 0 <= i < |inputs| && TellsEvents(inputs[i].action)
  }

  lemma OtherStepsKeepBoot(c: Core, env: Env, a: Action)
    requires !a.Restart? && !a.Tick?
    ensures Step(c, env, a).core.bootEventPending == c.bootEventPending
        && Step(c, env, a).core.bootReason == c.bootReason
  {
    hide Dispatch, SetFault, Send, SendAll, RejectVia, Report;
  }

  lemma {:induction false} BootStaysPending(c: Core, inputs: seq<Input>)
    requires forall i :: 0 <= i < |inputs| ==> !inputs[i].action.Restart?
    ensures Run(c, inputs).bootReason == c.bootReason
    ensures Run(c, inputs).bootEventPending == (c.bootEventPending && !BootTold(inputs))
    decreases |inputs|
  {
    hide Step, Update;
    if inputs != [] {
      var init, last := inputs[..|inputs| - 1], inputs[|inputs| - 1];
      BootStaysPending(c, init);
      if last.action.Tick? {
        UpdateTells(Run(c, init), last.env, if last.action.writer then Direct else NoWriter);
        assert Step(Run(c, init), last.env, last.action)
            == Update(Run(c, init), last.env, if last.action.writer then Direct else NoWriter) by { StepIsUpdate(); }
      } else {
        OtherStepsKeepBoot(Run(c, init), last.env, last.action);
      }
      ToldBefore(inputs);
    }
  }

  lemma StepIsUpdate()
    ensures forall c, env, writer ::
      Step(c, env, Tick(writer)) == Update(c, env, if writer then Direct else NoWriter)
  {
    hide Update;
  }

  lemma ToldBefore(inputs: seq<Input>)
    requires inputs != []
    ensures BootTold(inputs) <==> BootTold(inputs[..|inputs| - 1]) || TellsEvents(inputs[|inputs| - 1].action)
  {
    var init := inputs[..|inputs| - 1];
    assert forall i :: 0 <= i < |init| ==> init[i] == inputs[i];
    if BootTold(inputs) {
      var i :| 0 <= i < |inputs| && TellsEvents(inputs[i].action);
      assert i < |init| ==> TellsEvents(init[i].action);
    }
    if BootTold(init) {
      var i :| 0 <= i < |init| && TellsEvents(init[i].action);
      assert TellsEvents(inputs[i].action);
    }
  }

  /** A boot is told once, with its reason: by the first update after it that has a writer. */
  lemma BootIsToldOnce(defaults: ActuatorConfig, boot: Env, inputs: seq<Input>, env: Env)
    requires forall i :: 0 <= i < |inputs| ==> !inputs[i].action.Restart?
    ensures
      var c := Run(Begin(defaults, boot).core, inputs);
      Update(c, env, Direct).sent ==
        (if BootTold(inputs) then [] else Tell(BootReason(boot.bootReason.Or(0))))
        + TellEnd(c, env) + TellSilence(c, env)
  {
    BootEffect(defaults, boot);
    hide Begin, Run, Update;
    BootStaysPending(Begin(defaults, boot).core, inputs);
    UpdateTells(Run(Begin(defaults, boot).core, inputs), env, Direct);
  }
}
