/** Whole runs with repeated packets, against the same runs without them: every packet is executed once. */
module ActuatorOnce {
  import opened Bytes
  import opened Config
  import opened Protocol
  import opened ActuatorTypes
  import opened ActuatorSteps
  import opened ActuatorTrace
  import opened ActuatorReplay

  // ----- Updates of alike actuators -----

  lemma AnnounceBootAlike(v: Work, w: Work, env: Env, via: Writer)
    requires Alike(v, w)
    ensures Alike(AnnounceBoot(v, env, via), AnnounceBoot(w, env, via))
  {
    hide BlurAll, Notify, Alike;
    SameBoot(v, w);
    if v.core.bootEventPending && via != NoWriter {
      var e := BootReason(v.core.bootReason);
      NotifyAlike(v, w, env, via, 0, e);
      BootToldAlike(Notify(v, env, via, 0, e), Notify(w, env, via, 0, e));
    }
  }

  lemma SameBoot(v: Work, w: Work)
    requires Alike(v, w)
    ensures v.core.bootEventPending == w.core.bootEventPending && v.core.bootReason == w.core.bootReason
  {
    hide BlurAll;
  }

  lemma BootToldAlike(v: Work, w: Work)
    requires Alike(v, w)
    ensures Alike(v.(core := v.core.(bootEventPending := false)), w.(core := w.core.(bootEventPending := false)))
  {
    hide BlurAll;
  }

  lemma FinishMotionAlike(v: Work, w: Work, env: Env, via: Writer)
    requires Alike(v, w)
    ensures Alike(FinishMotion(v, env, via), FinishMotion(w, env, via))
  {
    hide Notify, TransitionTo, Alike;
    SameView(v, w);
    var target := if v.core.drive.enabled then Idle else Disabled;
    var mode := if v.core.drive.enabled then ModePosition else ModeDisabled;
    TransitionAlike(v, w, env, target, via);
    var v1, w1 := TransitionTo(v, env, target, via), TransitionTo(w, env, target, via);
    WithDriveAlike(v1, w1, v1.core.drive.(mode := mode));
    SameView(v1, w1);
  }

  lemma CheckHostAlike(v: Work, w: Work, env: Env, via: Writer)
    requires Alike(v, w) && (TimedOut(v.core, Now(env)) <==> TimedOut(w.core, Now(env)))
    ensures Alike(CheckHost(v, env, via), CheckHost(w, env, via))
  {
    hide Notify, TransitionTo, SetFault, Alike, TimedOut, StopAndDisable;
    SameView(v, w);
    if TimedOut(v.core, Now(env)) {
      var safety := v.core.settings.active.safety;
      var e := HostTimedOut(safety.timeoutAction, safety.hostTimeoutMs);
      FaultAlike(v, w, env, HostTimeout, via);
      var v1, w1 := SetFault(v, env, HostTimeout, via), SetFault(w, env, HostTimeout, via);
      NotifyAlike(v1, w1, env, via, 0, e);
      v1, w1 := Notify(v1, env, via, 0, e), Notify(w1, env, via, 0, e);
      if safety.timeoutAction == ACTION_DISABLE {
        StopAndDisableAlike(v1, w1, env);
        TransitionAlike(StopAndDisable(v1, env), StopAndDisable(w1, env), env, Faulted, via);
      } else {
        var call := RampStop(v.core.settings.active.motion.stopDecel, env.rampStop.Or(true));
        DoAlike(v1, w1, env.rampStop, call);
        v1, w1 := Do(v1, env.rampStop, call), Do(w1, env.rampStop, call);
        TransitionAlike(v1, w1, env, Stopping, via);
        v1, w1 := TransitionTo(v1, env, Stopping, via), TransitionTo(w1, env, Stopping, via);
        SameView(v1, w1);
        WithDriveAlike(v1, w1, v1.core.drive.(mode := ModePosition));
      }
    }
  }

  lemma StopAndDisableAlike(v: Work, w: Work, env: Env)
    requires Alike(v, w)
    ensures Alike(StopAndDisable(v, env), StopAndDisable(w, env))
  {
    hide Alike;
    DoAlike(v, w, env.emergencyStop, EmergencyStop);
    var v1, w1 := Do(v, env.emergencyStop, EmergencyStop), Do(w, env.emergencyStop, EmergencyStop);
    var call := EnableDriver(false, env.enableDriver.Or(true));
    DoAlike(v1, w1, env.enableDriver, call);
    v1, w1 := Do(v1, env.enableDriver, call), Do(w1, env.enableDriver, call);
    SameView(v1, w1);
    WithDriveAlike(v1, w1, v1.core.drive.(enabled := false, mode := ModeDisabled));
  }

  /** What precedes the watchdog in an update does not change its verdict. */
  lemma SameVerdict(c: Core, env: Env, via: Writer, now: uint32)
    ensures TimedOut(FinishMotion(AnnounceBoot(Start(c), env, via), env, via).core, now) <==> TimedOut(c, now)
  {
    hide Notify, TransitionTo, AnnounceBoot, FinishMotion;
  }

  lemma UpdateAlike(c: Core, d: Core, env: Env, via: Writer)
    requires BlurCore(c) == BlurCore(d) && (TimedOut(c, Now(env)) <==> TimedOut(d, Now(env)))
    ensures Alike(Update(c, env, via), Update(d, env, via))
  {
    assert Alike(Start(c), Start(d));
    hide Alike, BlurCore, AnnounceBoot, FinishMotion, CheckHost, TimedOut;
    AnnounceBootAlike(Start(c), Start(d), env, via);
    var v, w := AnnounceBoot(Start(c), env, via), AnnounceBoot(Start(d), env, via);
    FinishMotionAlike(v, w, env, via);
    SameVerdict(c, env, via, Now(env));
    SameVerdict(d, env, via, Now(env));
    CheckHostAlike(FinishMotion(v, env, via), FinishMotion(w, env, via), env, via);
  }

  /** A velocity run survives an update exactly when the watchdog lets it. */
  lemma UpdateKeepsRun(c: Core, env: Env, via: Writer)
    requires c.drive.state == RunningVelocity
    ensures Update(c, env, via).core.drive.state == RunningVelocity <==> !TimedOut(c, Now(env))
  {
    hide Notify, TransitionTo, SetFault, AnnounceBoot, FinishMotion;
  }

  // ----- Any step of alike actuators -----

  /** A packet identical to the one the cache remembers. */
  predicate IsExactRepeat(c: Core, a: Action) { a.Handle? && c.cache.request == Some(a.request) }

  predicate SameTimeout(c: Core, d: Core, input: Input) {
    input.action.Tick? ==> (TimedOut(c, Now(input.env)) <==> TimedOut(d, Now(input.env)))
  }

  lemma MismatchAlike(c: Core, d: Core, env: Env, r: Packet)
    requires BlurCore(c) == BlurCore(d) && IsRepeat(c, r) && c.cache.request != Some(r)
    ensures Alike(HandlePacket(c, env, r), HandlePacket(d, env, r))
  {
    var c1 := c.(lastHostMs := Now(env), counters := c.counters.(duplicates := Add32(c.counters.duplicates, 1)));
    var d1 := d.(lastHostMs := Now(env), counters := d.counters.(duplicates := Add32(d.counters.duplicates, 1)));
    assert Alike(Start(c1), Start(d1));
    hide Alike, BlurAll, RejectVia;
    RejectAlike(Start(c1), Start(d1), env, Direct, r, DuplicateMismatch);
  }

  lemma FrameErrorAlike(c: Core, d: Core, env: Env, error: FrameError)
    requires BlurCore(c) == BlurCore(d)
    ensures Alike(RecordFrameError(c, env, error), RecordFrameError(d, env, error))
  {
    var c1 := RecordedError(c, error);
    var d1 := RecordedError(d, error);
    assert Alike(Start(c1), Start(d1));
    hide Alike, BlurAll, SetFault;
    var fault := match error { case BadCrc => CrcFault case BadPayload => PayloadFault case BadVersion => RxFrame };
    FaultAlike(Start(c1), Start(d1), env, fault, NoWriter);
  }

  function RecordedError(c: Core, error: FrameError): Core {
    c.(counters := c.counters.(
      decodeErrors := Add32(c.counters.decodeErrors, 1),
      crcErrors := if error == BadCrc then Add32(c.counters.crcErrors, 1) else c.counters.crcErrors))
  }

  lemma TelemetryAlike(c: Core, d: Core, env: Env, number: uint16)
    requires BlurCore(c) == BlurCore(d)
    ensures Alike(SendTelemetry(c, env, number), SendTelemetry(d, env, number))
  {
    assert Alike(Start(c), Start(d));
    hide Alike, BlurAll, Send, Report;
    SameView(Start(c), Start(d));
    SameReport(c, d, env);
    SendAlike(Start(c), Start(d), env, Direct, number, Report(c, env, true), Report(d, env, true));
    TelemetrySentAlike(Send(Start(c), env, Direct, number, Report(c, env, true)),
                       Send(Start(d), env, Direct, number, Report(d, env, true)), Now(env));
  }

  lemma TelemetrySentAlike(v: Work, w: Work, now: uint32)
    requires Alike(v, w)
    ensures Alike(v.(core := v.core.(lastTelemetryMs := now)), w.(core := w.core.(lastTelemetryMs := now)))
  {
    hide BlurAll;
  }

  /**
    Any step but an exact repeat does the same to alike actuators, if in an update the watchdog says the same of both.
   */
  lemma StepAlike(c: Core, d: Core, input: Input)
    requires BlurCore(c) == BlurCore(d) && !IsExactRepeat(c, input.action) && SameTimeout(c, d, input)
    ensures Alike(Step(c, input.env, input.action), Step(d, input.env, input.action))
  {
    var env := input.env;
    match input.action
    case Handle(r) =>
      hide HandlePacket, Alike, BlurCore;
      if IsRepeat(c, r) {
        MismatchAlike(c, d, env, r);
      } else {
        FreshAlike(c, d, env, r);
      }
    case Tick(writer) =>
      hide Update, Alike, BlurCore, TimedOut;
      UpdateAlike(c, d, env, if writer then Direct else NoWriter);
    case FrameFailed(error) =>
      hide RecordFrameError, Alike, BlurCore;
      FrameErrorAlike(c, d, env, error);
    case Telemetry(number) =>
      hide SendTelemetry, Alike, BlurCore;
      TelemetryAlike(c, d, env, number);
    case Restart =>
      hide Begin;
      assert c.settings == d.settings;
  }

  lemma AlikeSteps(v: Work, w: Work)
    requires Alike(v, w)
    ensures BlurCore(v.core) == BlurCore(w.core) && v.calls == w.calls
  {}

  // ----- Runs -----

  /** The run without its exact repeats. */
  function Thin(c: Core, inputs: seq<Input>): seq<Input>
    decreases |inputs|
  {
    if inputs == [] then []
    else
      var init, last := inputs[..|inputs| - 1], inputs[|inputs| - 1];
      Thin(c, init) + if IsExactRepeat(Run(c, init), last.action) then [] else [last]
  }

  /** At every update of the run the watchdog says what it says in the run without the repeats. */
  ghost predicate SameTimeouts(c: Core, inputs: seq<Input>) {
    forall i :: 0 <= i < |inputs| ==> SameTimeout(Run(c, inputs[..i]), Run(c, Thin(c, inputs[..i])), inputs[i])
  }

  lemma RunLast(c: Core, inputs: seq<Input>, last: Input)
    ensures Run(c, inputs + [last]) == Step(Run(c, inputs), last.env, last.action).core
    ensures Calls(c, inputs + [last]) == Calls(c, inputs) + Step(Run(c, inputs), last.env, last.action).calls
  {
    hide Step;
    assert (inputs + [last])[..|inputs|] == inputs;
  }

  lemma SameTimeoutsBefore(c: Core, inputs: seq<Input>, n: nat)
    requires SameTimeouts(c, inputs) && n <= |inputs|
    ensures SameTimeouts(c, inputs[..n])
  {
    hide Run, SameTimeout;
    assert forall i :: 0 <= i < n ==> inputs[..n][..i] == inputs[..i];
  }

  /**
    Exactly once: leaving out the exact repeats from any run, of packets, updates, frame errors, telemetry and restarts
    in any order, leaves every backend call as it was, and the actuator alike but for link counters and the host timer,
    if the watchdog says the same at every update.
   */
  lemma {:induction false} ExactlyOnce(c: Core, inputs: seq<Input>)
    requires SameTimeouts(c, inputs)
    ensures Calls(c, inputs) == Calls(c, Thin(c, inputs))
    ensures BlurCore(Run(c, inputs)) == BlurCore(Run(c, Thin(c, inputs)))
    decreases |inputs|
  {
    hide Step, BlurCore, IsExactRepeat, SameTimeout, SameTimeouts;
    if inputs != [] {
      var n := |inputs| - 1;
      var init, last := inputs[..n], inputs[n];
      SameTimeoutsBefore(c, inputs, n);
      ExactlyOnce(c, init);
      var d, e := Run(c, init), Run(c, Thin(c, init));
      if IsExactRepeat(d, last.action) {
        RepeatStep(d, last);
        assert Thin(c, init) + [] == Thin(c, init);
        assert Calls(c, init) + [] == Calls(c, init);
      } else {
        LastSameTimeout(c, inputs);
        StepAlike(d, e, last);
        AlikeSteps(Step(d, last.env, last.action), Step(e, last.env, last.action));
        RunLast(c, Thin(c, init), last);
      }
    }
  }

  lemma LastSameTimeout(c: Core, inputs: seq<Input>)
    requires inputs != [] && SameTimeouts(c, inputs)
    ensures
      var init := inputs[..|inputs| - 1];
      SameTimeout(Run(c, init), Run(c, Thin(c, init)), inputs[|inputs| - 1])
  {
    hide Run, SameTimeout;
  }

  lemma RepeatStep(c: Core, input: Input)
    requires IsExactRepeat(c, input.action)
    ensures
      var w := Step(c, input.env, input.action);
      w.calls == [] && BlurCore(w.core) == BlurCore(c) && w.core.cache == c.cache
  {
    hide HandlePacket, BlurCore;
    RepeatReplays(c, input.env, input.action.request);
  }

  /** The two runs are alike after every step. */
  ghost predicate AlwaysAlike(c: Core, inputs: seq<Input>) {
    forall i :: 0 <= i <= |inputs| ==> AlikeAfter(c, inputs, i)
  }

  ghost predicate AlikeAfter(c: Core, inputs: seq<Input>, i: nat)
    requires i <= |inputs|
  {
    BlurCore(Run(c, inputs[..i])) == BlurCore(Run(c, Thin(c, inputs[..i])))
  }

  /** The condition is exact: the two runs stay alike if and only if the watchdog never tells them apart. */
  lemma AlikeExactly(c: Core, inputs: seq<Input>)
    ensures AlwaysAlike(c, inputs) <==> SameTimeouts(c, inputs)
  {
    hide Run, Thin, SameTimeout, BlurCore;
    if SameTimeouts(c, inputs) {
      forall i | 0 <= i <= |inputs| ensures AlikeAfter(c, inputs, i) {
        SameTimeoutsBefore(c, inputs, i);
        hide SameTimeouts;
        ExactlyOnce(c, inputs[..i]);
      }
    }
    if AlwaysAlike(c, inputs) {
      forall i | 0 <= i < |inputs|
        ensures SameTimeout(Run(c, inputs[..i]), Run(c, Thin(c, inputs[..i])), inputs[i])
      {
        assert AlikeAfter(c, inputs, i) && AlikeAfter(c, inputs, i + 1);
        hide AlwaysAlike;
        TimeoutsTell(c, inputs, i);
      }
    }
  }

  lemma TimeoutsTell(c: Core, inputs: seq<Input>, i: nat)
    requires i < |inputs| && AlikeAfter(c, inputs, i) && AlikeAfter(c, inputs, i + 1)
    ensures SameTimeout(Run(c, inputs[..i]), Run(c, Thin(c, inputs[..i])), inputs[i])
  {
    hide Run, BlurCore, TimedOut, Step;
    var init, last := inputs[..i], inputs[i];
    assert inputs[..i + 1] == init + [last];
    RunLast(c, init, last);
    if last.action.Tick? {
      assert inputs[..i + 1][..i] == init;
      assert Thin(c, inputs[..i + 1]) == Thin(c, init) + [last];
      RunLast(c, Thin(c, init), last);
      TickTells(Run(c, init), Run(c, Thin(c, init)), last.env, last.action.writer);
    }
  }

  lemma TickTells(c: Core, d: Core, env: Env, writer: bool)
    requires BlurCore(c) == BlurCore(d)
    requires BlurCore(Step(c, env, Tick(writer)).core) == BlurCore(Step(d, env, Tick(writer)).core)
    ensures TimedOut(c, Now(env)) <==> TimedOut(d, Now(env))
  {
    hide Update, BlurAll;
    var via := if writer then Direct else NoWriter;
    if c.drive.state == RunningVelocity {
      UpdateKeepsRun(c, env, via);
      UpdateKeepsRun(d, env, via);
    }
  }

  // ----- The condition by the clock -----

  /** What the clock showed when a packet was last handled, or the actuator began. */
  function HostClock(c: Core, inputs: seq<Input>): uint32
    decreases |inputs|
  {
    if inputs == [] then c.lastHostMs
    else
      var last := inputs[|inputs| - 1];
      if last.action.Handle? || last.action.Restart? then Now(last.env) else HostClock(c, inputs[..|inputs| - 1])
  }

  /** What it showed when a packet was last handled that is no exact repeat. */
  function FreshClock(c: Core, inputs: seq<Input>): uint32
    decreases |inputs|
  {
    if inputs == [] then c.lastHostMs
    else
      var init, last := inputs[..|inputs| - 1], inputs[|inputs| - 1];
      if (last.action.Handle? || last.action.Restart?) && !IsExactRepeat(Run(c, init), last.action) then Now(last.env)
      else FreshClock(c, init)
  }

  lemma StepSetsTimer(c: Core, env: Env, a: Action)
    ensures Step(c, env, a).core.lastHostMs == if a.Handle? || a.Restart? then Now(env) else c.lastHostMs
  {
    hide IsValid, Send, SendAll, RejectVia, Dispatch, Report, SetFault, Notify, TransitionTo, AnnounceBoot,
         FinishMotion;
  }

  lemma {:induction false} TimerIsHostClock(c: Core, inputs: seq<Input>)
    ensures Run(c, inputs).lastHostMs == HostClock(c, inputs)
    decreases |inputs|
  {
    hide Step;
    if inputs != [] {
      var init, last := inputs[..|inputs| - 1], inputs[|inputs| - 1];
      TimerIsHostClock(c, init);
      StepSetsTimer(Run(c, init), last.env, last.action);
    }
  }

  lemma {:induction false} ThinTimerIsFreshClock(c: Core, inputs: seq<Input>)
    ensures Run(c, Thin(c, inputs)).lastHostMs == FreshClock(c, inputs)
    decreases |inputs|
  {
    hide Step, IsExactRepeat;
    if inputs != [] {
      var init, last := inputs[..|inputs| - 1], inputs[|inputs| - 1];
      ThinTimerIsFreshClock(c, init);
      if IsExactRepeat(Run(c, init), last.action) {
        assert Thin(c, init) + [] == Thin(c, init);
      } else {
        RunLast(c, Thin(c, init), last);
        StepSetsTimer(Run(c, Thin(c, init)), last.env, last.action);
      }
    }
  }

  /** At an update in a velocity run, the timeout has passed since the last packet as since the last fresh one. */
  predicate SameByClock(c: Core, inputs: seq<Input>, i: nat)
    requires i < |inputs|
  {
    var before, now := Run(c, inputs[..i]), Now(inputs[i].env);
    var timeout := before.settings.active.safety.hostTimeoutMs;
    inputs[i].action.Tick? && before.drive.state == RunningVelocity && timeout > 0 ==>
      (Sub32(now, HostClock(c, inputs[..i])) > timeout <==> Sub32(now, FreshClock(c, inputs[..i])) > timeout)
  }

  ghost predicate AllSameByClock(c: Core, inputs: seq<Input>) {
    forall i :: 0 <= i < |inputs| ==> SameByClock(c, inputs, i)
  }

  lemma VerdictByClock(c: Core, inputs: seq<Input>, i: nat)
    requires i < |inputs| && BlurCore(Run(c, inputs[..i])) == BlurCore(Run(c, Thin(c, inputs[..i])))
    ensures SameTimeout(Run(c, inputs[..i]), Run(c, Thin(c, inputs[..i])), inputs[i]) <==> SameByClock(c, inputs, i)
  {
    TimerIsHostClock(c, inputs[..i]);
    ThinTimerIsFreshClock(c, inputs[..i]);
    hide Run, Thin, HostClock, FreshClock, BlurAll, Sub32;
  }

  lemma ClockPrefixes(c: Core, inputs: seq<Input>)
    requires inputs != []
    ensures
      var n := |inputs| - 1;
      && (SameTimeouts(c, inputs) <==>
            && SameTimeouts(c, inputs[..n])
            && SameTimeout(Run(c, inputs[..n]), Run(c, Thin(c, inputs[..n])), inputs[n]))
      && (AllSameByClock(c, inputs) <==> AllSameByClock(c, inputs[..n]) && SameByClock(c, inputs, n))
  {
    hide Run, Thin, HostClock, FreshClock, SameTimeout;
    var n := |inputs| - 1;
    assert forall i :: 0 <= i < n ==> inputs[..n][..i] == inputs[..i];
    assert forall i :: 0 <= i < n ==> (SameByClock(c, inputs[..n], i) <==> SameByClock(c, inputs, i));
  }

  /**
    The condition in terms of the run alone: at every update in a velocity run, the timeout has passed since the last
    packet exactly if it has passed since the last one that is no exact repeat.
   */
  lemma {:induction false} TimeoutsByClock(c: Core, inputs: seq<Input>)
    ensures SameTimeouts(c, inputs) <==> AllSameByClock(c, inputs)
    decreases |inputs|
  {
    hide Run, Thin, BlurCore, SameTimeout, SameTimeouts, SameByClock, AllSameByClock;
    if inputs == [] {
      NothingToCompare(c);
    } else {
      var n := |inputs| - 1;
      TimeoutsByClock(c, inputs[..n]);
      ClockPrefixes(c, inputs);
      if SameTimeouts(c, inputs[..n]) {
        ExactlyOnce(c, inputs[..n]);
        VerdictByClock(c, inputs, n);
      }
    }
  }

  lemma NothingToCompare(c: Core)
    ensures SameTimeouts(c, []) && AllSameByClock(c, [])
  {}

  /**
    And it is needed: a repeat puts off the timeout of the run it started. Repeated when the timeout has just been
    reached, the packet keeps an update one millisecond later from stopping the run.
   */
  lemma RepeatPutsOffTimeout(c: Core, again: Env, later: Env, r: Packet)
    requires c.drive.state == RunningVelocity && c.cache.request == Some(r)
    requires 0 < c.settings.active.safety.hostTimeoutMs <= 60000
    requires Now(again) == Add32(c.lastHostMs, c.settings.active.safety.hostTimeoutMs)
    requires Now(later) == Add32(Now(again), 1)
    ensures
      var inputs := [Input(again, Handle(r)), Input(later, Tick(true))];
      && Thin(c, inputs) == [Input(later, Tick(true))]
      && Run(c, inputs).drive.state == RunningVelocity
      && Run(c, Thin(c, inputs)).drive.state != RunningVelocity
      && !SameTimeouts(c, inputs)
  {
    var repeat, tick := Input(again, Handle(r)), Input(later, Tick(true));
    var inputs := [repeat, tick];
    hide Step, TimedOut;
    PutOff(c, again, later, r);
    assert inputs[..1] == [repeat] && inputs[..0] == [] && [repeat][..0] == [] && [tick][..0] == [];
    assert Run(c, [repeat]) == Step(c, again, Handle(r)).core && Thin(c, [repeat]) == [];
    assert Thin(c, inputs) == [tick];
    assert !SameTimeout(Run(c, inputs[..1]), Run(c, Thin(c, inputs[..1])), inputs[1]);
  }

  lemma PutOff(c: Core, again: Env, later: Env, r: Packet)
    requires c.drive.state == RunningVelocity && c.cache.request == Some(r)
    requires 0 < c.settings.active.safety.hostTimeoutMs <= 60000
    requires Now(again) == Add32(c.lastHostMs, c.settings.active.safety.hostTimeoutMs)
    requires Now(later) == Add32(Now(again), 1)
    ensures
      var c1 := Step(c, again, Handle(r)).core;
      && TimedOut(c, Now(later)) && !TimedOut(c1, Now(later))
      && Step(c1, later, Tick(true)).core.drive.state == RunningVelocity
      && Step(c, later, Tick(true)).core.drive.state != RunningVelocity
      && c1.cache == c.cache
  {
    var c1 := HandlePacket(c, again, r).core;
    RepeatIsSeen(c, again, r);
    hide HandlePacket, Update;
    LaterByOne(c.lastHostMs, c.settings.active.safety.hostTimeoutMs);
    UpdateKeepsRun(c, later, Direct);
    UpdateKeepsRun(c1, later, Direct);
  }

  lemma RepeatIsSeen(c: Core, env: Env, r: Packet)
    requires c.cache.request == Some(r)
    ensures
      var c' := HandlePacket(c, env, r).core;
      c'.lastHostMs == Now(env) && c'.drive == c.drive && c'.settings == c.settings && c'.cache == c.cache
  {
    hide Send;
  }

  lemma LaterByOne(start: uint32, timeout: uint32)
    requires 0 < timeout <= 60000
    ensures
      var now := Add32(start, timeout);
      Sub32(Add32(now, 1), start) == timeout + 1 && Sub32(Add32(now, 1), now) == 1
  {}
}
