/** The velocity watchdog over real time, across any number of wraps of the 32-bit millisecond clock. */
module ActuatorWatchdog {
  import opened Bytes
  import opened Config
  import opened Protocol
  import opened ActuatorTypes
  import opened ActuatorSteps
  import opened ActuatorInvariant

  const WRAP := 0x1_0000_0000

  /** One step and the real time, in milliseconds, at which it happens. */
  datatype Timed = Timed(env: Env, action: Action, at: nat)

  function Clock(t: nat): Answer<uint32> { Returned(t % WRAP) }

  function TimedRun(c: Core, steps: seq<Timed>): Core
    decreases |steps|
  {
    if steps == [] then c
    else
      var last := steps[|steps| - 1];
      Step(TimedRun(c, steps[..|steps| - 1]), last.env, last.action).core
  }

  /** When the last packet was handled, or the actuator began. */
  function LastHandled(start: nat, steps: seq<Timed>): nat
    decreases |steps|
  {
    if steps == [] then start
    else if steps[|steps| - 1].action.Handle? then steps[|steps| - 1].at
    else LastHandled(start, steps[..|steps| - 1])
  }

  /** When `update` last ran, or the actuator began. */
  function LastTick(start: nat, steps: seq<Timed>): nat
    decreases |steps|
  {
    if steps == [] then start
    else if steps[|steps| - 1].action.Tick? then steps[|steps| - 1].at
    else LastTick(start, steps[..|steps| - 1])
  }

  function LastStep(start: nat, steps: seq<Timed>): nat {
    if steps == [] then start else steps[|steps| - 1].at
  }

  /**
    Time does not run backwards, the clock shows it modulo 2^32, and no more than `period` passes without an update.
   */
  predicate Paced(start: nat, steps: seq<Timed>, period: nat)
    decreases |steps|
  {
    steps == [] ||
    (var init, last := steps[..|steps| - 1], steps[|steps| - 1];
     && Paced(start, init, period)
     && LastStep(start, init) <= last.at <= LastTick(start, init) + period
     && last.env.millis == Clock(last.at)
     && !last.action.Restart?)
  }

  /** What the watchdog relies on between steps. */
  predicate Watched(c: Core, handled: nat, ticked: nat) {
    && Invariant(c)
    && c.lastHostMs == handled % WRAP
    && (c.drive.state == RunningVelocity ==> ticked <= handled + c.settings.active.safety.hostTimeoutMs)
  }

  lemma TimeoutRange(c: Core)
    requires Invariant(c)
    ensures 100 <= c.settings.active.safety.hostTimeoutMs <= 60000
  {}

  lemma ElapsedAcrossWraps(now: nat, then_: nat)
    requires then_ <= now < then_ + WRAP
    ensures Sub32(now % WRAP, then_ % WRAP) == now - then_
  {
    var gap := now - then_;
    assert (now % WRAP - then_ % WRAP) % WRAP == gap;
  }

  /** At an update the comparison of 32-bit times decides exactly whether more than the timeout has really passed. */
  lemma TimeoutIsExact(c: Core, handled: nat, ticked: nat, now: nat, period: nat)
    requires Watched(c, handled, ticked) && c.drive.state == RunningVelocity
    requires handled <= now <= ticked + period && period + 60000 < WRAP
    ensures TimedOut(c, now % WRAP) <==> now - handled > c.settings.active.safety.hostTimeoutMs
  {
    TimeoutRange(c);
    hide Invariant;
    ElapsedAcrossWraps(now, handled);
  }

  /** An update starts no velocity run, and leaves one running only if it has not timed out. */
  lemma UpdateStops(c: Core, env: Env, via: Writer)
    ensures
      var c' := Update(c, env, via).core;
      && c'.settings == c.settings && c'.lastHostMs == c.lastHostMs
      && (c'.drive.state == RunningVelocity ==> c.drive.state == RunningVelocity && !TimedOut(c, Now(env)))
  {
    hide Notify, TransitionTo, SetFault, AnnounceBoot, FinishMotion;
  }

  lemma OtherStepsStop(c: Core, env: Env, a: Action)
    requires a.FrameFailed? || a.Telemetry?
    ensures
      var c' := Step(c, env, a).core;
      && c'.settings == c.settings && c'.lastHostMs == c.lastHostMs
      && (c'.drive.state == RunningVelocity ==> c.drive.state == RunningVelocity)
  {
    hide Send, SetFault;
  }

  lemma HandleRestartsClock(c: Core, env: Env, r: Packet)
    ensures HandlePacket(c, env, r).core.lastHostMs == Now(env)
  {
    hide Send, RejectVia, Dispatch;
  }

  lemma {:induction false} StaysWatched(c: Core, start: nat, steps: seq<Timed>, period: nat)
    requires Watched(c, start, start) && Paced(start, steps, period) && period + 60000 < WRAP
    ensures Watched(TimedRun(c, steps), LastHandled(start, steps), LastTick(start, steps))
    ensures LastHandled(start, steps) <= LastStep(start, steps) && LastTick(start, steps) <= LastStep(start, steps)
    decreases |steps|
  {
    hide Invariant, Step;
    if steps != [] {
      var init, last := steps[..|steps| - 1], steps[|steps| - 1];
      StaysWatched(c, start, init, period);
      WatchedStep(TimedRun(c, init), LastHandled(start, init), LastTick(start, init), last, period);
    }
  }

  lemma WatchedStep(c: Core, handled: nat, ticked: nat, s: Timed, period: nat)
    requires Watched(c, handled, ticked) && period + 60000 < WRAP
    requires handled <= s.at && ticked <= s.at <= ticked + period
    requires s.env.millis == Clock(s.at) && !s.action.Restart?
    ensures Watched(Step(c, s.env, s.action).core,
                    if s.action.Handle? then s.at else handled,
                    if s.action.Tick? then s.at else ticked)
  {
    StepKeepsInvariant(c, s.env, s.action);
    hide Invariant, Update, HandlePacket, RecordFrameError, SendTelemetry, Begin;
    match s.action
    case Handle(r) =>
      HandleRestartsClock(c, s.env, r);
    case Tick(writer) =>
      UpdateStops(c, s.env, if writer then Direct else NoWriter);
      if c.drive.state == RunningVelocity {
        TimeoutIsExact(c, handled, ticked, s.at, period);
      }
    case FrameFailed(_) => OtherStepsStop(c, s.env, s.action);
    case Telemetry(_) => OtherStepsStop(c, s.env, s.action);
  }

  /**
    If `update` runs at least every `period` real milliseconds, then at no time is a velocity run in progress more than
    the host timeout plus `period` after the last packet.
   */
  lemma WatchdogBound(defaults: ActuatorConfig, boot: Env, start: nat, steps: seq<Timed>, period: nat, now: nat)
    requires IsValid(defaults) && boot.millis == Clock(start)
    requires Paced(start, steps, period) && period + 60000 < WRAP
    requires LastStep(start, steps) <= now <= LastTick(start, steps) + period
    ensures
      var c := TimedRun(Begin(defaults, boot).core, steps);
      c.drive.state == RunningVelocity ==>
        now - LastHandled(start, steps) <= c.settings.active.safety.hostTimeoutMs + period
  {
    BeginEstablishes(defaults, boot);
    BeginStartsClock(defaults, boot);
    hide Invariant, Begin, TimedRun;
    StaysWatched(Begin(defaults, boot).core, start, steps, period);
  }

  lemma BeginStartsClock(defaults: ActuatorConfig, env: Env)
    ensures Begin(defaults, env).core.lastHostMs == Now(env) && Begin(defaults, env).core.drive.state != RunningVelocity
  {
    hide Send, Notify, TransitionTo, SetFault, IsValid;
  }

  // ----- Telemetry -----

  /** When telemetry was last sent, or the actuator began. */
  function LastReport(start: nat, steps: seq<Timed>): nat
    decreases |steps|
  {
    if steps == [] then start
    else if steps[|steps| - 1].action.Telemetry? then steps[|steps| - 1].at
    else LastReport(start, steps[..|steps| - 1])
  }

  lemma ReportTime(c: Core, env: Env, a: Action)
    requires !a.Restart?
    ensures Step(c, env, a).core.lastTelemetryMs == if a.Telemetry? then Now(env) else c.lastTelemetryMs
  {
    hide Send, SendAll, RejectVia, Dispatch, Report, SetFault, Notify, TransitionTo, AnnounceBoot, FinishMotion;
  }

  lemma {:induction false} StaysReported(c: Core, start: nat, steps: seq<Timed>, period: nat)
    requires c.lastTelemetryMs == start % WRAP && Paced(start, steps, period)
    ensures TimedRun(c, steps).lastTelemetryMs == LastReport(start, steps) % WRAP
    ensures LastReport(start, steps) <= LastStep(start, steps)
    decreases |steps|
  {
    hide Step;
    if steps != [] {
      var init, last := steps[..|steps| - 1], steps[|steps| - 1];
      StaysReported(c, start, init, period);
      ReportTime(TimedRun(c, init), last.env, last.action);
    }
  }

  /**
    Telemetry is due exactly when it is switched on and its interval has passed since it was last sent, in real time
    modulo 2^32 ms.
   */
  lemma TelemetryIsDueExactly(defaults: ActuatorConfig, boot: Env, start: nat, steps: seq<Timed>, period: nat, now: nat)
    requires boot.millis == Clock(start) && Paced(start, steps, period)
    requires LastStep(start, steps) <= now
    ensures
      var c := TimedRun(Begin(defaults, boot).core, steps);
      var telemetry := c.settings.active.telemetry;
      TelemetryDue(c, now % WRAP) <==>
        && telemetry.binaryStreamEnabled && telemetry.intervalMs != 0
        && (now - LastReport(start, steps)) % WRAP >= telemetry.intervalMs
  {
    BeginStartsTelemetry(defaults, boot);
    hide Begin, TimedRun;
    StaysReported(Begin(defaults, boot).core, start, steps, period);
    ElapsedModulo(now, LastReport(start, steps));
  }

  lemma ElapsedModulo(now: nat, then_: nat)
    requires then_ <= now
    ensures Sub32(now % WRAP, then_ % WRAP) == (now - then_) % WRAP
  {
    var rest := now - then_;
    assert (now % WRAP - then_ % WRAP) % WRAP == rest % WRAP;
  }

  lemma BeginStartsTelemetry(defaults: ActuatorConfig, env: Env)
    ensures Begin(defaults, env).core.lastTelemetryMs == Now(env)
  {
    hide Send, Notify, TransitionTo, SetFault, IsValid;
  }
}
