/** Whole runs of the actuator: any packets, any backend answers, any restarts. */
module ActuatorRuns {
  import opened Config
  import opened Protocol
  import opened ActuatorTypes
  import opened ActuatorSteps
  import opened ActuatorInvariant
  import opened ActuatorSafety
  import opened ActuatorTrace

  /** From valid defaults, the invariant holds after any run, whatever was stored. */
  lemma {:induction false} RunKeepsInvariant(c: Core, inputs: seq<Input>)
    requires Invariant(c)
    ensures Invariant(Run(c, inputs))
    decreases |inputs|
  {
    hide Invariant, Step;
    if inputs != [] {
      var init, last := inputs[..|inputs| - 1], inputs[|inputs| - 1];
      RunKeepsInvariant(c, init);
      StepKeepsInvariant(Run(c, init), last.env, last.action);
    }
  }

  lemma BootedRunKeepsInvariant(defaults: ActuatorConfig, env: Env, inputs: seq<Input>)
    requires IsValid(defaults)
    ensures Invariant(Run(Begin(defaults, env).core, inputs))
  {
    hide Invariant, Begin, IsValid;
    BeginEstablishes(defaults, env);
    RunKeepsInvariant(Begin(defaults, env).core, inputs);
  }

  /** Every motion call of a run is within bounds for the actuator as it was when the call was made. */
  lemma MotionAlwaysBounded(c: Core, inputs: seq<Input>, i: nat)
    requires i < |inputs|
    ensures
      var before := Run(c, inputs[..i]);
      AllInBounds(before, inputs[i].env, Step(before, inputs[i].env, inputs[i].action).calls)
  {
    hide AllInBounds, Step;
    StepPermitted(Run(c, inputs[..i]), inputs[i].env, inputs[i].action);
  }

  /** No step of the run turns the driver on: a mode request that is refused or only repeated does not. */
  ghost predicate NeverTurnsOn(c: Core, inputs: seq<Input>) {
    forall i :: 0 <= i < |inputs| ==> !TurnsOn(Run(c, inputs[..i]), inputs[i].env, inputs[i].action)
  }

  ghost predicate StaysDisabled(c: Core, inputs: seq<Input>) {
    forall i :: 0 <= i <= |inputs| ==> DisabledAfter(c, inputs, i)
  }

  predicate DisabledAfter(c: Core, inputs: seq<Input>, i: nat)
    requires i <= |inputs|
  {
    !Run(c, inputs[..i]).drive.enabled
  }

  lemma LockoutPrefixes(c: Core, inputs: seq<Input>)
    ensures inputs == [] ==> NeverTurnsOn(c, inputs) && (StaysDisabled(c, inputs) <==> !c.drive.enabled)
    ensures inputs != [] ==>
      var init, last := inputs[..|inputs| - 1], inputs[|inputs| - 1];
      && (NeverTurnsOn(c, inputs) <==> NeverTurnsOn(c, init) && !TurnsOn(Run(c, init), last.env, last.action))
      && (StaysDisabled(c, inputs) <==> StaysDisabled(c, init) && !Run(c, inputs).drive.enabled)
  {
    hide Step, TurnsOn;
    assert inputs[..|inputs|] == inputs;
    if inputs == [] {
      assert DisabledAfter(c, inputs, 0) <==> !c.drive.enabled;
    } else {
      var init := inputs[..|inputs| - 1];
      assert forall i :: 0 <= i < |inputs| ==> init[..i] == inputs[..i];
      assert forall i :: 0 <= i < |inputs| ==> (DisabledAfter(c, init, i) <==> DisabledAfter(c, inputs, i));
      assert DisabledAfter(c, inputs, |inputs|) <==> !Run(c, inputs).drive.enabled;
    }
  }

  /**
    A disabled driver stays disabled exactly as long as no packet is handled that sets a mode that moves, with both
    driver calls succeeding; and until then no motion call is made.
   */
  lemma {:induction false} DisabledIsLockedOut(c: Core, inputs: seq<Input>)
    requires !c.drive.enabled
    ensures StaysDisabled(c, inputs) <==> NeverTurnsOn(c, inputs)
    ensures NeverTurnsOn(c, inputs) ==> !Run(c, inputs).drive.enabled && NoMotion(Calls(c, inputs))
    decreases |inputs|
  {
    hide Step, TurnsOn, NeverTurnsOn, StaysDisabled;
    LockoutPrefixes(c, inputs);
    if inputs != [] {
      var init, last := inputs[..|inputs| - 1], inputs[|inputs| - 1];
      DisabledIsLockedOut(c, init);
      StepPermitted(Run(c, init), last.env, last.action);
      if NeverTurnsOn(c, init) {
        DisabledCallsAreStill(Run(c, init), last);
      }
    }
  }

  lemma DisabledCallsAreStill(c: Core, input: Input)
    requires !c.drive.enabled
    ensures NoMotion(Step(c, input.env, input.action).calls)
  {
    hide Step;
    StepPermitted(c, input.env, input.action);
  }

  /** After a handled ESTOP nothing moves until the host turns the driver on again. */
  lemma StopLockout(c: Core, env: Env, r: Packet, inputs: seq<Input>)
    requires r.msgId == ESTOP && r.payload == [] && !IsRepeat(c, r)
    ensures
      var stopped := HandlePacket(c, env, r).core;
      && (StaysDisabled(stopped, inputs) <==> NeverTurnsOn(stopped, inputs))
      && (NeverTurnsOn(stopped, inputs) ==> NoMotion(Calls(stopped, inputs)))
  {
    hide HandlePacket, NeverTurnsOn, StaysDisabled, Calls;
    EmergencyStopDisables(c, env, r);
    DisabledIsLockedOut(HandlePacket(c, env, r).core, inputs);
  }

  /** Nor does it after a velocity timeout whose action is to disable. */
  lemma TimeoutLockout(c: Core, env: Env, via: Writer, inputs: seq<Input>)
    requires TimedOut(c, Now(env)) && c.settings.active.safety.timeoutAction == ACTION_DISABLE
    ensures
      var stopped := Update(c, env, via).core;
      && (StaysDisabled(stopped, inputs) <==> NeverTurnsOn(stopped, inputs))
      && (NeverTurnsOn(stopped, inputs) ==> NoMotion(Calls(stopped, inputs)))
  {
    hide Update, NeverTurnsOn, StaysDisabled, Calls;
    TimeoutDisables(c, env, via);
    DisabledIsLockedOut(Update(c, env, via).core, inputs);
  }

  /**
    In particular, the mode request that follows a stop straight away, as long as the actuator is faulted, turns nothing
    on, whatever the driver would answer.
   */
  lemma FaultedRefusesMode(c: Core, env: Env, a: Action)
    requires c.drive.state == Faulted && !c.drive.enabled
    ensures !TurnsOn(c, env, a) && !Step(c, env, a).core.drive.enabled
  {
    hide Step;
    StepPermitted(c, env, a);
  }

  /** A packet that takes a faulted actuator out of the faulted state. */
  predicate LeavingStep(c: Core, input: Input) {
    || input.action.Restart?
    || (input.action.Handle? && !IsRepeat(c, input.action.request) && LeavesFaulted(c, input.env, input.action.request))
  }

  /** A faulted actuator stays faulted for as long as none of the listed packets arrives and it is not restarted. */
  lemma {:induction false} FaultedPersists(c: Core, inputs: seq<Input>)
    requires c.drive.state == Faulted
    requires forall i :: 0 <= i < |inputs| ==> !LeavingStep(Run(c, inputs[..i]), inputs[i])
    ensures Run(c, inputs).drive.state == Faulted
    decreases |inputs|
  {
    hide Step, LeavesFaulted;
    if inputs != [] {
      var init, last := inputs[..|inputs| - 1], inputs[|inputs| - 1];
      forall i | 0 <= i < |init| ensures !LeavingStep(Run(c, init[..i]), init[i]) {
        assert init[..i] == inputs[..i];
      }
      FaultedPersists(c, init);
      StepPermitted(Run(c, init), last.env, last.action);
    }
  }
}
