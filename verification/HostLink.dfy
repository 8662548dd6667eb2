/** Host and actuator together: from the bytes a client writes to backend calls. */
module HostLink {
  import opened Bytes
  import opened Config
  import opened Protocol
  import Framing
  import opened HostClient
  import opened ActuatorTypes
  import opened ActuatorSteps
  import opened ActuatorTrace
  import opened ActuatorReplay
  import opened ActuatorOnce
  import opened ActuatorAnswers
  import opened MainLoop

  // ----- One client's requests -----

  /** Packets without the immediate repeats of each. */
  function Once(packets: seq<Packet>): seq<Packet>
    decreases |packets|
  {
    if packets == [] then []
    else
      var init, last := packets[..|packets| - 1], packets[|packets| - 1];
      Once(init) + if init != [] && init[|init| - 1] == last then [] else [last]
  }

  /** The packets are requests of one client in order, from its `first` on, each sent any number of times in a row. */
  ghost predicate FromOneClient(packets: seq<Packet>, first: nat) {
    forall i :: 0 <= i < |Once(packets)| ==> Once(packets)[i].number == NthNumber(first + i)
  }

  lemma {:induction false} OnceEnds(packets: seq<Packet>)
    requires packets != []
    ensures Once(packets) != [] && Once(packets)[|Once(packets)| - 1] == packets[|packets| - 1]
    decreases |packets|
  {
    var init := packets[..|packets| - 1];
    if init != [] && init[|init| - 1] == packets[|packets| - 1] {
      OnceEnds(init);
    }
  }

  lemma NextDiffers(k: nat)
    ensures NthNumber(k) != NthNumber(k + 1)
  {
    NumbersRepeat(k, k + 1);
  }

  lemma FewerFromOneClient(packets: seq<Packet>, first: nat)
    requires packets != [] && FromOneClient(packets, first)
    ensures FromOneClient(packets[..|packets| - 1], first)
  {
    hide NthNumber;
    var init := packets[..|packets| - 1];
    assert forall i :: 0 <= i < |Once(init)| ==> Once(init)[i] == Once(packets)[i];
  }

  /** A request that differs from the one before it differs from it in its number. */
  lemma NewRequestDiffers(packets: seq<Packet>, first: nat)
    requires |packets| >= 2 && FromOneClient(packets, first)
    ensures
      var last, previous := packets[|packets| - 1], packets[|packets| - 2];
      last != previous ==> last.number != previous.number
  {
    hide NthNumber;
    var init := packets[..|packets| - 1];
    OnceEnds(init);
    if packets[|packets| - 1] != packets[|packets| - 2] {
      var n := |Once(init)|;
      assert Once(packets) == Once(init) + [packets[|packets| - 1]];
      assert Once(packets)[n - 1] == packets[|packets| - 2] && Once(packets)[n] == packets[|packets| - 1];
      NextDiffers(first + n - 1);
    }
  }

  // ----- What is handled afresh -----

  /** The packets handled in a run, in order. */
  function Handled(inputs: seq<Input>): seq<Packet>
    decreases |inputs|
  {
    if inputs == [] then []
    else
      var last := inputs[|inputs| - 1];
      Handled(inputs[..|inputs| - 1]) + if last.action.Handle? then [last.action.request] else []
  }

  function Latest(packets: seq<Packet>): Option<Packet> {
    if packets == [] then None else Some(packets[|packets| - 1])
  }

  lemma OtherStepsKeepCache(c: Core, env: Env, a: Action)
    requires !a.Handle? && !a.Restart?
    ensures Step(c, env, a).core.cache == c.cache
  {
    hide Send, Report, SetFault, Notify, TransitionTo, AnnounceBoot, FinishMotion;
  }

  lemma HandledIsCached(c: Core, env: Env, r: Packet)
    requires !IsRepeat(c, r) || c.cache.request == Some(r)
    ensures HandlePacket(c, env, r).core.cache.request == Some(r)
  {
    if IsRepeat(c, r) {
      RepeatReplays(c, env, r);
    }
    hide Dispatch, SendAll;
  }

  ghost predicate NeverRestarts(inputs: seq<Input>) {
    forall i :: 0 <= i < |inputs| ==> !inputs[i].action.Restart?
  }

  /** In a run of one client's requests, what is left without the exact repeats handles each request once, in order. */
  lemma {:induction false} FreshOnce(c: Core, inputs: seq<Input>, first: nat)
    requires c.cache.request == None && NeverRestarts(inputs) && FromOneClient(Handled(inputs), first)
    ensures Handled(Thin(c, inputs)) == Once(Handled(inputs))
    ensures Run(c, inputs).cache.request == Latest(Handled(inputs))
    decreases |inputs|
  {
    hide Step, FromOneClient, IsExactRepeat, NthNumber;
    if inputs != [] {
      var init, last := inputs[..|inputs| - 1], inputs[|inputs| - 1];
      if last.action.Handle? {
        var handled := Handled(inputs);
        assert handled[..|handled| - 1] == Handled(init);
        FewerFromOneClient(handled, first);
        FreshOnce(c, init, first);
        if Handled(init) != [] {
          NewRequestDiffers(handled, first);
        }
        LastHandled(Run(c, init), last);
        assert Thin(c, init) + [] == Thin(c, init);
        assert (Thin(c, init) + [last])[..|Thin(c, init)|] == Thin(c, init);
      } else {
        assert Handled(init) + [] == Handled(init);
        FreshOnce(c, init, first);
        OtherStepsKeepCache(Run(c, init), last.env, last.action);
        NotARepeat(Run(c, init), last.action);
        assert (Thin(c, init) + [last])[..|Thin(c, init)|] == Thin(c, init);
        assert Handled(Thin(c, init)) + [] == Handled(Thin(c, init));
      }
    }
  }

  lemma NotARepeat(c: Core, a: Action)
    requires !a.Handle?
    ensures !IsExactRepeat(c, a)
  {}

  lemma LastHandled(c: Core, input: Input)
    requires input.action.Handle?
    requires
      var r := input.action.request;
      c.cache.request == None || c.cache.request == Some(r) || c.cache.request.value.number != r.number
    ensures IsExactRepeat(c, input.action) <==> c.cache.request == Some(input.action.request)
    ensures Step(c, input.env, input.action).core.cache.request == Some(input.action.request)
  {
    hide HandlePacket;
    HandledIsCached(c, input.env, input.action.request);
  }

  lemma BootForgets(defaults: ActuatorConfig, boot: Env)
    ensures Begin(defaults, boot).core.cache == Cache(None, [])
  {
    hide IsValid, Send, Notify, TransitionTo, SetFault;
  }

  // ----- From bytes to calls -----

  lemma {:induction false} ArrivalsAreHandled(inputs: seq<Input>, packets: seq<Packet>)
    requires Arrivals(inputs) == Framing.Accepts(packets)
    ensures Handled(inputs) == packets
    decreases |inputs|
  {
    if inputs == [] {
      assert packets == [];
    } else {
      var init, last := inputs[..|inputs| - 1], inputs[|inputs| - 1];
      if last.action.Handle? || last.action.FrameFailed? {
        assert packets != [] by { assert |Framing.Accepts(packets)| == |packets|; }
        var n := |packets| - 1;
        assert Arrivals(inputs)[n] == Accepted(packets[n]);
        assert Arrivals(init) == Arrivals(inputs)[..n] == Framing.Accepts(packets[..n]);
        ArrivalsAreHandled(init, packets[..n]);
        assert packets == packets[..n] + [packets[n]];
      } else {
        assert Arrivals(init) + [] == Arrivals(init);
        ArrivalsAreHandled(init, packets);
        assert packets + [] == packets;
      }
    }
  }

  /**
    From bytes to calls: the frames of one client's requests, each written any number of times in a row and spread in
    any way over the turns of the main loop of a freshly booted actuator, are handled, each once and in order, as the
    requests they are. The repeats change no backend call, and leave the actuator alike but for link counters and the
    host timer, if the watchdog says the same at every update.
   */
  lemma LinkExecutesOnce(defaults: ActuatorConfig, boot: Env, turns: seq<Turn>, packets: seq<Packet>, first: nat)
    requires Framing.AllSendable(packets) && FromOneClient(packets, first)
    requires AllFit(turns) && Stream(turns) == Framing.Frames(packets)
    ensures
      var c := Begin(defaults, boot).core;
      var inputs := LoopInputs(c, turns);
      && Handled(inputs) == packets && Handled(Thin(c, inputs)) == Once(packets)
      && (SameTimeouts(c, inputs) ==>
            && Calls(c, inputs) == Calls(c, Thin(c, inputs))
            && BlurCore(Run(c, inputs)) == BlurCore(Run(c, Thin(c, inputs))))
  {
    hide *;
    var c := Begin(defaults, boot).core;
    var inputs := LoopInputs(c, turns);
    BootForgets(defaults, boot);
    TurnsDeliverStream(c, turns);
    Framing.FramesReceived(packets);
    ArrivalsAreHandled(inputs, packets);
    LoopIsOneBoot(c, turns);
    FreshOnce(c, inputs, first);
    if SameTimeouts(c, inputs) {
      ExactlyOnce(c, inputs);
    }
  }

  lemma LoopIsOneBoot(c: Core, turns: seq<Turn>)
    requires AllFit(turns)
    ensures NeverRestarts(LoopInputs(c, turns))
  {
    hide LoopInputs;
    LoopNeverRestarts(c, turns);
  }

  /** A run just started by a packet is a case where the watchdog does not say the same. */
  lemma RepeatedRunOutlastsTimeout(c: Core, env: Env, again: Env, later: Env, r: Packet)
    requires !IsRepeat(c, r) && r.msgId == RUN_VEL && MotionTaken(HandlePacket(c, env, r).calls)
    requires 0 < HandlePacket(c, env, r).core.settings.active.safety.hostTimeoutMs <= 60000
    requires
      var timeout := HandlePacket(c, env, r).core.settings.active.safety.hostTimeoutMs;
      Now(again) == Add32(Now(env), timeout) && Now(later) == Add32(Now(again), 1)
    ensures
      var started := HandlePacket(c, env, r).core;
      var inputs := [Input(again, Handle(r)), Input(later, Tick(true))];
      && Run(started, inputs).drive.state == RunningVelocity
      && Run(started, Thin(started, inputs)).drive.state != RunningVelocity
  {
    MotionIsAcknowledgedTruthfully(c, env, r);
    HandledIsCached(c, env, r);
    HandledSetsTimer(c, env, r);
    hide HandlePacket, Run, Thin, MotionTaken;
    RepeatPutsOffTimeout(HandlePacket(c, env, r).core, again, later, r);
  }

  lemma HandledSetsTimer(c: Core, env: Env, r: Packet)
    requires !IsRepeat(c, r)
    ensures HandlePacket(c, env, r).core.lastHostMs == Now(env)
  {
    hide Dispatch;
  }
}
