/** The firmware's main loop: serial bytes through the frame decoder into the actuator, an update, and telemetry. */
module MainLoop {
  import opened Bytes
  import opened Protocol
  import opened Framing
  import opened ActuatorTypes
  import opened ActuatorSteps
  import opened ActuatorTrace
  import Invariant = ActuatorInvariant
  import Safety = ActuatorSafety
  import opened Config
  import opened ActuatorClass

  // ----- What one turn of the loop is for the actuator -----

  /** What the serial loop does with one reception. */
  function Heard(reception: Reception): Action {
    match reception case Accepted(p) => Handle(p) case Rejected(error) => FrameFailed(error)
  }

  function AllHeard(receptions: seq<Reception>, envs: seq<Env>): seq<Input>
    requires |envs| == |receptions|
  {
    seq(|receptions|, i requires 0 <= i < |receptions| => Input(envs[i], Heard(receptions[i])))
  }

  /**
    The bytes that have arrived, and what the backend answers for each reception in them, in the update and for the
    telemetry, which is numbered by the device.
   */
  datatype Turn = Turn(bytes: seq<byte>, heard: seq<Env>, tick: Env, report: Env, number: uint16)

  predicate Fits(held: seq<byte>, turn: Turn) { |turn.heard| == |Receptions(held, turn.bytes)| }

  function Served(held: seq<byte>, turn: Turn): seq<Input>
    requires Fits(held, turn)
  {
    AllHeard(Receptions(held, turn.bytes), turn.heard) + [Input(turn.tick, Tick(true))]
  }

  function TurnInputs(held: seq<byte>, c: Core, turn: Turn): seq<Input>
    requires Fits(held, turn)
  {
    var served := Served(held, turn);
    if TelemetryDue(Run(c, served), Now(turn.report)) then served + [Input(turn.report, Telemetry(turn.number))]
    else served
  }

  // ----- The loop on the objects -----

  lemma RunLast(c: Core, inputs: seq<Input>, last: Input)
    ensures
      var w := Step(Run(c, inputs), last.env, last.action);
      && Run(c, inputs + [last]) == w.core
      && Calls(c, inputs + [last]) == Calls(c, inputs) + w.calls
      && Sent(c, inputs + [last]) == Sent(c, inputs) + w.sent
  {
    hide Step;
    assert (inputs + [last])[..|inputs|] == inputs;
  }

  class Firmware {
    const decoder: FramingDecoder
    const actuator: Actuator
    /** Every backend call made, and every packet sent, since the log was started. */
    ghost var calls: seq<Call>
    ghost var sent: seq<Outgoing>

    ghost predicate Valid()
      reads this, decoder, decoder.frame, actuator
    {
      decoder.Valid() && actuator.Valid()
    }

    ghost function Core(): Core
      reads actuator
    {
      actuator.Snapshot().core
    }

    constructor ()
      ensures Valid() && fresh(decoder) && fresh(decoder.frame) && fresh(actuator) && decoder.Held() == []
      ensures calls == [] && sent == []
    {
      decoder := new FramingDecoder();
      actuator := new Actuator();
      calls, sent := [], [];
    }

    /** The log holds what a run of these inputs from `start` made. */
    ghost predicate Logged(start: Core, inputs: seq<Input>, before: seq<Call>, told: seq<Outgoing>)
      reads this, actuator
    {
      && Core() == Run(start, inputs)
      && calls == before + Calls(start, inputs) && sent == told + Sent(start, inputs)
    }

    /** Adds the step that the actuator has just made to the log. */
    ghost method Log(start: Core, inputs: seq<Input>, input: Input, before: seq<Call>, told: seq<Outgoing>)
      requires
        var w := Step(Run(start, inputs), input.env, input.action);
        actuator.Snapshot().core == w.core && actuator.calls == w.calls && actuator.sent == w.sent
      requires calls == before + Calls(start, inputs) && sent == told + Sent(start, inputs)
      modifies this`calls, this`sent
      ensures Logged(start, inputs + [input], before, told)
    {
      hide Step, Run, Calls, Sent;
      RunLast(start, inputs, input);
      calls := calls + actuator.calls;
      sent := sent + actuator.sent;
    }

    /** Starts the actuator with the board's configuration, and the log with it. */
    method Setup(defaults: ActuatorConfig, env: Env)
      requires Valid()
      modifies this, actuator
      ensures Valid() && decoder.Held() == old(decoder.Held())
      ensures actuator.Snapshot() == Begin(defaults, env)
      ensures Logged(Begin(defaults, env).core, [], [], [])
      ensures IsValid(defaults) ==> actuator.Ready()
    {
      hide Begin, Invariant.Invariant, IsValid;
      actuator.Begin(defaults, env);
      calls, sent := [], [];
      assert Run(Core(), []) == Core();
    }

    /** Hands a reception to the actuator. */
    method Hear(reception: Reception, env: Env, ghost start: Core, ghost inputs: seq<Input>,
                ghost before: seq<Call>, ghost told: seq<Outgoing>)
      requires Valid() && Logged(start, inputs, before, told)
      modifies this`calls, this`sent, actuator
      ensures Valid() && Logged(start, inputs + [Input(env, Heard(reception))], before, told)
      ensures old(actuator.Ready()) ==> actuator.Ready()
    {
      hide Step, Run, Calls, Sent, Heard, Safety.AllInBounds, Invariant.Invariant;
      match reception {
        case Accepted(p) => actuator.HandlePacket(env, p);
        case Rejected(error) => actuator.RecordFrameError(env, error);
      }
      StepOf(Run(start, inputs), env, reception);
      Log(start, inputs, Input(env, Heard(reception)), before, told);
    }

    method ServiceSerial(bytes: seq<byte>, heard: seq<Env>)
      requires Valid() && |heard| == |Receptions(decoder.Held(), bytes)|
      modifies this, decoder, decoder.frame, actuator
      ensures Valid() && decoder.Held() == Holding(old(decoder.Held()), bytes)
      ensures Logged(old(Core()), AllHeard(Receptions(old(decoder.Held()), bytes), heard), old(calls), old(sent))
      ensures old(actuator.Ready()) ==> actuator.Ready()
    {
      hide HeldAfter, Step, Run, Calls, Sent, Delivery, Receptions, Holding, Heard, AllHeard, Invariant.Invariant;
      ghost var held, start := decoder.Held(), Core();
      var count := 0;
      NothingHeard(held, start);
      for i := 0 to |bytes|
        invariant Valid() && decoder.Held() == Holding(held, bytes[..i])
        invariant count == |Receptions(held, bytes[..i])| <= |heard|
        invariant Logged(start, AllHeard(Receptions(held, bytes[..i]), heard[..count]), old(calls), old(sent))
        invariant old(actuator.Ready()) ==> actuator.Ready()
      {
        ghost var soFar := AllHeard(Receptions(held, bytes[..i]), heard[..count]);
        NextByte(held, bytes, i);
        var delivery := decoder.Consume(bytes[i]);
        if delivery.Some? {
          HearOne(Receptions(held, bytes[..i]), heard, delivery.value);
          Hear(delivery.value, heard[count], start, soFar, old(calls), old(sent));
          count := count + 1;
        } else {
          assert Receptions(held, bytes[..i]) + [] == Receptions(held, bytes[..i]);
        }
      }
      assert bytes[..|bytes|] == bytes && heard[..count] == heard;
    }

    /** One turn of the main loop. */
    method Loop(turn: Turn)
      requires Valid() && Fits(decoder.Held(), turn)
      modifies this, decoder, decoder.frame, actuator
      ensures Valid() && decoder.Held() == Holding(old(decoder.Held()), turn.bytes)
      ensures Logged(old(Core()), TurnInputs(old(decoder.Held()), old(Core()), turn), old(calls), old(sent))
      ensures old(actuator.Ready()) ==> actuator.Ready()
    {
      hide Step, Run, Calls, Sent, Receptions, TelemetryDue, Safety.AllInBounds, Invariant.Invariant;
      ghost var start, receptions := Core(), AllHeard(Receptions(decoder.Held(), turn.bytes), turn.heard);
      ServiceSerial(turn.bytes, turn.heard);
      actuator.Update(turn.tick, true);
      StepOfTick(Run(start, receptions), turn.tick);
      Log(start, receptions, Input(turn.tick, Tick(true)), old(calls), old(sent));
      ghost var served := receptions + [Input(turn.tick, Tick(true))];
      if actuator.ShouldSendTelemetry(turn.report) {
        actuator.SendTelemetry(turn.report, turn.number);
        StepOfTelemetry(Run(start, served), turn.report, turn.number);
        Log(start, served, Input(turn.report, Telemetry(turn.number)), old(calls), old(sent));
      }
    }
  }

  lemma NothingHeard(held: seq<byte>, c: Core)
    ensures Holding(held, []) == held && Receptions(held, []) == [] && AllHeard([], []) == []
    ensures Run(c, []) == c && Calls(c, []) == [] && Sent(c, []) == []
  {}

  lemma NextByte(held: seq<byte>, bytes: seq<byte>, i: nat)
    requires i < |bytes|
    ensures
      var before := Holding(held, bytes[..i]);
      && Holding(held, bytes[..i + 1]) == HeldAfter(before, bytes[i])
      && Receptions(held, bytes[..i + 1]) == Receptions(held, bytes[..i]) + ToList(Delivery(before, bytes[i]))
    ensures |Receptions(held, bytes[..i + 1])| <= |Receptions(held, bytes)|
  {
    hide HeldAfter, Delivery;
    assert bytes[..i + 1][..i] == bytes[..i];
    assert bytes == bytes[..i + 1] + bytes[i + 1..];
    StreamConcat(held, bytes[..i + 1], bytes[i + 1..]);
  }

  lemma HearOne(receptions: seq<Reception>, heard: seq<Env>, next: Reception)
    requires |receptions| < |heard|
    ensures
      var n := |receptions|;
      AllHeard(receptions + [next], heard[..n + 1])
        == AllHeard(receptions, heard[..n]) + [Input(heard[n], Heard(next))]
  {}

  lemma StepOf(c: Core, env: Env, reception: Reception)
    ensures Step(c, env, Heard(reception)) == match reception {
      case Accepted(p) => HandlePacket(c, env, p)
      case Rejected(error) => RecordFrameError(c, env, error)
    }
  {}

  lemma StepOfTick(c: Core, env: Env)
    ensures Step(c, env, Tick(true)) == Update(c, env, Direct)
  {}

  lemma StepOfTelemetry(c: Core, env: Env, number: uint16)
    ensures Step(c, env, Telemetry(number)) == SendTelemetry(c, env, number)
  {}

  /**
    A turn updates the actuator once, after everything it received, and then reports exactly if reports are switched on
    and the interval has passed since the last one.
   */
  lemma TurnUpdatesOnce(held: seq<byte>, c: Core, turn: Turn)
    requires Fits(held, turn)
    ensures
      var inputs, n := TurnInputs(held, c, turn), |turn.heard|;
      && n < |inputs| <= n + 2 && inputs[n] == Input(turn.tick, Tick(true))
      && (forall i :: 0 <= i < |inputs| ==> (inputs[i].action.Tick? <==> i == n))
      && (forall i :: 0 <= i < |inputs| && inputs[i].action.Telemetry? ==> inputs[i].action.number == turn.number)
      && (forall i :: 0 <= i < |inputs| ==> (inputs[i].action.Telemetry? <==> i == n + 1))
      && (var updated := Run(c, inputs[..n + 1]);
          var telemetry := updated.settings.active.telemetry;
          |inputs| == n + 2 <==>
            && telemetry.binaryStreamEnabled && telemetry.intervalMs > 0
            && (Now(turn.report) - updated.lastTelemetryMs) % 0x1_0000_0000 >= telemetry.intervalMs)
  {
    hide Run, Receptions;
    assert TurnInputs(held, c, turn)[..|turn.heard| + 1] == Served(held, turn);
  }

  // ----- Many turns -----

  function Stream(turns: seq<Turn>): seq<byte>
    decreases |turns|
  {
    if turns == [] then [] else Stream(turns[..|turns| - 1]) + turns[|turns| - 1].bytes
  }

  predicate AllFit(turns: seq<Turn>)
    decreases |turns|
  {
    turns == [] ||
    (var init := turns[..|turns| - 1];
     AllFit(init) && Fits(Holding([], Stream(init)), turns[|turns| - 1]))
  }

  /** Everything the actuator does in many turns, from an empty decoder. */
  function LoopInputs(c: Core, turns: seq<Turn>): seq<Input>
    requires AllFit(turns)
    decreases |turns|
  {
    if turns == [] then []
    else
      var init := turns[..|turns| - 1];
      var before := LoopInputs(c, init);
      before + TurnInputs(Holding([], Stream(init)), Run(c, before), turns[|turns| - 1])
  }

  /** What a run received over the serial line, in order. */
  function Arrivals(inputs: seq<Input>): seq<Reception>
    decreases |inputs|
  {
    if inputs == [] then []
    else
      Arrivals(inputs[..|inputs| - 1]) +
      match inputs[|inputs| - 1].action {
        case Handle(p) => [Accepted(p)]
        case FrameFailed(error) => [Rejected(error)]
        case _ => []
      }
  }

  lemma {:induction false} ArrivalsConcat(s: seq<Input>, t: seq<Input>)
    ensures Arrivals(s + t) == Arrivals(s) + Arrivals(t)
    decreases |t|
  {
    if t == [] {
      assert s + t == s;
    } else {
      ArrivalsConcat(s, t[..|t| - 1]);
      assert (s + t)[..|s + t| - 1] == s + t[..|t| - 1];
    }
  }

  lemma {:induction false} AllHeardArrive(receptions: seq<Reception>, envs: seq<Env>)
    requires |envs| == |receptions|
    ensures Arrivals(AllHeard(receptions, envs)) == receptions
    decreases |receptions|
  {
    if receptions != [] {
      var n := |receptions| - 1;
      AllHeardArrive(receptions[..n], envs[..n]);
      assert AllHeard(receptions, envs)[..n] == AllHeard(receptions[..n], envs[..n]);
    }
  }

  lemma ArrivesOnce(input: Input)
    ensures Arrivals([input]) == match input.action {
        case Handle(p) => [Accepted(p)]
        case FrameFailed(error) => [Rejected(error)]
        case _ => []
      }
  {
    assert [input][..0] == [];
  }

  lemma TurnArrivals(held: seq<byte>, c: Core, turn: Turn)
    requires Fits(held, turn)
    ensures Arrivals(TurnInputs(held, c, turn)) == Receptions(held, turn.bytes)
  {
    hide Receptions, Run, TelemetryDue, Arrivals;
    var receptions := Receptions(held, turn.bytes);
    AllHeardArrive(receptions, turn.heard);
    ArrivalsConcat(AllHeard(receptions, turn.heard), [Input(turn.tick, Tick(true))]);
    ArrivesOnce(Input(turn.tick, Tick(true)));
    ArrivalsConcat(Served(held, turn), [Input(turn.report, Telemetry(turn.number))]);
    ArrivesOnce(Input(turn.report, Telemetry(turn.number)));
  }

  /** However the bytes of a stream are spread over the turns, what arrives is what the decoder makes of the stream. */
  lemma {:induction false} TurnsDeliverStream(c: Core, turns: seq<Turn>)
    requires AllFit(turns)
    ensures Arrivals(LoopInputs(c, turns)) == Receptions([], Stream(turns))
    decreases |turns|
  {
    hide Receptions, Holding, Run, TurnInputs, Arrivals;
    if turns == [] {
      NothingHeard([], c);
      NothingArrives();
    } else {
      var init, last := turns[..|turns| - 1], turns[|turns| - 1];
      var before, held := LoopInputs(c, init), Holding([], Stream(init));
      TurnsDeliverStream(c, init);
      StreamConcat([], Stream(init), last.bytes);
      TurnArrivals(held, Run(c, before), last);
      ArrivalsConcat(before, TurnInputs(held, Run(c, before), last));
    }
  }

  lemma NothingArrives()
    ensures Arrivals([]) == []
  {}

  /** The main loop never restarts the actuator. */
  lemma {:induction false} LoopNeverRestarts(c: Core, turns: seq<Turn>)
    requires AllFit(turns)
    ensures forall i :: 0 <= i < |LoopInputs(c, turns)| ==> !LoopInputs(c, turns)[i].action.Restart?
    decreases |turns|
  {
    hide Receptions, Holding, Run, TelemetryDue;
    if turns != [] {
      LoopNeverRestarts(c, turns[..|turns| - 1]);
    }
  }
}
