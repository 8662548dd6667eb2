/** From what the actuator sends back to what the client makes of it: a request ends with its own reply. */
module HostReplies {
  import opened Bytes
  import opened Config
  import opened Protocol
  import opened HostClient
  import opened ActuatorTypes
  import opened ActuatorSteps
  import opened ActuatorTrace
  import opened ActuatorReplay
  import opened ActuatorAnswers

  // ----- Packets and messages -----

  function FlagsOf(m: Message): byte {
    match m
    case Error(_, _) => 3
    case Status(telemetry, _) => if telemetry then 4 else 1
    case Notice(_) => 0
    case _ => 1
  }

  function LengthOf(m: Message): nat {
    match m
    case Ack(_) => 2
    case Error(_, _) => 2
    case Pong => 0
    case Identity(_) => 64
    case Capabilities(_) => 16
    case Status(_, _) => 32
    case FaultReport(_) => 4
    case CounterReport(_) => 28
    case DriverReport(_) => 16
    case ConfigValue(_, _, _, _) => 8
    case Notice(_) => 12
  }

  /** A packet that carries a message, whatever bytes it puts in the payload. */
  predicate Carries(p: Packet, o: Outgoing) {
    p.msgId == IdOf(o.message) && p.flags == FlagsOf(o.message) && p.number == o.number
        && |p.payload| == LengthOf(o.message)
  }

  ghost predicate CarriesAll(packets: seq<Packet>, sent: seq<Outgoing>) {
    |packets| == |sent| && forall i :: 0 <= i < |sent| ==> Carries(packets[i], sent[i])
  }

  lemma {:induction false} OnlyReply(sent: seq<Outgoing>, reply: Outgoing, i: nat)
    requires sent != [] && sent[|sent| - 1] == reply && Replies(sent) == [reply] && i < |sent| - 1
    ensures !IsReply(sent[i])
  {
    var init := sent[..|sent| - 1];
    assert IsReply(reply) by {
      if !IsReply(reply) {
        RepliesAreReplies(sent, 0);
      }
    }
    assert |Replies(init)| == 0;
    NoReply(init, i);
  }

  lemma {:induction false} RepliesAreReplies(sent: seq<Outgoing>, i: nat)
    requires i < |Replies(sent)|
    ensures IsReply(Replies(sent)[i])
    decreases |sent|
  {
    if i < |Replies(sent[..|sent| - 1])| {
      RepliesAreReplies(sent[..|sent| - 1], i);
    }
  }

  lemma {:induction false} NoReply(sent: seq<Outgoing>, i: nat)
    requires Replies(sent) == [] && i < |sent|
    ensures !IsReply(sent[i])
    decreases |sent|
  {
    if i < |sent| - 1 {
      NoReply(sent[..|sent| - 1], i);
    }
  }

  // ----- What else arrives -----

  /** Whatever carries a message that does not answer the request is passed over. */
  lemma OthersArePassedOver(p: Packet, o: Outgoing, number: uint16)
    requires Carries(p, o) && (IsReply(o) ==> o.number != number)
    ensures PassedOver(number, p)
  {}

  lemma ReplyIsOwn(p: Packet, o: Outgoing)
    requires Carries(p, o) && IsReply(o)
    ensures IsOwn(o.number, p) && (p.msgId == ERROR <==> o.message.Error?) && p.msgId == IdOf(o.message)
    ensures o.message.Error? ==> |p.payload| == ERROR_LENGTH
  {}

  /** The cache has nothing to do with requests of this number. */
  ghost predicate CacheIgnores(c: Core, number: uint16) {
    && NoReplyTo(c.cache.responses, number)
    && (c.cache.request.Some? ==> c.cache.request.value.number != number)
  }

  lemma MismatchSends(c: Core, env: Env, r: Packet)
    requires IsRepeat(c, r) && c.cache.request != Some(r)
    ensures
      var w := HandlePacket(c, env, r);
      w.sent == [Outgoing(r.number, Error(r.msgId, DuplicateMismatch))] && w.core.cache == c.cache
  {}

  lemma FreshCaches(c: Core, env: Env, r: Packet)
    requires !IsRepeat(c, r)
    ensures HandlePacket(c, env, r).core.cache.request == Some(r)
  {
    hide Dispatch;
  }

  lemma HandledIgnores(c: Core, env: Env, r: Packet, number: uint16)
    requires CacheIgnores(c, number) && r.number != number
    ensures
      var w := HandlePacket(c, env, r);
      NoReplyTo(w.sent, number) && CacheIgnores(w.core, number)
  {
    if !IsRepeat(c, r) {
      FreshCaches(c, env, r);
      if r.msgId == PING && r.payload == [] {
        PingIsAnswered(c, env, r);
      } else {
        EveryRequestIsAnswered(c, env, r);
        hide HandlePacket, NoReplyTo;
        RepliesTell(HandlePacket(c, env, r).sent, number);
        RepliesTell(HandlePacket(c, env, r).core.cache.responses, number);
      }
    } else if c.cache.request == Some(r) {
      hide HandlePacket;
      RepeatReplays(c, env, r);
    } else {
      hide HandlePacket;
      MismatchSends(c, env, r);
    }
  }

  lemma TickIgnores(c: Core, env: Env, via: Writer, number: uint16)
    ensures
      var w := Update(c, env, via);
      NoReplyTo(w.sent, number) && w.core.cache == c.cache
  {
    UpdateIsQuiet(c, env, via);
    NoReplies();
    assert Update(c, env, via).core.cache == c.cache by {
      hide Notify, SetFault, TransitionTo, AnnounceBoot, FinishMotion;
    }
    hide Update, NoReplyTo;
    RepliesTell(Update(c, env, via).sent, number);
  }

  lemma BootIgnores(defaults: ActuatorConfig, env: Env, number: uint16)
    ensures
      var w := Begin(defaults, env);
      w.sent == [] && CacheIgnores(w.core, number)
  {
    hide IsValid;
  }

  lemma OthersIgnore(c: Core, env: Env, a: Action, number: uint16)
    requires a.FrameFailed? || a.Telemetry?
    ensures
      var w := Step(c, env, a);
      NoReplyTo(w.sent, number) && w.core.cache == c.cache
  {
    hide FromBackend, LogicalPosition;
  }

  lemma StepIgnores(c: Core, env: Env, a: Action, number: uint16)
    requires CacheIgnores(c, number) && (a.Handle? ==> a.request.number != number)
    ensures
      var w := Step(c, env, a);
      NoReplyTo(w.sent, number) && CacheIgnores(w.core, number)
  {
    match a
    case Handle(r) =>
      hide HandlePacket, NoReplyTo;
      HandledIgnores(c, env, r, number);
    case Tick(writer) =>
      hide Update, NoReplyTo;
      TickIgnores(c, env, if writer then Direct else NoWriter, number);
    case FrameFailed(_) =>
      hide RecordFrameError, NoReplyTo;
      OthersIgnore(c, env, a, number);
    case Telemetry(_) =>
      hide SendTelemetry, NoReplyTo;
      OthersIgnore(c, env, a, number);
    case Restart =>
      BootIgnores(c.settings.defaults, env, number);
      hide Begin;
  }

  /** A run in which no request of a number is handled sends nothing that answers one. */
  lemma {:induction false} RunIgnores(c: Core, inputs: seq<Input>, number: uint16)
    requires CacheIgnores(c, number)
    requires forall input :: input in inputs && input.action.Handle? ==> input.action.request.number != number
    ensures NoReplyTo(Sent(c, inputs), number) && CacheIgnores(Run(c, inputs), number)
    decreases |inputs|
  {
    hide Step, CacheIgnores;
    if inputs != [] {
      var init, last := inputs[..|inputs| - 1], inputs[|inputs| - 1];
      assert last in inputs;
      RunIgnores(c, init, number);
      StepIgnores(Run(c, init), last.env, last.action, number);
      NoneInBoth(Sent(c, init), Step(Run(c, init), last.env, last.action).sent, number);
    }
  }

  lemma NoneInBoth(s: seq<Outgoing>, t: seq<Outgoing>, number: uint16)
    requires NoReplyTo(s, number) && NoReplyTo(t, number)
    ensures NoReplyTo(s + t, number)
  {}

  // ----- The outcome of a request -----

  /**
    A request that is handled after any run ends, for the client, with the reply if it is not an error and with a device
    error if it is: whatever arrives late of all that the actuator has sent since it began, whatever events the request
    causes, and whatever follows. It suffices that no request of this number was handled before, and that the client
    expects the message its request calls for, or none in particular.
   */
  lemma RequestGetsItsReply(defaults: ActuatorConfig, boot: Env, inputs: seq<Input>, env: Env, r: Packet,
                            wanted: Option<byte>, late: nat,
                            noise: seq<Packet>, answer: seq<Packet>, rest: seq<Packet>)
    requires forall input :: input in inputs && input.action.Handle? ==> input.action.request.number != r.number
    requires !(r.msgId == PING && r.payload == []) && (wanted == None || wanted == Some(ReplyId(r.msgId)))
    requires
      var booted := Begin(defaults, boot).core;
      && late <= |Sent(booted, inputs)| && CarriesAll(noise, Sent(booted, inputs)[late..])
      && CarriesAll(answer, HandlePacket(Run(booted, inputs), env, r).sent)
    ensures
      answer != [] &&
      (var sent := HandlePacket(Run(Begin(defaults, boot).core, inputs), env, r).sent;
       var packet := answer[|answer| - 1];
       OutcomeOf(r.number, wanted, noise + answer + rest)
         == if sent[|answer| - 1].message.Error? then DeviceError(packet) else Answer(packet))
  {
    var booted := Begin(defaults, boot).core;
    var c := Run(booted, inputs);
    BootIgnores(defaults, boot, r.number);
    hide Begin, Run, Sent, HandlePacket, Carries, PassedOver, IsOwn, IsReply, IdOf, OutcomeOf, Replies;
    RunIgnores(booted, inputs, r.number);
    EveryRequestIsAnswered(c, env, r);
    LateArePassedOver(noise, Sent(booted, inputs), late, r.number);
    ReplyEndsRequest(HandlePacket(c, env, r).sent, r, wanted, noise, answer, rest);
  }

  lemma LateArePassedOver(noise: seq<Packet>, sent: seq<Outgoing>, late: nat, number: uint16)
    requires late <= |sent| && CarriesAll(noise, sent[late..]) && NoReplyTo(sent, number)
    ensures AllPassedOver(number, noise)
  {
    hide Carries, PassedOver, IsReply;
    forall i | 0 <= i < |noise| ensures PassedOver(number, noise[i]) {
      OthersArePassedOver(noise[i], sent[late + i], number);
    }
  }

  /** When one reply ends what was sent for a request, it ends the request. */
  lemma ReplyEndsRequest(sent: seq<Outgoing>, r: Packet, wanted: Option<byte>,
                         noise: seq<Packet>, answer: seq<Packet>, rest: seq<Packet>)
    requires sent != [] && Replies(sent) == [sent[|sent| - 1]] && CarriesAll(answer, sent)
    requires sent[|sent| - 1].number == r.number && AllPassedOver(r.number, noise)
    requires sent[|sent| - 1].message.Error? || IdOf(sent[|sent| - 1].message) == ReplyId(r.msgId)
    requires wanted == None || wanted == Some(ReplyId(r.msgId))
    ensures OutcomeOf(r.number, wanted, noise + answer + rest) ==
      if sent[|sent| - 1].message.Error? then DeviceError(answer[|sent| - 1]) else Answer(answer[|sent| - 1])
  {
    hide Carries, PassedOver, IsOwn, IsReply, IdOf, OutcomeOf, Replies;
    var last := |sent| - 1;
    var before := noise + answer[..last];
    forall i | 0 <= i < |before| ensures PassedOver(r.number, before[i]) {
      if i >= |noise| {
        var j := i - |noise|;
        OnlyReply(sent, sent[last], j);
        OthersArePassedOver(answer[j], sent[j], r.number);
      }
    }
    RepliesAreReplies(sent, 0);
    ReplyIsOwn(answer[last], sent[last]);
    assert noise + answer + rest == before + [answer[last]] + rest;
    FirstOwnDecides(r.number, wanted, before, answer[last], rest);
  }
}
