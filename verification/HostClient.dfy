/** The host's `client.py`: numbering requests, and finding the answer to one among everything that arrives. */
module HostClient {
  import opened Bytes
  import opened Protocol

  const STATUS: byte := 0x08
  const ERROR: byte := 0x81
  const EVENT: byte := 0x82
  const TELEMETRY_BIT := 4
  const STATUS_LENGTH := 32
  const EVENT_LENGTH := 12
  const ERROR_LENGTH := 2

  // ----- Sequence numbers -----

  /** After 65535 comes 1: zero is left to events. */
  function NextNumber(n: uint16): uint16 { if n == 0xFFFF then 1 else n + 1 }

  /** The number of the k-th request of a client, counting from zero. */
  function NthNumber(k: nat): uint16 { if k == 0 then 1 else NextNumber(NthNumber(k - 1)) }

  const PERIOD := 0xFFFF

  lemma {:induction false} NthNumberIs(k: nat)
    ensures NthNumber(k) == 1 + k % PERIOD
  {
    if k > 0 {
      NthNumberIs(k - 1);
    }
  }

  /** No request is numbered zero, and two have the same number exactly when a multiple of 65535 lies between them. */
  lemma NumbersRepeat(i: nat, j: nat)
    ensures NthNumber(i) != 0
    ensures NthNumber(i) == NthNumber(j) <==> i % PERIOD == j % PERIOD
  {
    NthNumberIs(i);
    NthNumberIs(j);
  }

  // ----- Matching -----

  predicate IsTelemetry(p: Packet) { p.msgId == STATUS && p.flags / TELEMETRY_BIT % 2 == 1 }

  predicate IsEvent(p: Packet) { p.msgId == EVENT && !IsTelemetry(p) }

  /**
    How a request ends: with a packet, with an error the device reports, with a packet that makes no sense, never, or
    before it is sent.
   */
  datatype Outcome =
    | Answer(packet: Packet)
    | DeviceError(packet: Packet)
    | ProtocolFailure(packet: Packet)
    | TimedOut
    | NotSent
  {
    /** Whether a packet decided. */
    predicate Decided() { !TimedOut? && !NotSent? }
  }

  /** What one incoming packet decides for a request, if anything. */
  function Verdict(number: uint16, wanted: Option<byte>, p: Packet): Option<Outcome> {
    if IsTelemetry(p) then (if |p.payload| == STATUS_LENGTH then None else Some(ProtocolFailure(p)))
    else if IsEvent(p) then (if |p.payload| == EVENT_LENGTH then None else Some(ProtocolFailure(p)))
    else if p.number != number then None
    else if p.msgId == ERROR then Some(if |p.payload| == ERROR_LENGTH then DeviceError(p) else ProtocolFailure(p))
    else if wanted == None || wanted == Some(p.msgId) then Some(Answer(p))
    else Some(ProtocolFailure(p))
  }

  ghost predicate Undecided(number: uint16, wanted: Option<byte>, incoming: seq<Packet>) {
    forall i :: 0 <= i < |incoming| ==> Verdict(number, wanted, incoming[i]) == None
  }

  /** The first verdict that the incoming packets give. */
  function OutcomeOf(number: uint16, wanted: Option<byte>, incoming: seq<Packet>): Outcome
    decreases |incoming|
  {
    if incoming == [] then TimedOut
    else match Verdict(number, wanted, incoming[0])
      case Some(outcome) => outcome
      case None => OutcomeOf(number, wanted, incoming[1..])
  }

  /** Packets that decide nothing may be dropped from the front; what follows the first verdict does not matter. */
  lemma {:induction false} OutcomeSkips(number: uint16, wanted: Option<byte>, noise: seq<Packet>, rest: seq<Packet>)
    requires Undecided(number, wanted, noise)
    ensures OutcomeOf(number, wanted, noise + rest) == OutcomeOf(number, wanted, rest)
    decreases |noise|
  {
    if noise == [] {
      assert noise + rest == rest;
    } else {
      OutcomeSkips(number, wanted, noise[1..], rest);
      assert (noise + rest)[1..] == noise[1..] + rest;
    }
  }

  // ----- Whose packets decide -----

  /** Packets that a request passes over: well-formed telemetry and events, and whatever answers another request. */
  predicate PassedOver(number: uint16, p: Packet) {
    if IsTelemetry(p) then |p.payload| == STATUS_LENGTH
    else if IsEvent(p) then |p.payload| == EVENT_LENGTH
    else p.number != number
  }

  /** A packet sent for the request itself. */
  predicate IsOwn(number: uint16, p: Packet) { !IsTelemetry(p) && !IsEvent(p) && p.number == number }

  /** Only a packet of its own decides a request, unless telemetry or an event makes no sense. */
  lemma {:induction false} OutcomeIsOwn(number: uint16, wanted: Option<byte>, incoming: seq<Packet>)
    ensures
      match OutcomeOf(number, wanted, incoming)
      case Answer(p) => p in incoming && IsOwn(number, p) && p.msgId != ERROR
          && (wanted == None || wanted == Some(p.msgId))
      case DeviceError(p) => p in incoming && IsOwn(number, p) && p.msgId == ERROR
      case ProtocolFailure(p) => p in incoming && (IsOwn(number, p) || IsTelemetry(p) || IsEvent(p))
      case TimedOut => forall p :: p in incoming ==> PassedOver(number, p)
      case NotSent => false
    decreases |incoming|
  {
    if incoming != [] {
      OutcomeIsOwn(number, wanted, incoming[1..]);
    }
  }

  /** A packet that is passed over makes no difference, wherever it arrives. */
  lemma {:induction false} PassedOverIsIgnored(number: uint16, wanted: Option<byte>, before: seq<Packet>, p: Packet,
                                               after: seq<Packet>)
    requires PassedOver(number, p)
    ensures OutcomeOf(number, wanted, before + [p] + after) == OutcomeOf(number, wanted, before + after)
    decreases |before|
  {
    hide IsTelemetry, IsEvent;
    if before == [] {
      assert before + [p] + after == [p] + after && ([p] + after)[1..] == after && before + after == after;
    } else {
      assert (before + [p] + after)[1..] == before[1..] + [p] + after && (before + after)[1..] == before[1..] + after;
      PassedOverIsIgnored(number, wanted, before[1..], p, after);
    }
  }

  ghost predicate AllPassedOver(number: uint16, packets: seq<Packet>) {
    forall i :: 0 <= i < |packets| ==> PassedOver(number, packets[i])
  }

  /**
    The first packet of its own decides a request: an error is the device's, and the rest is as wanted or a failure.
   */
  lemma {:induction false} FirstOwnDecides(number: uint16, wanted: Option<byte>, before: seq<Packet>, p: Packet,
                                           after: seq<Packet>)
    requires AllPassedOver(number, before) && IsOwn(number, p)
    ensures OutcomeOf(number, wanted, before + [p] + after) ==
      if p.msgId == ERROR && |p.payload| == ERROR_LENGTH then DeviceError(p)
      else if p.msgId != ERROR && (wanted == None || wanted == Some(p.msgId)) then Answer(p)
      else ProtocolFailure(p)
    decreases |before|
  {
    hide IsTelemetry, IsEvent;
    if before == [] {
      assert before + [p] + after == [p] + after;
    } else {
      assert (before + [p] + after)[1..] == before[1..] + [p] + after;
      FirstOwnDecides(number, wanted, before[1..], p, after);
    }
  }

  function Select(f: Packet -> bool, packets: seq<Packet>): seq<Packet>
    decreases |packets|
  {
    if packets == [] then []
    else
      var last := packets[|packets| - 1];
      Select(f, packets[..|packets| - 1]) + if f(last) then [last] else []
  }

  lemma OutcomeAt(number: uint16, wanted: Option<byte>, incoming: seq<Packet>, i: nat)
    requires i < |incoming|
    ensures OutcomeOf(number, wanted, incoming[i..]) ==
            match Verdict(number, wanted, incoming[i]) {
              case Some(outcome) => outcome
              case None => OutcomeOf(number, wanted, incoming[i + 1..])
            }
  {
    hide Verdict;
    assert incoming[i..][1..] == incoming[i + 1..];
  }

  lemma EmptySelections()
    ensures Select(IsTelemetry, []) == [] && Select(IsEvent, []) == []
    ensures forall number, wanted :: OutcomeOf(number, wanted, []) == TimedOut
  {}

  lemma SelectAt(f: Packet -> bool, packets: seq<Packet>, i: nat)
    requires i < |packets|
    ensures Select(f, packets[..i + 1]) == Select(f, packets[..i]) + if f(packets[i]) then [packets[i]] else []
  {
    assert packets[..i + 1][..i] == packets[..i];
  }

  class DaftClient {
    var nextSeq: uint16
    var telemetry: seq<Packet>
    var events: seq<Packet>

    constructor ()
      ensures nextSeq == NthNumber(0) && telemetry == [] && events == []
    {
      nextSeq, telemetry, events := 1, [], [];
    }

    method Seq() returns (number: uint16)
      modifies this`nextSeq
      ensures number == old(nextSeq) && nextSeq == NextNumber(old(nextSeq))
    {
      number := nextSeq;
      nextSeq := (nextSeq as int + 1) % 0x1_0000;
      if nextSeq == 0 {
        nextSeq := 1;
      }
    }

    /**
      Sends a request and reads packets until one decides it. `incoming` is what the transport delivers before it times
      out; `taken` of it is read, and what was read before the deciding packet is put on the two lists or ignored. A
      payload that no frame can hold is refused when the request is written: its number is spent, and nothing is read.
     */
    method Request(msgId: byte, payload: seq<byte>, wanted: Option<byte>, incoming: seq<Packet>)
        returns (request: Packet, outcome: Outcome, taken: nat)
      modifies this
      ensures request == Packet(msgId, 0, old(nextSeq), payload) && nextSeq == NextNumber(old(nextSeq))
      ensures outcome == if request.Sendable() then OutcomeOf(request.number, wanted, incoming) else NotSent
      ensures taken <= |incoming| && (outcome.TimedOut? ==> taken == |incoming|) && (outcome.NotSent? ==> taken == 0)
      ensures
        var passed := if outcome.Decided() then taken - 1 else taken;
        && passed >= 0
        && Undecided(request.number, wanted, incoming[..passed])
        && (outcome.Decided() ==> Verdict(request.number, wanted, incoming[passed]) == Some(outcome))
        && telemetry == old(telemetry) + Select(IsTelemetry, incoming[..passed])
        && events == old(events) + Select(IsEvent, incoming[..passed])
    {
      hide Select, OutcomeOf;
      EmptySelections();
      var number := Seq();
      request := Packet(msgId, 0, number, payload);
      if |payload| > MAX_PAYLOAD_SIZE {
        return request, NotSent, 0;
      }
      taken := 0;
      while taken < |incoming|
        invariant taken <= |incoming| && nextSeq == NextNumber(old(nextSeq))
        invariant Undecided(number, wanted, incoming[..taken])
        invariant OutcomeOf(number, wanted, incoming) == OutcomeOf(number, wanted, incoming[taken..])
        invariant telemetry == old(telemetry) + Select(IsTelemetry, incoming[..taken])
        invariant events == old(events) + Select(IsEvent, incoming[..taken])
      {
        var p := incoming[taken];
        taken := taken + 1;
        OutcomeAt(number, wanted, incoming, taken - 1);
        SelectAt(IsTelemetry, incoming, taken - 1);
        SelectAt(IsEvent, incoming, taken - 1);
        if p.msgId == STATUS && p.flags / TELEMETRY_BIT % 2 == 1 {
          if |p.payload| != STATUS_LENGTH {
            return request, ProtocolFailure(p), taken;
          }
          telemetry := telemetry + [p];
        } else if p.msgId == EVENT {
          if |p.payload| != EVENT_LENGTH {
            return request, ProtocolFailure(p), taken;
          }
          events := events + [p];
        } else if p.number == number {
          if p.msgId == ERROR {
            return request, if |p.payload| == ERROR_LENGTH then DeviceError(p) else ProtocolFailure(p), taken;
          }
          if wanted.None? || p.msgId == wanted.value {
            return request, Answer(p), taken;
          }
          return request, ProtocolFailure(p), taken;
        }
      }
      assert incoming[taken..] == [];
      outcome := TimedOut;
    }
  }
}
