/** The byte-at-a-time `FramingDecoder` of `protocol_v2.cpp`, and what it delivers from a whole stream. */
module Framing {
  import opened Bytes
  import opened Cobs
  import opened Protocol

  // The decoder as a function of the bytes it holds: what it holds after one more byte, and what that byte delivers.

  function HeldAfter(held: seq<byte>, b: byte): seq<byte> {
    if b == 0 || |held| >= MAX_FRAME_SIZE then [] else held + [b]
  }

  function Delivery(held: seq<byte>, b: byte): Option<Reception> {
    if b == 0 then (if held == [] then None else Some(DecodeFrame(held)))
    else if |held| >= MAX_FRAME_SIZE then Some(Rejected(BadPayload))
    else None
  }

  function ToList(delivery: Option<Reception>): seq<Reception> {
    if delivery.None? then [] else [delivery.value]
  }

  // The same for a whole stream.

  function Holding(held: seq<byte>, stream: seq<byte>): seq<byte>
    decreases |stream|
  {
    if stream == [] then held
    else HeldAfter(Holding(held, stream[..|stream| - 1]), stream[|stream| - 1])
  }

  function Receptions(held: seq<byte>, stream: seq<byte>): seq<Reception>
    decreases |stream|
  {
    if stream == [] then []
    else
      var init := stream[..|stream| - 1];
      Receptions(held, init) + ToList(Delivery(Holding(held, init), stream[|stream| - 1]))
  }

  class FramingDecoder {
    const frame: array<byte>
    var frameLen: nat

    ghost predicate Valid()
      reads this
    {
      frame.Length == MAX_FRAME_SIZE && frameLen <= MAX_FRAME_SIZE
    }

    ghost function Held(): seq<byte>
      requires Valid()
      reads this, frame
    {
      frame[..frameLen]
    }

    constructor ()
      ensures Valid() && fresh(frame) && Held() == []
    {
      frame := new byte[MAX_FRAME_SIZE];
      frameLen := 0;
    }

    method Consume(b: byte) returns (delivery: Option<Reception>)
      requires Valid()
      modifies this, frame
      ensures Valid()
      ensures Held() == HeldAfter(old(Held()), b)
      ensures delivery == Delivery(old(Held()), b)
    {
      hide DecodeFrame;
      if b == 0 {
        if frameLen == 0 {
          return None;
        }
        var reception := DecodePacket(frame, frameLen);
        frameLen := 0;
        return Some(reception);
      }
      if frameLen >= MAX_FRAME_SIZE {
        frameLen := 0;
        return Some(Rejected(BadPayload));
      }
      frame[frameLen] := b;
      frameLen := frameLen + 1;
      return None;
    }

    method Reset()
      requires Valid()
      modifies this`frameLen
      ensures Valid() && Held() == []
    {
      frameLen := 0;
    }

    /** Feeding a whole stream, as the firmware's serial loop does. */
    method ConsumeAll(stream: seq<byte>) returns (receptions: seq<Reception>)
      requires Valid()
      modifies this, frame
      ensures Valid()
      ensures Held() == Holding(old(Held()), stream)
      ensures receptions == Receptions(old(Held()), stream)
    {
      hide HeldAfter, Delivery;
      receptions := [];
      ghost var start := Held();
      for i := 0 to |stream|
        invariant Valid()
        invariant Held() == Holding(start, stream[..i])
        invariant receptions == Receptions(start, stream[..i])
      {
        assert stream[..i + 1][..i] == stream[..i];
        var delivery := Consume(stream[i]);
        if delivery.Some? {
          receptions := receptions + [delivery.value];
        }
      }
      assert stream[..|stream|] == stream;
    }
  }

  lemma {:induction false} StreamConcat(held: seq<byte>, s: seq<byte>, t: seq<byte>)
    ensures Holding(held, s + t) == Holding(Holding(held, s), t)
    ensures Receptions(held, s + t) == Receptions(held, s) + Receptions(Holding(held, s), t)
    decreases |t|
  {
    hide HeldAfter, Delivery;
    if t == [] {
      assert s + t == s;
    } else {
      StreamConcat(held, s, t[..|t| - 1]);
      assert (s + t)[..|s + t| - 1] == s + t[..|t| - 1];
    }
  }

  // ----- One run of nonzero bytes -----

  function Overflows(n: nat): seq<Reception> { seq(n, i => Rejected(BadPayload)) }

  const STRIDE := MAX_FRAME_SIZE + 1

  /** How often an unbroken run of `n` bytes overflows the buffer. */
  function Drops(n: nat): nat { n / STRIDE }

  /** How many of its bytes those overflows discard. */
  function Dropped(n: nat): (d: nat)
    ensures d <= n
  {
    n / STRIDE * STRIDE
  }

  /** The decoder drops every 142nd byte of an unbroken run, with one error each, and keeps what follows. */
  lemma {:induction false} RunOfBytes(run: seq<byte>)
    requires ZeroFree(run)
    ensures Holding([], run) == run[Dropped(|run|)..]
    ensures Receptions([], run) == Overflows(Drops(|run|))
    decreases |run|
  {
    hide DecodeFrame, Drops, Dropped;
    if run == [] {
      NothingDropped();
    } else {
      var m := |run| - 1;
      RunOfBytes(run[..m]);
      OneMore(m);
      hide Holding, Receptions;
      ReceiveNonzero([], run);
      if Drops(m + 1) == Drops(m) {
        assert run[..m][Dropped(m)..] + [run[m]] == run[Dropped(m)..];
      } else {
        assert Overflows(Drops(m) + 1) == Overflows(Drops(m)) + [Rejected(BadPayload)];
      }
    }
  }

  lemma NothingDropped()
    ensures Drops(0) == 0 && Dropped(0) == 0
  {}

  lemma OneMore(m: nat)
    ensures
      if m - Dropped(m) == MAX_FRAME_SIZE
      then Drops(m + 1) == Drops(m) + 1 && Dropped(m + 1) == m + 1
      else Drops(m + 1) == Drops(m) && Dropped(m + 1) == Dropped(m) && m - Dropped(m) < MAX_FRAME_SIZE
  {}

  lemma ReceiveNonzero(held: seq<byte>, stream: seq<byte>)
    requires stream != [] && stream[|stream| - 1] != 0
    ensures
      var before := Holding(held, stream[..|stream| - 1]);
      var received := Receptions(held, stream[..|stream| - 1]);
      if |before| >= MAX_FRAME_SIZE
      then Holding(held, stream) == [] && Receptions(held, stream) == received + [Rejected(BadPayload)]
      else Holding(held, stream) == before + [stream[|stream| - 1]] && Receptions(held, stream) == received + []
  {
    hide DecodeFrame;
  }

  /** A run ended by a delimiter gives its overflow errors and then, if bytes remain, one decoded frame. */
  lemma DelimitedRun(run: seq<byte>)
    requires ZeroFree(run)
    ensures Holding([], run + [0]) == []
    ensures
      var last := run[Dropped(|run|)..];
      Receptions([], run + [0]) == Overflows(Drops(|run|)) + if last == [] then [] else [DecodeFrame(last)]
  {
    hide DecodeFrame, Drops, Dropped;
    RunOfBytes(run);
    assert (run + [0])[..|run|] == run;
  }

  // ----- Resynchronisation -----

  ghost predicate AllSendable(packets: seq<Packet>) { forall i :: 0 <= i < |packets| ==> packets[i].Sendable() }

  function Frames(packets: seq<Packet>): seq<byte>
    requires AllSendable(packets)
  {
    if packets == [] then []
    else
      var last := |packets| - 1;
      assert packets[last].Sendable();
      Frames(packets[..last]) + Frame(packets[last])
  }

  function Accepts(packets: seq<Packet>): seq<Reception> {
    seq(|packets|, i requires 0 <= i < |packets| => Accepted(packets[i]))
  }

  lemma FrameReceived(p: Packet)
    requires p.Sendable()
    ensures Holding([], Frame(p)) == []
    ensures Receptions([], Frame(p)) == [Accepted(p)]
  {
    hide Frame, DecodeFrame, Holding, Receptions;
    FrameLength(p);
    FrameDelimited(p);
    var f := Frame(p)[..|Frame(p)| - 1];
    assert Frame(p) == f + [0];
    FrameCanonical(f, p);
    DelimitedRun(f);
    assert Drops(|f|) == 0;
    assert f[0..] == f && Overflows(0) == [];
  }

  /** From a clean buffer, frames sent back to back are received as exactly their packets, in order. */
  lemma {:induction false} FramesReceived(packets: seq<Packet>)
    requires AllSendable(packets)
    ensures Holding([], Frames(packets)) == []
    ensures Receptions([], Frames(packets)) == Accepts(packets)
  {
    hide Frame, Holding, Receptions;
    if packets == [] {
      EmptyStream();
    } else {
      var init, last := packets[..|packets| - 1], packets[|packets| - 1];
      FramesReceived(init);
      FrameReceived(last);
      StreamConcat([], Frames(init), Frame(last));
      assert Accepts(packets) == Accepts(init) + [Accepted(last)];
    }
  }

  lemma EmptyStream()
    ensures Holding([], []) == [] && Receptions([], []) == []
  {}

  /**
    Whatever the decoder held and whatever garbage arrives, once a delimiter has passed, frames sent back to back are
    received as exactly their packets, in order.
   */
  lemma Resynchronises(held: seq<byte>, garbage: seq<byte>, packets: seq<Packet>)
    requires garbage != [] && garbage[|garbage| - 1] == 0
    requires AllSendable(packets)
    ensures Holding(held, garbage + Frames(packets)) == []
    ensures Receptions(held, garbage + Frames(packets)) == Receptions(held, garbage) + Accepts(packets)
  {
    hide Frame, Receptions;
    FramesReceived(packets);
    StreamConcat(held, garbage, Frames(packets));
  }
}
