/** The host's `transport_serial.py`: packets out of a byte stream, however the port happens to cut it up. */
module SerialTransport {
  import opened Bytes
  import opened Cobs
  import opened Protocol
  import opened HostCodec

  const RX_LIMIT := 256
  const READ_SIZE := 128

  /** What one read of the port returns: at most the 128 bytes asked for. */
  type Read = r: seq<byte> | |r| <= READ_SIZE

  // ----- The stream as a whole -----

  function FirstZero(s: seq<byte>): (d: nat)
    ensures d <= |s| && ZeroFree(s[..d]) && (d < |s| ==> s[d] == 0)
    decreases |s|
  {
    if s == [] || s[0] == 0 then 0
    else
      var d := 1 + FirstZero(s[1..]);
      assert forall i :: 0 < i < d ==> s[i] == s[1..][i - 1];
      d
  }

  function PacketsIn(frame: seq<byte>): seq<Packet> {
    if frame == [] then []
    else match DecodeFrame(frame) { case Accepted(p) => [p] case Rejected(_) => [] }
  }

  /** The packets of the accepted zero-terminated segments, in order. */
  function Parsed(s: seq<byte>): seq<Packet>
    decreases |s|
  {
    var d := FirstZero(s);
    if d == |s| then [] else PacketsIn(s[..d]) + Parsed(s[d + 1..])
  }

  /** What follows the last delimiter. */
  function Tail(s: seq<byte>): seq<byte>
    decreases |s|
  {
    var d := FirstZero(s);
    if d == |s| then s else Tail(s[d + 1..])
  }

  function Flat(chunks: seq<seq<byte>>): seq<byte>
    decreases |chunks|
  {
    if chunks == [] then [] else chunks[0] + Flat(chunks[1..])
  }

  /** The buffer is emptied when it outgrows the limit without a delimiter. */
  function Kept(tail: seq<byte>): seq<byte> { if |tail| > RX_LIMIT then [] else tail }

  /** The packets read from a buffer and then from one chunk after another. */
  function Delivered(rx: seq<byte>, chunks: seq<seq<byte>>): seq<Packet>
    decreases |chunks|
  {
    Parsed(rx) + if chunks == [] then [] else Delivered(Kept(Tail(rx)) + chunks[0], chunks[1..])
  }

  /** The nonempty frames in a buffer that are rejected. */
  function BadFrames(s: seq<byte>): nat
    decreases |s|
  {
    var d := FirstZero(s);
    if d == |s| then 0
    else (if d > 0 && PacketsIn(s[..d]) == [] then 1 else 0) + BadFrames(s[d + 1..])
  }

  function Overflow(tail: seq<byte>): nat { if |tail| > RX_LIMIT then 1 else 0 }

  /** How often the buffer is emptied because it outgrew the limit. */
  function Overflows(rx: seq<byte>, chunks: seq<seq<byte>>): nat
    decreases |chunks|
  {
    Overflow(Tail(rx)) + if chunks == [] then 0 else Overflows(Kept(Tail(rx)) + chunks[0], chunks[1..])
  }

  /** How many errors are met, overflows included. */
  function Errors(rx: seq<byte>, chunks: seq<seq<byte>>): nat
    decreases |chunks|
  {
    BadFrames(rx) + Overflow(Tail(rx)) + if chunks == [] then 0 else Errors(Kept(Tail(rx)) + chunks[0], chunks[1..])
  }

  // ----- The transport -----

  datatype Buffered = NoPacket | Found(packet: Packet) | ProtocolError

  class Transport {
    var rx: seq<byte>
    var packetsRead: nat
    var bytesRead: nat
    var protocolErrors: nat
    var rxOverflows: nat
    var timeouts: nat

    constructor ()
      ensures rx == [] && packetsRead == bytesRead == protocolErrors == rxOverflows == timeouts == 0
    {
      rx := [];
      packetsRead, bytesRead, protocolErrors, rxOverflows, timeouts := 0, 0, 0, 0, 0;
    }

    /** Takes the next nonempty frame from the buffer, or finds that there is none. */
    method ReadBufferedPacket() returns (result: Buffered)
      modifies this`rx, this`packetsRead, this`rxOverflows
      ensures result.Found? ==>
        && |rx| < |old(rx)| && Parsed(old(rx)) == [result.packet] + Parsed(rx) && Tail(rx) == Tail(old(rx))
        && BadFrames(old(rx)) == BadFrames(rx)
      ensures result.NoPacket? ==>
        && Parsed(old(rx)) == [] && BadFrames(old(rx)) == 0
        && rx == Tail(old(rx)) && FirstZero(rx) == |rx| <= RX_LIMIT
      ensures result.ProtocolError? ==> |rx| < |old(rx)|
      ensures result.ProtocolError? && rxOverflows == old(rxOverflows) ==>
        && Parsed(old(rx)) == Parsed(rx) && Tail(rx) == Tail(old(rx)) && BadFrames(old(rx)) == 1 + BadFrames(rx)
      ensures rxOverflows != old(rxOverflows) ==>
        && result.ProtocolError? && rxOverflows == old(rxOverflows) + 1
        && rx == [] && |Tail(old(rx))| > RX_LIMIT && Parsed(old(rx)) == [] && BadFrames(old(rx)) == 0
      ensures packetsRead == old(packetsRead) + if result.Found? then 1 else 0
    {
      hide DecodeFrame;
      while true
        invariant Parsed(rx) == Parsed(old(rx)) && Tail(rx) == Tail(old(rx)) && |rx| <= |old(rx)|
        invariant BadFrames(rx) == BadFrames(old(rx))
        invariant packetsRead == old(packetsRead) && rxOverflows == old(rxOverflows)
        decreases |rx|
      {
        var delimiter := FirstZero(rx);
        if delimiter == |rx| {
          if |rx| > RX_LIMIT {
            rx := [];
            rxOverflows := rxOverflows + 1;
            return ProtocolError;
          }
          return NoPacket;
        }
        var frame := rx[..delimiter];
        rx := rx[delimiter + 1..];
        if frame == [] {
          assert PacketsIn(frame) + Parsed(rx) == Parsed(rx);
          continue;
        }
        var packet := DecodePacketHost(frame);
        if packet.None? {
          assert PacketsIn(frame) + Parsed(rx) == Parsed(rx);
          return ProtocolError;
        }
        packetsRead := packetsRead + 1;
        return Found(packet.value);
      }
    }

    /** Reads until a packet is complete or the reads that return before the deadline are used up. */
    method ReadPacket(port: seq<Read>) returns (packet: Option<Packet>, taken: nat)
      modifies this
      ensures taken <= |port|
      ensures packet.Some? ==> Delivered(old(rx), port) == [packet.value] + Delivered(rx, port[taken..])
      ensures packet.Some? && taken == 0 ==> |rx| < |old(rx)|
      ensures packet.None? ==>
        && taken == |port| && Delivered(old(rx), port) == []
        && Parsed(rx) == [] && Tail(rx) == rx && |rx| <= RX_LIMIT
        && Errors(rx, []) == Overflows(rx, []) == 0
      ensures packetsRead == old(packetsRead) + if packet.Some? then 1 else 0
      ensures bytesRead == old(bytesRead) + |Flat(port[..taken])|
      ensures protocolErrors + Errors(rx, port[taken..]) == old(protocolErrors) + Errors(old(rx), port)
      ensures rxOverflows + Overflows(rx, port[taken..]) == old(rxOverflows) + Overflows(old(rx), port)
      ensures timeouts == old(timeouts) + if packet.None? then 1 else 0
    {
      hide Delivered, Errors, Overflows, Flat, Parsed, Tail, Kept, FirstZero, BadFrames;
      taken := 0;
      assert port[0..] == port && port[..0] == [];
      FlatNothing();
      while true
        invariant taken <= |port|
        invariant Delivered(rx, port[taken..]) == Delivered(old(rx), port)
        invariant protocolErrors + Errors(rx, port[taken..]) == old(protocolErrors) + Errors(old(rx), port)
        invariant rxOverflows + Overflows(rx, port[taken..]) == old(rxOverflows) + Overflows(old(rx), port)
        invariant taken == 0 ==> |rx| <= |old(rx)|
        invariant packetsRead == old(packetsRead) && timeouts == old(timeouts)
        invariant bytesRead == old(bytesRead) + |Flat(port[..taken])|
        decreases |port| - taken, |rx|
      {
        ghost var before, unread, overflows := rx, port[taken..], rxOverflows;
        var result := ReadBufferedPacket();
        match result {
          case ProtocolError =>
            protocolErrors := protocolErrors + 1;
            if rxOverflows == overflows {
              AfterBadFrame(before, rx, unread);
            } else {
              AfterOverflow(before, unread);
            }
          case Found(p) =>
            packet := Some(p);
            AfterPacket(before, p, rx, unread);
            return;
          case NoPacket =>
            AfterNothing(before, rx, unread);
            if taken == |port| {
              timeouts := timeouts + 1;
              return None, taken;
            }
            var chunk := port[taken];
            assert unread[0] == chunk && unread[1..] == port[taken + 1..];
            FlatNext(port, taken);
            taken := taken + 1;
            bytesRead := bytesRead + |chunk|;
            rx := rx + chunk;
        }
      }
    }

    /** Reading until the port runs dry delivers the whole specification list, and counts what happened on the way. */
    method Drain(port: seq<Read>) returns (packets: seq<Packet>)
      modifies this
      ensures packets == Delivered(old(rx), port)
      ensures packetsRead == old(packetsRead) + |packets|
      ensures protocolErrors == old(protocolErrors) + Errors(old(rx), port)
      ensures rxOverflows == old(rxOverflows) + Overflows(old(rx), port)
    {
      hide Delivered, Errors, Overflows, Flat, Parsed, Tail;
      packets := [];
      var unread := port;
      while true
        invariant packets + Delivered(rx, unread) == Delivered(old(rx), port)
        invariant packetsRead == old(packetsRead) + |packets|
        invariant protocolErrors + Errors(rx, unread) == old(protocolErrors) + Errors(old(rx), port)
        invariant rxOverflows + Overflows(rx, unread) == old(rxOverflows) + Overflows(old(rx), port)
        decreases |unread|, |rx|
      {
        ghost var before, left := rx, unread;
        var packet, taken := ReadPacket(unread);
        unread := unread[taken..];
        if packet.None? {
          assert unread == [] && Delivered(before, left) == [];
          return;
        }
        assert packets + ([packet.value] + Delivered(rx, unread)) == packets + [packet.value] + Delivered(rx, unread);
        packets := packets + [packet.value];
      }
    }
  }

  lemma FlatNothing()
    ensures Flat([]) == []
  {}

  lemma {:induction false} FlatConcat(s: seq<seq<byte>>, t: seq<seq<byte>>)
    ensures Flat(s + t) == Flat(s) + Flat(t)
    decreases |s|
  {
    if s == [] {
      assert s + t == t;
    } else {
      FlatConcat(s[1..], t);
      assert (s + t)[1..] == s[1..] + t;
    }
  }

  lemma FlatNext(chunks: seq<seq<byte>>, i: nat)
    requires i < |chunks|
    ensures |Flat(chunks[..i + 1])| == |Flat(chunks[..i])| + |chunks[i]|
  {
    assert chunks[..i + 1] == chunks[..i] + [chunks[i]];
    FlatConcat(chunks[..i], [chunks[i]]);
    assert Flat([chunks[i]]) == chunks[i];
  }

  lemma AfterBadFrame(before: seq<byte>, rx: seq<byte>, chunks: seq<seq<byte>>)
    requires Parsed(before) == Parsed(rx) && Tail(rx) == Tail(before) && BadFrames(before) == 1 + BadFrames(rx)
    ensures Delivered(before, chunks) == Delivered(rx, chunks)
    ensures Errors(before, chunks) == 1 + Errors(rx, chunks) && Overflows(before, chunks) == Overflows(rx, chunks)
  {
    hide Parsed, Tail, BadFrames;
  }

  lemma AfterOverflow(before: seq<byte>, chunks: seq<seq<byte>>)
    requires |Tail(before)| > RX_LIMIT && Parsed(before) == [] && BadFrames(before) == 0
    ensures Delivered(before, chunks) == Delivered([], chunks)
    ensures Errors(before, chunks) == 1 + Errors([], chunks) && Overflows(before, chunks) == 1 + Overflows([], chunks)
  {
    assert Parsed([]) == [] && Tail([]) == [] && BadFrames([]) == 0;
    hide Parsed, Tail, BadFrames;
  }

  lemma AfterPacket(before: seq<byte>, p: Packet, rx: seq<byte>, chunks: seq<seq<byte>>)
    requires Parsed(before) == [p] + Parsed(rx) && Tail(rx) == Tail(before) && BadFrames(before) == BadFrames(rx)
    ensures Delivered(before, chunks) == [p] + Delivered(rx, chunks)
    ensures Errors(before, chunks) == Errors(rx, chunks) && Overflows(before, chunks) == Overflows(rx, chunks)
  {
    hide Parsed, Tail, Kept, BadFrames;
    var later := if chunks == [] then [] else Delivered(Kept(Tail(rx)) + chunks[0], chunks[1..]);
    assert [p] + Parsed(rx) + later == [p] + (Parsed(rx) + later);
  }

  lemma AfterNothing(before: seq<byte>, rx: seq<byte>, chunks: seq<seq<byte>>)
    requires Parsed(before) == [] && BadFrames(before) == 0
    requires rx == Tail(before) && FirstZero(rx) == |rx| <= RX_LIMIT
    ensures Parsed(rx) == [] && Tail(rx) == rx
    ensures
      if chunks == [] then
        && Delivered(before, chunks) == Delivered(rx, chunks) == []
        && Errors(before, chunks) == Errors(rx, chunks) == 0 && Overflows(before, chunks) == Overflows(rx, chunks) == 0
      else
        && Delivered(before, chunks) == Delivered(rx + chunks[0], chunks[1..])
        && Errors(before, chunks) == Errors(rx + chunks[0], chunks[1..])
        && Overflows(before, chunks) == Overflows(rx + chunks[0], chunks[1..])
  {
    assert BadFrames(rx) == 0;
  }
}
