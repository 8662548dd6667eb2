/** The packet layout of `protocol_v2.cpp`: one packet, one frame, and exactly the frames that decode. */
module Protocol {
  import opened Bytes
  import opened Crc
  import opened CrcDetection
  import opened Cobs

  const PROTOCOL_VERSION: byte := 2
  const MAX_PAYLOAD_SIZE := 128
  const HEADER_SIZE := 7
  const CRC_SIZE := 2
  const MAX_RAW_PACKET_SIZE := HEADER_SIZE + MAX_PAYLOAD_SIZE + CRC_SIZE
  const MAX_FRAME_SIZE := MAX_RAW_PACKET_SIZE + 4

  datatype Packet = Packet(msgId: byte, flags: byte, number: uint16, payload: seq<byte>) {
    /** The payload length fits its 16-bit field. */
    predicate Representable() { |payload| < 0x1_0000 }

    predicate Sendable() { |payload| <= MAX_PAYLOAD_SIZE }
  }

  datatype FrameError = BadPayload | BadVersion | BadCrc

  datatype Reception = Accepted(packet: Packet) | Rejected(error: FrameError)

  function Body(p: Packet): (b: seq<byte>)
    requires p.Representable()
    ensures |b| == HEADER_SIZE + |p.payload|
  {
    [PROTOCOL_VERSION, p.msgId, p.flags] + Le16(p.number) + Le16(|p.payload|) + p.payload
  }

  function Raw(p: Packet): seq<byte>
    requires p.Representable()
  {
    Body(p) + Le16(Crc16(Body(p)))
  }

  /** The bytes on the wire, delimiter included. */
  function Frame(p: Packet): seq<byte>
    requires p.Representable()
  {
    Encoded(Raw(p)) + [0]
  }

  function ParseRaw(raw: seq<byte>): Reception {
    if |raw| < HEADER_SIZE + CRC_SIZE then Rejected(BadPayload)
    else if raw[0] != PROTOCOL_VERSION then Rejected(BadVersion)
    else
      var length := U16At(raw, 5);
      if length > MAX_PAYLOAD_SIZE || |raw| != HEADER_SIZE + length + CRC_SIZE then Rejected(BadPayload)
      else if U16At(raw, HEADER_SIZE + length) != Crc16(raw[..HEADER_SIZE + length]) then Rejected(BadCrc)
      else Accepted(Packet(raw[1], raw[2], U16At(raw, 3), raw[HEADER_SIZE..HEADER_SIZE + length]))
  }

  /** What the receiver makes of the bytes between two delimiters. */
  function DecodeFrame(f: seq<byte>): Reception {
    match Decoded(f)
    case None => Rejected(BadPayload)
    case Some(raw) => if |raw| > MAX_RAW_PACKET_SIZE then Rejected(BadPayload) else ParseRaw(raw)
  }

  // ----- Raw packets -----

  lemma BodyFields(p: Packet)
    requires p.Representable()
    ensures
      var b := Body(p);
      && b[0] == PROTOCOL_VERSION && b[1] == p.msgId && b[2] == p.flags
      && U16At(b, 3) == p.number && U16At(b, 5) == |p.payload| && b[HEADER_SIZE..] == p.payload
  {
    var b := Body(p);
    assert b[3..5] == Le16(p.number);
    assert b[5..7] == Le16(|p.payload|);
    U16RoundTrip(b, 3, p.number);
    U16RoundTrip(b, 5, |p.payload|);
  }

  /** A raw packet is accepted as `p` exactly when it is the one raw packet the sender makes of `p`. */
  lemma RawCanonical(raw: seq<byte>, p: Packet)
    ensures ParseRaw(raw) == Accepted(p) <==> p.Sendable() && raw == Raw(p)
  {
    if p.Sendable() && raw == Raw(p) {
      AcceptsRaw(p);
    }
    if ParseRaw(raw) == Accepted(p) {
      RebuildsRaw(raw, p);
    }
  }

  lemma AcceptsRaw(p: Packet)
    requires p.Sendable()
    ensures ParseRaw(Raw(p)) == Accepted(p)
  {
    hide Crc16;
    var b, raw := Body(p), Raw(p);
    var n := HEADER_SIZE + |p.payload|;
    BodyFields(p);
    assert raw[..n] == b;
    assert raw[n..n + 2] == Le16(Crc16(b));
    U16RoundTrip(raw, n, Crc16(b));
    assert raw[HEADER_SIZE..n] == b[HEADER_SIZE..];
  }

  lemma RebuildsRaw(raw: seq<byte>, p: Packet)
    requires ParseRaw(raw) == Accepted(p)
    ensures p.Sendable() && raw == Raw(p)
  {
    hide Crc16;
    var n := HEADER_SIZE + |p.payload|;
    var length := U16At(raw, 5);
    assert |p.payload| == length;
    U16RoundTrip(raw, 3, p.number);
    U16RoundTrip(raw, 5, length);
    assert raw[..n] == [raw[0], raw[1], raw[2]] + raw[3..5] + raw[5..7] + raw[HEADER_SIZE..n];
    assert raw[..n] == Body(p);
    U16RoundTrip(raw, n, Crc16(Body(p)));
    assert raw == raw[..n] + raw[n..n + 2];
  }

  /** A CRC error is reported exactly for some packet's body followed by a field that is not its CRC. */
  lemma BadCrcExactly(raw: seq<byte>)
    ensures ParseRaw(raw) == Rejected(BadCrc) <==>
      CRC_SIZE <= |raw| && !Sealed(raw) && exists p: Packet :: p.Sendable() && Body(p) == raw[..|raw| - CRC_SIZE]
  {
    hide Crc16, Body;
    if ParseRaw(raw) == Rejected(BadCrc) {
      var n := |raw| - CRC_SIZE;
      var p := Packet(raw[1], raw[2], U16At(raw, 3), raw[HEADER_SIZE..n]);
      RebuildsBody(raw, p);
      assert p.Sendable() && Body(p) == raw[..n];
    }
    if p: Packet :| CRC_SIZE <= |raw| && !Sealed(raw) && p.Sendable() && Body(p) == raw[..|raw| - CRC_SIZE] {
      BodyFields(p);
      BodySlices(raw, p);
    }
  }

  lemma RebuildsBody(raw: seq<byte>, p: Packet)
    requires |raw| == HEADER_SIZE + |p.payload| + CRC_SIZE && p.Sendable() && raw[0] == PROTOCOL_VERSION
    requires p == Packet(raw[1], raw[2], U16At(raw, 3), raw[HEADER_SIZE..|raw| - CRC_SIZE])
        && U16At(raw, 5) == |p.payload|
    ensures Body(p) == raw[..|raw| - CRC_SIZE]
  {
    var n := |raw| - CRC_SIZE;
    U16RoundTrip(raw, 3, p.number);
    U16RoundTrip(raw, 5, |p.payload|);
    assert raw[..n] == [raw[0], raw[1], raw[2]] + raw[3..5] + raw[5..7] + raw[HEADER_SIZE..n];
  }

  lemma BodySlices(raw: seq<byte>, p: Packet)
    requires p.Sendable() && |raw| == HEADER_SIZE + |p.payload| + CRC_SIZE && Body(p) == raw[..|raw| - CRC_SIZE]
    ensures raw[0] == PROTOCOL_VERSION && U16At(raw, 5) == |p.payload|
  {
    BodyFields(p);
    assert raw[5] == Body(p)[5] && raw[6] == Body(p)[6];
  }

  // ----- Frames -----

  lemma FrameLength(p: Packet)
    requires p.Sendable()
    ensures |Frame(p)| == |p.payload| + HEADER_SIZE + CRC_SIZE + 2
    ensures |Frame(p)| <= MAX_FRAME_SIZE
  {
    EncodedLength(Raw(p));
  }

  lemma FrameDelimited(p: Packet)
    requires p.Sendable()
    ensures ZeroFree(Frame(p)[..|Frame(p)| - 1]) && Frame(p)[|Frame(p)| - 1] == 0
  {
    EncodedZeroFree(Raw(p));
    assert Frame(p)[..|Frame(p)| - 1] == Encoded(Raw(p));
  }

  /**
    A zero-free frame is accepted as `p` exactly when it is the frame the sender makes of `p`: accepted frames and
    sendable packets correspond one to one.
   */
  lemma FrameCanonical(f: seq<byte>, p: Packet)
    requires f != [] && ZeroFree(f)
    ensures DecodeFrame(f) == Accepted(p) <==> p.Sendable() && Frame(p) == f + [0]
  {
    hide ParseRaw, Raw, Encoded, Decoded, EndsFull;
    if DecodeFrame(f) == Accepted(p) {
      var raw := Decoded(f).value;
      RawCanonical(raw, p);
      EncodeDecoded(f);
      if EndsFull(f) {
        FullBlockIsLong(f);
      }
      assert Encoded(raw) == f;
    }
    if p.Sendable() && Frame(p) == f + [0] {
      assert f == (f + [0])[..|f|] == Encoded(Raw(p));
      DecodeEncoded(Raw(p));
      RawCanonical(Raw(p), p);
      RawLength(p);
    }
  }

  lemma RawLength(p: Packet)
    requires p.Representable()
    ensures |Raw(p)| == HEADER_SIZE + |p.payload| + CRC_SIZE
  {}

  lemma FrameInjective(p: Packet, q: Packet)
    requires p.Sendable() && q.Sendable() && Frame(p) == Frame(q)
    ensures p == q
  {
    hide Frame, DecodeFrame;
    FrameLength(p);
    FrameDelimited(p);
    var f := Frame(p)[..|Frame(p)| - 1];
    assert Frame(p) == f + [0];
    FrameCanonical(f, p);
    FrameCanonical(f, q);
  }

  // ----- Damaged packets -----

  /** Acceptance needs the CRC field to match. */
  lemma AcceptedIsSealed(raw: seq<byte>)
    requires ParseRaw(raw).Accepted?
    ensures Sealed(raw) && |raw| >= HEADER_SIZE + CRC_SIZE
  {
    hide Crc16;
  }

  /** Any burst of at most 16 bits before the CRC field of an accepted packet makes the receiver reject it. */
  lemma BurstRejected(raw: seq<byte>, damaged: seq<byte>, at: nat, skip: nat)
    requires ParseRaw(raw).Accepted? && damaged != raw
    requires DifferInBurst(raw, damaged, at, skip) && at + 3 <= |raw| - CRC_SIZE
    ensures ParseRaw(damaged).Rejected?
  {
    hide ParseRaw, Sealed, DifferInBurst;
    AcceptedIsSealed(raw);
    BurstDetected(raw, damaged, at, skip);
    if ParseRaw(damaged).Accepted? {
      AcceptedIsSealed(damaged);
    }
  }

  /** Damage to two adjacent bytes, both before the CRC field or both in it, makes the receiver reject the packet. */
  lemma TwoByteWindowRejected(raw: seq<byte>, damaged: seq<byte>, at: nat)
    requires ParseRaw(raw).Accepted? && |damaged| == |raw| && damaged != raw
    requires at + 2 <= |raw| - CRC_SIZE || at == |raw| - CRC_SIZE
    requires at + 2 <= |raw| && damaged[..at] == raw[..at] && damaged[at + 2..] == raw[at + 2..]
    ensures ParseRaw(damaged).Rejected?
  {
    hide ParseRaw, Sealed;
    if at == |raw| - CRC_SIZE {
      AcceptedIsSealed(raw);
      FieldDamaged(raw, damaged);
    } else {
      BodyDamaged(raw, damaged, at);
    }
  }

  lemma BodyDamaged(raw: seq<byte>, damaged: seq<byte>, at: nat)
    requires ParseRaw(raw).Accepted? && |damaged| == |raw| && damaged != raw
    requires at + 2 <= |raw| - CRC_SIZE && damaged[..at] == raw[..at] && damaged[at + 2..] == raw[at + 2..]
    ensures ParseRaw(damaged).Rejected?
  {
    AcceptedIsSealed(raw);
    hide ParseRaw, Sealed, DifferInBurst;
    var n := |raw| - CRC_SIZE;
    WindowOfBody(raw, damaged, n, at);
    TwoBytesAreABurst(raw[..n], damaged[..n], at);
    var start, skip := if at + 3 <= n then at else at - 1, if at + 3 <= n then 0 else 8;
    WidenBurst(raw, damaged, n, start, skip);
    BurstRejected(raw, damaged, start, skip);
  }

  lemma WindowOfBody(raw: seq<byte>, damaged: seq<byte>, n: nat, at: nat)
    requires |damaged| == |raw| && damaged != raw && at + 2 <= n <= |raw|
    requires damaged[..at] == raw[..at] && damaged[at + 2..] == raw[at + 2..]
    ensures raw[n..] == damaged[n..] && raw[..n] != damaged[..n]
    ensures raw[..n][..at] == damaged[..n][..at] && raw[..n][at + 2..] == damaged[..n][at + 2..]
  {
    var s, t := raw[..n], damaged[..n];
    assert s[..at] == raw[..at] && t[..at] == damaged[..at];
    assert s[at + 2..] == raw[at + 2..][..n - at - 2] && t[at + 2..] == damaged[at + 2..][..n - at - 2];
    assert raw[n..] == raw[at + 2..][n - at - 2..] && damaged[n..] == damaged[at + 2..][n - at - 2..];
    assert raw == s + raw[n..] && damaged == t + damaged[n..];
  }

  lemma WidenBurst(raw: seq<byte>, damaged: seq<byte>, n: nat, at: nat, skip: nat)
    requires |raw| == |damaged| && n <= |raw| && raw[n..] == damaged[n..]
    requires DifferInBurst(raw[..n], damaged[..n], at, skip)
    ensures DifferInBurst(raw, damaged, at, skip)
  {
    var s, t := raw[..n], damaged[..n];
    assert raw[..at] == s[..at] && damaged[..at] == t[..at];
    assert raw[at + 3..] == s[at + 3..] + raw[n..] && damaged[at + 3..] == t[at + 3..] + damaged[n..];
  }

  lemma FieldDamaged(raw: seq<byte>, damaged: seq<byte>)
    requires Sealed(raw) && |damaged| == |raw| && damaged != raw && damaged[..|raw| - 2] == raw[..|raw| - 2]
    ensures ParseRaw(damaged).Rejected?
  {
    hide Crc16;
    var n := |raw| - 2;
    U16RoundTrip(raw, n, U16At(raw, n));
    U16RoundTrip(damaged, n, U16At(raw, n));
    assert raw[n..] == raw[n..n + 2] && damaged[n..] == damaged[n..n + 2];
    if ParseRaw(damaged).Accepted? {
      AcceptedIsSealed(damaged);
      SameParts(raw, damaged, n);
    }
  }

  /** Flipping any odd number of bits of an accepted packet makes the receiver reject it. */
  lemma OddFlipsRejected(raw: seq<byte>, damaged: seq<byte>)
    requires ParseRaw(raw).Accepted? && |damaged| == |raw|
    requires FlipsBetween(raw, damaged) % 2 == 1
    ensures ParseRaw(damaged).Rejected?
  {
    hide ParseRaw, Sealed, FlipsBetween;
    AcceptedIsSealed(raw);
    OddFlipsDetected(raw, damaged);
    if ParseRaw(damaged).Accepted? {
      AcceptedIsSealed(damaged);
    }
  }

  // ----- The buffers -----

  method EncodePacket(p: Packet, frame: array<byte>, capacity: nat) returns (ok: bool, frameLength: nat)
    requires p.Representable() && capacity <= frame.Length
    modifies frame
    ensures ok <==> p.Sendable() && |Frame(p)| <= capacity
    ensures ok ==> frameLength <= capacity && frame[..frameLength] == Frame(p)
    ensures forall i :: capacity <= i < frame.Length ==> frame[i] == old(frame[i])
  {
    if |p.payload| > MAX_PAYLOAD_SIZE {
      return false, 0;
    }
    var raw := new byte[MAX_RAW_PACKET_SIZE];
    var rawWithoutCrc := HEADER_SIZE + |p.payload|;
    WriteBody(p, raw);
    var crc := Crc16Ccitt(raw, rawWithoutCrc);
    assert raw[..rawWithoutCrc] == Body(p);
    WriteU16(raw, rawWithoutCrc, crc);
    hide Crc16, Encoded;
    assert raw[..rawWithoutCrc + CRC_SIZE] == Raw(p);
    var encodedLength := CobsEncode(raw, rawWithoutCrc + CRC_SIZE, frame, capacity);
    EncodedLength(Raw(p));
    if encodedLength == 0 || encodedLength + 1 > capacity {
      return false, 0;
    }
    frame[encodedLength] := 0;
    assert frame[..encodedLength + 1] == Encoded(Raw(p)) + [0];
    return true, encodedLength + 1;
  }

  method WriteBody(p: Packet, raw: array<byte>)
    requires p.Sendable() && raw.Length == MAX_RAW_PACKET_SIZE
    modifies raw
    ensures raw[..HEADER_SIZE + |p.payload|] == Body(p)
  {
    raw[0] := PROTOCOL_VERSION;
    raw[1] := p.msgId;
    raw[2] := p.flags;
    WriteU16(raw, 3, p.number);
    WriteU16(raw, 5, |p.payload|);
    assert raw[..HEADER_SIZE] == [PROTOCOL_VERSION, p.msgId, p.flags] + Le16(p.number) + Le16(|p.payload|);
    ghost var header := raw[..HEADER_SIZE];
    forall i | 0 <= i < |p.payload| {
      raw[HEADER_SIZE + i] := p.payload[i];
    }
    assert raw[..HEADER_SIZE] == header;
    assert raw[HEADER_SIZE..HEADER_SIZE + |p.payload|] == p.payload;
    assert raw[..HEADER_SIZE + |p.payload|] == raw[..HEADER_SIZE] + raw[HEADER_SIZE..HEADER_SIZE + |p.payload|];
  }

  method DecodePacket(frame: array<byte>, frameLength: nat) returns (result: Reception)
    requires frameLength <= frame.Length
    ensures result == DecodeFrame(frame[..frameLength])
  {
    hide Decoded, Crc16;
    var raw := new byte[MAX_RAW_PACKET_SIZE];
    var ok, rawLength := CobsDecode(frame, frameLength, raw, raw.Length);
    if !ok {
      return Rejected(BadPayload);
    }
    ghost var view := raw[..rawLength];
    if rawLength < HEADER_SIZE + CRC_SIZE {
      return Rejected(BadPayload);
    }
    if raw[0] != PROTOCOL_VERSION {
      return Rejected(BadVersion);
    }
    var payloadLength := ReadU16(raw, 5);
    assert payloadLength == U16At(view, 5);
    if payloadLength > MAX_PAYLOAD_SIZE || rawLength != HEADER_SIZE + payloadLength + CRC_SIZE {
      return Rejected(BadPayload);
    }
    var expected := ReadU16(raw, HEADER_SIZE + payloadLength);
    var actual := Crc16Ccitt(raw, HEADER_SIZE + payloadLength);
    assert raw[..HEADER_SIZE + payloadLength] == view[..HEADER_SIZE + payloadLength];
    if expected != actual {
      return Rejected(BadCrc);
    }
    var number := ReadU16(raw, 3);
    assert raw[HEADER_SIZE..HEADER_SIZE + payloadLength] == view[HEADER_SIZE..HEADER_SIZE + payloadLength];
    return Accepted(Packet(raw[1], raw[2], number, raw[HEADER_SIZE..HEADER_SIZE + payloadLength]));
  }
}
