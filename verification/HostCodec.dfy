/**
  The host's `codec.py`: the same wire format written again over growable byte strings. Each routine here is proved
  against the specification that the firmware's buffer routines are proved against.
 */
module HostCodec {
  import opened Bytes
  import opened BitFacts
  import opened BitValues
  import opened CrcRegister
  import opened Crc
  import opened Cobs
  import opened Protocol

  // ----- CRC, on integers masked to sixteen bits; seventeen hold every intermediate value -----

  function Wide(c: bv16): bv17 { c as bv17 }

  lemma WideTop(c: bv16)
    ensures Wide(c) & 0x8000 != 0 <==> Top(c)
  {}

  lemma MaskedShift(c: bv16)
    ensures ((c as bv17) << 1) & 0xFFFF == (c << 1) as bv17
  {}

  lemma MaskedXor(x: bv17)
    ensures (x ^ 0x1021) & 0xFFFF == (x & 0xFFFF) ^ 0x1021
  {}

  lemma WidenedXor(c: bv16)
    ensures (c as bv17) ^ 0x1021 == (c ^ 0x1021) as bv17
  {}

  lemma WideDouble(c: bv16)
    ensures (Wide(c) << 1) & 0xFFFF == Wide(Double(c))
  {
    calc {
      (Wide(c) << 1) & 0xFFFF;
      ((c as bv17) << 1) & 0xFFFF;
      { hide *; MaskedShift(c); }
      (c << 1) as bv17;
      Wide(Double(c));
    }
  }

  lemma WideReduce(c: bv16)
    ensures ((Wide(c) << 1) ^ 0x1021) & 0xFFFF == Wide(Xor(Double(c), 0x1021))
  {
    var d := Double(c);
    calc {
      ((Wide(c) << 1) ^ 0x1021) & 0xFFFF;
      { hide *; MaskedXor(Wide(c) << 1); }
      ((Wide(c) << 1) & 0xFFFF) ^ 0x1021;
      { hide *; WideDouble(c); }
      Wide(d) ^ 0x1021;
      (d as bv17) ^ 0x1021;
      { hide *; WidenedXor(d); }
      (d ^ 0x1021) as bv17;
      Wide(Xor(d, 0x1021));
    }
  }

  lemma WideFeed(c: bv16, b: bv16)
    requires b < 0x100
    ensures Wide(c) ^ (Wide(b) << 8) == Wide(Xor(c, Raise(b)))
  {}

  lemma WideNarrow(c: bv16)
    ensures Wide(c) <= 0xFFFF && Wide(c) as bv16 == c
  {}

  method ShiftHost(register: bv17, ghost c: bv16) returns (next: bv17)
    requires register == Wide(c)
    ensures next == Wide(Shift(c))
  {
    hide *;
    WideTop(c);
    WideDouble(c);
    WideReduce(c);
    ShiftIs(c);
    if register & 0x8000 != 0 {
      next := ((register << 1) ^ 0x1021) & 0xFFFF;
    } else {
      next := (register << 1) & 0xFFFF;
    }
  }

  lemma ShiftIs(c: bv16)
    ensures Shift(c) == if Top(c) then Xor(Double(c), 0x1021) else Double(c)
  {
    hide Top, Xor, Double;
  }

  method FeedHost(register: bv17, b: byte, ghost c: bv16) returns (next: bv17)
    requires register == Wide(c)
    ensures next == Wide(CrcByte(c, b))
  {
    hide Wide, Xor, Raise, Bits, Shift;
    ValueOfBits(b);
    WideFeed(c, Bits(b));
    next := register ^ (Wide(Bits(b)) << 8);
    ghost var fed := Xor(c, Aligned(b));
    for bit := 0 to 8
      invariant next == Wide(Shifts(fed, bit))
    {
      next := ShiftHost(next, Shifts(fed, bit));
    }
  }

  method Crc16CcittHost(data: seq<byte>) returns (crc: uint16)
    ensures crc == Crc16(data)
  {
    hide Wide, CrcByte, Value;
    var register: bv17 := 0xFFFF;
    WideInitial();
    for i := 0 to |data|
      invariant register == Wide(CrcFrom(INITIAL, data[..i]))
    {
      CrcFromConcat(INITIAL, data[..i], [data[i]]);
      assert data[..i + 1] == data[..i] + [data[i]];
      register := FeedHost(register, data[i], CrcFrom(INITIAL, data[..i]));
    }
    assert data[..|data|] == data;
    WideNarrow(Register(data));
    crc := Value(register as bv16);
  }

  lemma WideInitial()
    ensures 0xFFFF == Wide(INITIAL)
  {}

  // ----- COBS, on byte strings -----

  method CobsEncodeHost(data: seq<byte>) returns (out: seq<byte>)
    ensures out == Encoded(data)
  {
    hide EncodeFrom;
    out := [0];
    var codeIndex: nat := 0;
    var code: byte := 1;
    ghost var done: seq<byte>, run: seq<byte> := [], [];
    EncodedFromNothing(data);
    assert data[0..] == data;
    for i := 0 to |data|
      invariant |run| == code - 1 < MAX_RUN && codeIndex == |done|
      invariant out == done + [0] + run
      invariant done + EncodeFrom(data[i..], run) == Encoded(data)
    {
      ghost var rest := data[i..];
      assert rest[0] == data[i] && rest[1..] == data[i + 1..];
      if data[i] == 0 {
        StepZero(done, run, rest);
        out := out[codeIndex := code];
        codeIndex := |out|;
        out := out + [0];
        done, run := done + [code] + run, [];
        code := 1;
      } else {
        out := out + [data[i]];
        code := code + 1;
        if code == 0xFF {
          StepFull(done, run, rest);
          out := out[codeIndex := code];
          codeIndex := |out|;
          out := out + [0];
          done, run := done + [code] + (run + [rest[0]]), [];
          code := 1;
        } else {
          StepByte(done, run, rest);
          run := run + [rest[0]];
        }
      }
    }
    assert data[|data|..] == [];
    EncodeEnd(run);
    out := out[codeIndex := code];
  }

  method CobsDecodeHost(data: seq<byte>) returns (result: Option<seq<byte>>)
    ensures result == Decoded(data)
  {
    hide Decoded, Remains;
    var out: seq<byte> := [];
    var index: nat := 0;
    assert data[0..] == data;
    RemainsInitially(data);
    while index < |data|
      invariant index <= |data|
      invariant Remains(data, out, data[index..])
    {
      ghost var f := data[index..];
      RemainsAfterBlock(data, out, f);
      var code := data[index];
      if code == 0 {
        return None;
      }
      index := index + 1;
      var blockEnd := index + code - 1;
      if blockEnd > |data| {
        return None;
      }
      assert f == data[index - 1..];
      assert f[1..code] == data[index..blockEnd];
      assert f[code..] == data[blockEnd..];
      out := out + data[index..blockEnd];
      index := blockEnd;
      if code < 0xFF && index < |data| {
        out := out + [0];
      } else {
        assert out + [] == out;
      }
    }
    assert data[index..] == [];
    RemainsFinally(data, out);
    return Some(out);
  }

  // ----- Packets -----

  method EncodePacketHost(msgId: int, number: int, payload: seq<byte>, flags: int) returns (frame: Option<seq<byte>>)
    ensures frame.Some? <==>
      0 <= msgId < 0x100 && 0 <= flags < 0x100 && 0 <= number < 0x1_0000 && |payload| <= MAX_PAYLOAD_SIZE
    ensures frame.Some? ==> frame.value == Frame(Packet(msgId, flags, number, payload))
  {
    if !(0 <= msgId <= 0xFF) || !(0 <= flags <= 0xFF) || !(0 <= number <= 0xFFFF) || |payload| > MAX_PAYLOAD_SIZE {
      return None;
    }
    hide Crc16, Encoded;
    var raw: seq<byte> := [PROTOCOL_VERSION, msgId, flags] + Le16(number) + Le16(|payload|) + payload;
    var crc := Crc16CcittHost(raw);
    raw := raw + Le16(crc);
    var encoded := CobsEncodeHost(raw);
    return Some(encoded + [0]);
  }

  /** Host and firmware accept the same frames and read the same packet from them. */
  method DecodePacketHost(frame: seq<byte>) returns (packet: Option<Packet>)
    ensures packet == match DecodeFrame(frame) { case Accepted(p) => Some(p) case Rejected(_) => None }
  {
    hide Decoded, Crc16;
    var decoded := CobsDecodeHost(frame);
    if decoded.None? {
      return None;
    }
    var raw := decoded.value;
    if |raw| < HEADER_SIZE + 2 {
      return None;
    }
    if raw[0] != PROTOCOL_VERSION {
      return None;
    }
    var payloadLength := U16At(raw, 5);
    if payloadLength > MAX_PAYLOAD_SIZE {
      return None;
    }
    if |raw| != HEADER_SIZE + payloadLength + 2 {
      return None;
    }
    var expected := U16At(raw, HEADER_SIZE + payloadLength);
    var actual := Crc16CcittHost(raw[..HEADER_SIZE + payloadLength]);
    if actual != expected {
      return None;
    }
    return Some(Packet(raw[1], raw[2], U16At(raw, 3), raw[HEADER_SIZE..HEADER_SIZE + payloadLength]));
  }
}
