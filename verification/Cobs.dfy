/** Consistent Overhead Byte Stuffing as `cobs.cpp` performs it, with capacity checks, on buffers. */
module Cobs {
  import opened Bytes

  const MAX_RUN := 254

  predicate ZeroFree(s: seq<byte>) { forall i :: 0 <= i < |s| ==> s[i] != 0 }

  function Code(n: nat): byte
    requires n <= MAX_RUN
  {
    n + 1
  }

  /** Encoding of `s` when the block being built already holds the nonzero bytes `run`. */
  function EncodeFrom(s: seq<byte>, run: seq<byte>): seq<byte>
    requires |run| < MAX_RUN
    decreases |s|
  {
    if s == [] then [Code(|run|)] + run
    else if s[0] == 0 then [Code(|run|)] + run + EncodeFrom(s[1..], [])
    else if |run| + 1 == MAX_RUN then [Code(MAX_RUN)] + (run + [s[0]]) + EncodeFrom(s[1..], [])
    else EncodeFrom(s[1..], run + [s[0]])
  }

  function Encoded(s: seq<byte>): seq<byte> { EncodeFrom(s, []) }

  function Decoded(f: seq<byte>): Option<seq<byte>>
    decreases |f|
  {
    if f == [] then Some([])
    else if f[0] == 0 || f[0] > |f| then None
    else
      var rest := f[f[0]..];
      var stuffed: seq<byte> := if f[0] <= MAX_RUN && rest != [] then [0] else [];
      match Decoded(rest)
      case None => None
      case Some(tail) => Some(f[1..f[0]] + stuffed + tail)
  }

  // ----- Size and shape of an encoding -----

  /** Blocks of 254 nonzero bytes completed while encoding `s` with `run` bytes already in the block. */
  function FullBlocks(s: seq<byte>, run: nat): nat
    requires run < MAX_RUN
    decreases |s|
  {
    if s == [] then 0
    else if s[0] == 0 then FullBlocks(s[1..], 0)
    else if run + 1 == MAX_RUN then 1 + FullBlocks(s[1..], 0)
    else FullBlocks(s[1..], run + 1)
  }

  lemma {:induction false} EncodeFromLength(s: seq<byte>, run: seq<byte>)
    requires |run| < MAX_RUN
    ensures |EncodeFrom(s, run)| == |run| + |s| + 1 + FullBlocks(s, |run|)
    ensures FullBlocks(s, |run|) * MAX_RUN <= |run| + |s|
    decreases |s|
  {
    if s != [] {
      if s[0] == 0 || |run| + 1 == MAX_RUN {
        EncodeFromLength(s[1..], []);
      } else {
        EncodeFromLength(s[1..], run + [s[0]]);
      }
    }
  }

  /** The overhead is one byte, plus one for each completed 254-byte block. */
  lemma EncodedLength(s: seq<byte>)
    ensures |Encoded(s)| == |s| + 1 + FullBlocks(s, 0)
    ensures FullBlocks(s, 0) <= |s| / MAX_RUN
  {
    EncodeFromLength(s, []);
  }

  lemma {:induction false} EncodeFromZeroFree(s: seq<byte>, run: seq<byte>)
    requires |run| < MAX_RUN && ZeroFree(run)
    ensures ZeroFree(EncodeFrom(s, run))
    decreases |s|
  {
    if s != [] {
      if s[0] == 0 || |run| + 1 == MAX_RUN {
        EncodeFromZeroFree(s[1..], []);
      } else {
        EncodeFromZeroFree(s[1..], run + [s[0]]);
      }
    }
  }

  lemma EncodedZeroFree(s: seq<byte>)
    ensures ZeroFree(Encoded(s))
  {
    EncodeFromZeroFree(s, []);
  }

  // ----- Decoding inverts encoding -----

  lemma DecodeBlock(block: seq<byte>, rest: seq<byte>)
    requires |block| <= MAX_RUN
    ensures
      var stuffed: seq<byte> := if |block| < MAX_RUN && rest != [] then [0] else [];
      Decoded([Code(|block|)] + block + rest)
        == match Decoded(rest) { case None => None case Some(tail) => Some(block + stuffed + tail) }
  {
    var f := [Code(|block|)] + block + rest;
    assert f[0] == |block| + 1;
    assert f[1..f[0]] == block && f[f[0]..] == rest;
  }

  lemma {:induction false} DecodeEncodeFrom(s: seq<byte>, run: seq<byte>)
    requires |run| < MAX_RUN
    ensures Decoded(EncodeFrom(s, run)) == Some(run + s)
    decreases |s|
  {
    hide Decoded;
    if s == [] {
      DecodeBlock(run, []);
      DecodeNothing();
      assert [Code(|run|)] + run + [] == [Code(|run|)] + run;
      assert run + [] + [] == run + s;
    } else if s[0] == 0 {
      DecodeEncodeFrom(s[1..], []);
      EncodeFromLength(s[1..], []);
      DecodeBlock(run, EncodeFrom(s[1..], []));
      assert run + [0] + ([] + s[1..]) == run + s;
    } else if |run| + 1 == MAX_RUN {
      DecodeEncodeFrom(s[1..], []);
      DecodeBlock(run + [s[0]], EncodeFrom(s[1..], []));
      assert run + [s[0]] + [] + ([] + s[1..]) == run + s;
    } else {
      DecodeEncodeFrom(s[1..], run + [s[0]]);
      assert run + [s[0]] + s[1..] == run + s;
    }
  }

  lemma DecodeNothing()
    ensures Decoded([]) == Some([])
  {}

  lemma DecodeEncoded(s: seq<byte>)
    ensures Decoded(Encoded(s)) == Some(s)
  {
    DecodeEncodeFrom(s, []);
    assert [] + s == s;
  }

  // ----- Encoding inverts decoding, except after a final full block -----

  /** The last block of an encoding is a full one, so that no byte marks its end. */
  predicate EndsFull(f: seq<byte>)
    decreases |f|
  {
    && f != []
    && f[0] != 0
    && f[0] <= |f|
    && (if f[0] == |f| then f[0] == Code(MAX_RUN) else EndsFull(f[f[0]..]))
  }

  lemma {:induction false} EncodeRun(block: seq<byte>, s: seq<byte>, run: seq<byte>)
    requires |run| + |block| < MAX_RUN && ZeroFree(block)
    ensures EncodeFrom(block + s, run) == EncodeFrom(s, run + block)
    decreases |block|
  {
    if block == [] {
      assert block + s == s && run + block == run;
    } else {
      assert (block + s)[0] == block[0] && (block + s)[1..] == block[1..] + s;
      EncodeRun(block[1..], s, run + [block[0]]);
      assert run + [block[0]] + block[1..] == run + block;
    }
  }

  lemma EncodeShortBlock(block: seq<byte>, more: seq<byte>)
    requires |block| < MAX_RUN && ZeroFree(block) && (more != [] ==> more[0] == 0)
    ensures Encoded(block + more)
         == [Code(|block|)] + block + (if more == [] then [] else Encoded(more[1..]))
  {
    EncodeRun(block, more, []);
    assert [] + block == block;
  }

  lemma EncodeFullBlock(block: seq<byte>, more: seq<byte>)
    requires |block| == MAX_RUN && ZeroFree(block)
    ensures Encoded(block + more) == [Code(MAX_RUN)] + block + Encoded(more)
  {
    var start, last := block[..MAX_RUN - 1], block[MAX_RUN - 1];
    EncodeRun(start, [last] + more, []);
    assert [] + start == start && start + [last] == block && ([last] + more)[1..] == more;
    assert start + ([last] + more) == block + more;
  }

  /**
    A zero-free frame is the encoding of what it decodes to, short of the 1 that the encoder adds after a full block.
   */
  lemma {:induction false} EncodeDecoded(f: seq<byte>)
    requires f != [] && ZeroFree(f) && Decoded(f).Some?
    ensures Encoded(Decoded(f).value) == f + (if EndsFull(f) then [1] else [])
    decreases |f|
  {
    hide Encoded, Decoded;
    DecodedHead(f);
    DecodedTail(f);
    ZeroFreeParts(f);
    EncodeNothing();
    DecodeNothing();
    var block, rest := f[1..f[0]], f[f[0]..];
    if rest != [] {
      EncodeDecoded(rest);
    }
    var tail := Decoded(rest).value;
    if f[0] <= MAX_RUN {
      var more: seq<byte> := if rest == [] then [] else [0] + tail;
      EncodeShortBlock(block, more);
      assert rest != [] ==> more[1..] == tail;
    } else {
      EncodeFullBlock(block, tail);
    }
  }

  lemma DecodedHead(f: seq<byte>)
    requires f != [] && Decoded(f).Some?
    ensures 0 < f[0] <= |f| && Decoded(f[f[0]..]).Some?
  {}

  lemma Regroup(block: seq<byte>, stuffed: seq<byte>, tail: seq<byte>)
    ensures block + stuffed + tail == block + (stuffed + tail)
    ensures stuffed == [] ==> stuffed + tail == tail
  {}

  lemma DecodedTail(f: seq<byte>)
    requires f != [] && Decoded(f).Some? && 0 < f[0] <= |f| && Decoded(f[f[0]..]).Some?
    ensures
      var tail := Decoded(f[f[0]..]).value;
      Decoded(f).value == f[1..f[0]] + (if f[0] <= MAX_RUN && f[f[0]..] != [] then [0] + tail else tail)
  {
    var block, rest := f[1..f[0]], f[f[0]..];
    var stuffed: seq<byte> := if f[0] <= MAX_RUN && rest != [] then [0] else [];
    Regroup(block, stuffed, Decoded(rest).value);
  }

  lemma ZeroFreeParts(f: seq<byte>)
    requires f != [] && ZeroFree(f) && 0 < f[0] <= |f|
    ensures ZeroFree(f[1..f[0]]) && ZeroFree(f[f[0]..])
    ensures f == [f[0]] + f[1..f[0]] + f[f[0]..]
  {}

  lemma EncodeNothing()
    ensures Encoded([]) == [1]
  {}

  /** No full block fits in fewer than 254 decoded bytes. */
  lemma {:induction false} FullBlockIsLong(f: seq<byte>)
    requires EndsFull(f) && Decoded(f).Some?
    ensures |Decoded(f).value| >= MAX_RUN
    decreases |f|
  {
    if f[0] != |f| {
      FullBlockIsLong(f[f[0]..]);
    }
  }

  // ----- The buffers -----

  // What one step of the encoder leaves to do, with `done` already final.

  lemma StepZero(done: seq<byte>, run: seq<byte>, rest: seq<byte>)
    requires |run| < MAX_RUN && rest != [] && rest[0] == 0
    ensures done + EncodeFrom(rest, run) == (done + [Code(|run|)] + run) + EncodeFrom(rest[1..], [])
  {}

  lemma StepFull(done: seq<byte>, run: seq<byte>, rest: seq<byte>)
    requires |run| + 1 == MAX_RUN && rest != [] && rest[0] != 0
    ensures done + EncodeFrom(rest, run) == (done + [Code(MAX_RUN)] + (run + [rest[0]])) + EncodeFrom(rest[1..], [])
  {}

  lemma StepByte(done: seq<byte>, run: seq<byte>, rest: seq<byte>)
    requires |run| + 1 < MAX_RUN && rest != [] && rest[0] != 0
    ensures done + EncodeFrom(rest, run) == done + EncodeFrom(rest[1..], run + [rest[0]])
  {}

  /** What is still to come after `done` and an open block, in bytes. */
  lemma StillToCome(done: seq<byte>, run: seq<byte>, rest: seq<byte>, whole: seq<byte>)
    requires |run| < MAX_RUN && done + EncodeFrom(rest, run) == whole
    ensures |whole| >= |done| + 1 + |run| + |rest|
    ensures rest != [] && rest[0] != 0 && |run| + 1 == MAX_RUN ==> |whole| >= |done| + 2 + |run| + |rest|
  {
    EncodeFromLength(rest, run);
    if rest != [] && rest[0] != 0 && |run| + 1 == MAX_RUN {
      EncodeFromLength(rest[1..], []);
    }
  }

  method CobsEncode(input: array<byte>, length: nat, output: array<byte>, capacity: nat) returns (written: nat)
    requires length <= input.Length && capacity <= output.Length && input != output
    modifies output
    ensures written == 0 <==> capacity < |Encoded(input[..length])|
    ensures written != 0 ==> written <= capacity && output[..written] == Encoded(input[..length])
    ensures forall i :: capacity <= i < output.Length ==> output[i] == old(output[i])
  {
    hide EncodeFrom, Encoded, FullBlocks;
    ghost var source, whole := input[..length], Encoded(input[..length]);
    assert source[0..] == source;
    EncodedFromNothing(source);
    StillToCome([], [], source, whole);
    if capacity == 0 {
      return 0;
    }
    var readIndex: nat, writeIndex: nat, codeIndex: nat := 0, 1, 0;
    var code: byte := 1;
    ghost var done: seq<byte>, run: seq<byte> := [], [];
    while readIndex < length
      invariant readIndex <= length
      invariant codeIndex < writeIndex <= capacity
      invariant code == writeIndex - codeIndex <= MAX_RUN
      invariant |done| == codeIndex && forall i :: 0 <= i < |done| ==> output[i] == done[i]
      invariant codeIndex + 1 + |run| == writeIndex
      invariant forall i :: codeIndex < i < writeIndex ==> output[i] == run[i - codeIndex - 1]
      invariant done + EncodeFrom(source[readIndex..], run) == whole
      invariant forall i :: capacity <= i < output.Length ==> output[i] == old(output[i])
    {
      ghost var rest := source[readIndex..];
      assert rest[0] == input[readIndex] && rest[1..] == source[readIndex + 1..];
      StillToCome(done, run, rest, whole);
      if writeIndex >= capacity {
        return 0;
      }
      if input[readIndex] == 0 {
        StepZero(done, run, rest);
        output[codeIndex] := code;
        done, run := done + [code] + run, [];
        codeIndex := writeIndex;
        writeIndex := writeIndex + 1;
        code := 1;
        readIndex := readIndex + 1;
      } else {
        output[writeIndex] := input[readIndex];
        writeIndex := writeIndex + 1;
        readIndex := readIndex + 1;
        code := code + 1;
        if code == 0xFF {
          if writeIndex >= capacity {
            return 0;
          }
          StepFull(done, run, rest);
          output[codeIndex] := code;
          done, run := done + [code] + (run + [rest[0]]), [];
          codeIndex := writeIndex;
          writeIndex := writeIndex + 1;
          code := 1;
        } else {
          StepByte(done, run, rest);
          run := run + [rest[0]];
        }
      }
    }
    assert source[readIndex..] == [];
    EncodeEnd(run);
    output[codeIndex] := code;
    assert output[..writeIndex] == done + ([code] + run);
    written := writeIndex;
  }

  lemma EncodedFromNothing(s: seq<byte>)
    ensures [] + EncodeFrom(s, []) == Encoded(s)
  {}

  lemma EncodeEnd(run: seq<byte>)
    requires |run| < MAX_RUN
    ensures EncodeFrom([], run) == [Code(|run|)] + run
  {}

  method CopyBytes(source: array<byte>, from: nat, target: array<byte>, to: nat, count: nat)
    requires source != target && from + count <= source.Length && to + count <= target.Length
    modifies target
    ensures forall i :: 0 <= i < to || to + count <= i < target.Length ==> target[i] == old(target[i])
    ensures forall i :: to <= i < to + count ==> target[i] == source[i - to + from]
  {
    for i := 0 to count
      invariant forall j :: 0 <= j < to || to + i <= j < target.Length ==> target[j] == old(target[j])
      invariant forall j :: to <= j < to + i ==> target[j] == source[j - to + from]
    {
      target[to + i] := source[from + i];
    }
  }

  /** What is left to decode once the blocks before `rest` have been written out as `done`. */
  predicate Remains(whole: seq<byte>, done: seq<byte>, rest: seq<byte>) {
    match Decoded(rest)
    case None => Decoded(whole) == None
    case Some(tail) => Decoded(whole) == Some(done + tail)
  }

  lemma RemainsAfterBlock(whole: seq<byte>, done: seq<byte>, f: seq<byte>)
    requires Remains(whole, done, f) && f != []
    ensures f[0] == 0 || f[0] > |f| ==> Decoded(whole) == None
    ensures 0 < f[0] <= |f| ==>
      var stuffed: seq<byte> := if f[0] <= MAX_RUN && f[f[0]..] != [] then [0] else [];
      && Remains(whole, done + f[1..f[0]] + stuffed, f[f[0]..])
      && (Decoded(whole).Some? ==> |Decoded(whole).value| >= |done| + f[0] - 1 + |stuffed|)
  {
    if 0 < f[0] <= |f| {
      var block, rest := f[1..f[0]], f[f[0]..];
      var stuffed: seq<byte> := if f[0] <= MAX_RUN && rest != [] then [0] else [];
      if Decoded(rest).Some? {
        var tail := Decoded(rest).value;
        assert done + (block + stuffed + tail) == done + block + stuffed + tail;
      }
    }
  }

  method CobsDecode(input: array<byte>, length: nat, output: array<byte>, capacity: nat)
    returns (ok: bool, decodedLength: nat)
    requires length <= input.Length && capacity <= output.Length && input != output
    modifies output
    ensures ok <==> Decoded(input[..length]).Some? && |Decoded(input[..length]).value| <= capacity
    ensures ok ==> decodedLength <= capacity && output[..decodedLength] == Decoded(input[..length]).value
    ensures forall i :: capacity <= i < output.Length ==> output[i] == old(output[i])
  {
    hide Decoded, Remains;
    ghost var frame := input[..length];
    var readIndex: nat, writeIndex: nat := 0, 0;
    ghost var done: seq<byte> := [];
    decodedLength := 0;
    assert frame[0..] == frame;
    RemainsInitially(frame);
    while readIndex < length
      invariant readIndex <= length && writeIndex <= capacity
      invariant |done| == writeIndex && forall i :: 0 <= i < |done| ==> output[i] == done[i]
      invariant Remains(frame, done, frame[readIndex..])
      invariant forall i :: capacity <= i < output.Length ==> output[i] == old(output[i])
    {
      ghost var f := frame[readIndex..];
      RemainsAfterBlock(frame, done, f);
      var code := input[readIndex];
      readIndex := readIndex + 1;
      if code == 0 {
        return false, 0;
      }
      var copyLength := code - 1;
      if readIndex + copyLength > length || writeIndex + copyLength > capacity {
        return false, 0;
      }
      CopyBytes(input, readIndex, output, writeIndex, copyLength);
      assert f[code..] == frame[readIndex + copyLength..];
      done := done + f[1..code];
      writeIndex := writeIndex + copyLength;
      readIndex := readIndex + copyLength;
      if code < 0xFF && readIndex < length {
        if writeIndex >= capacity {
          return false, 0;
        }
        output[writeIndex] := 0;
        writeIndex := writeIndex + 1;
        done := done + [0];
      } else {
        assert done + [] == done;
      }
    }
    assert frame[readIndex..] == [];
    RemainsFinally(frame, done);
    assert output[..writeIndex] == done;
    return true, writeIndex;
  }

  lemma RemainsInitially(f: seq<byte>)
    ensures Remains(f, [], f)
  {
    assert forall t: seq<byte> :: [] + t == t;
  }

  lemma RemainsFinally(f: seq<byte>, done: seq<byte>)
    requires Remains(f, done, [])
    ensures Decoded(f) == Some(done)
  {
    assert done + [] == done;
  }
}
