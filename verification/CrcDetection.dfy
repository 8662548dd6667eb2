/** Which damaged messages the CRC field is certain to expose, and the one small change that slips past it. */
module CrcDetection {
  import opened Bytes
  import opened BitFacts
  import opened BitValues
  import opened CrcRegister
  import opened Crc

  /** A message whose last two bytes are the CRC of the rest, low byte first. */
  predicate Sealed(raw: seq<byte>) {
    2 <= |raw| && U16At(raw, |raw| - 2) == Crc16(raw[..|raw| - 2])
  }

  // ----- The check value -----

  const CHECK_MESSAGE: seq<byte> := [0x31, 0x32, 0x33, 0x34, 0x35, 0x36, 0x37, 0x38, 0x39]

  lemma BitsAre(x: byte, bits: bv16)
    requires Value(bits) == x
    ensures Bits(x) == bits
  {
    hide *;
    ValueOfBits(x);
    ValueInjective(Bits(x), bits);
  }

  lemma CheckDigits()
    ensures Value(0x31) == 0x31
    ensures Value(0x32) == 0x32
    ensures Value(0x33) == 0x33
    ensures Value(0x34) == 0x34
    ensures Value(0x35) == 0x35
    ensures Value(0x36) == 0x36
    ensures Value(0x37) == 0x37
    ensures Value(0x38) == 0x38
    ensures Value(0x39) == 0x39
  {}

  lemma CheckSteps()
    ensures Shift8(Xor(0xFFFF, Raise(0x31))) == 0xC782
    ensures Shift8(Xor(0xC782, Raise(0x32))) == 0x3DBA
    ensures Shift8(Xor(0x3DBA, Raise(0x33))) == 0x5BCE
    ensures Shift8(Xor(0x5BCE, Raise(0x34))) == 0x5349
    ensures Shift8(Xor(0x5349, Raise(0x35))) == 0x4560
    ensures Shift8(Xor(0x4560, Raise(0x36))) == 0x2EF4
    ensures Shift8(Xor(0x2EF4, Raise(0x37))) == 0x7718
    ensures Shift8(Xor(0x7718, Raise(0x38))) == 0xA12B
    ensures Shift8(Xor(0xA12B, Raise(0x39))) == 0x29B1
  {}

  lemma NextDigit(s: seq<byte>, b: byte, bits: bv16, before: bv16, after: bv16)
    requires Register(s) == before && Value(bits) == b && Shift8(Xor(before, Raise(bits))) == after
    ensures Register(s + [b]) == after
  {
    hide *;
    BitsAre(b, bits);
    CrcOfNext(s, b, bits);
  }

  lemma CrcOfNext(s: seq<byte>, b: byte, bits: bv16)
    requires Bits(b) == bits
    ensures Register(s + [b]) == Shift8(Xor(Register(s), Raise(bits)))
  {
    CrcFromConcat(INITIAL, s, [b]);
    OneByte(Register(s), b);
    hide CrcFrom, Xor, Raise, Shifts, Shift8;
    EightShifts(Xor(Register(s), Raise(bits)));
  }

  lemma CheckRegister()
    ensures Register(CHECK_MESSAGE) == 0x29B1
  {
    CheckDigits();
    CheckSteps();
    assert Register([]) == INITIAL;
    hide *;
    var s: seq<byte> := [];
    NextDigit(s, 0x31, 0x31, 0xFFFF, 0xC782);
    s := s + [0x31];
    NextDigit(s, 0x32, 0x32, 0xC782, 0x3DBA);
    s := s + [0x32];
    NextDigit(s, 0x33, 0x33, 0x3DBA, 0x5BCE);
    s := s + [0x33];
    NextDigit(s, 0x34, 0x34, 0x5BCE, 0x5349);
    s := s + [0x34];
    NextDigit(s, 0x35, 0x35, 0x5349, 0x4560);
    s := s + [0x35];
    NextDigit(s, 0x36, 0x36, 0x4560, 0x2EF4);
    s := s + [0x36];
    NextDigit(s, 0x37, 0x37, 0x2EF4, 0x7718);
    s := s + [0x37];
    NextDigit(s, 0x38, 0x38, 0x7718, 0xA12B);
    s := s + [0x38];
    NextDigit(s, 0x39, 0x39, 0xA12B, 0x29B1);
    s := s + [0x39];
    assert s == CHECK_MESSAGE;
  }

  /** The CRC is CRC-16/CCITT-FALSE: the digits from 1 to 9 give its check value. */
  lemma CheckValue()
    ensures Crc16(CHECK_MESSAGE) == 0x29B1
  {
    CheckRegister();
    assert Value(0x29B1) == 0x29B1;
    hide Value, Register;
  }

  // ----- Bursts -----

  /** `s` and `t` differ only in bytes `at..at + 3`, and there only within 16 consecutive bits. */
  predicate DifferInBurst(s: seq<byte>, t: seq<byte>, at: nat, skip: nat) {
    && |s| == |t|
    && at + 3 <= |s|
    && s[..at] == t[..at]
    && s[at + 3..] == t[at + 3..]
    && BurstAt(Flip(s[at], t[at]), Flip(s[at + 2], t[at + 2]), skip)
  }

  lemma BurstWindow(c: bv16, u: seq<byte>, v: seq<byte>, skip: nat)
    requires |u| == |v| == 3 && BurstAt(Flip(u[0], v[0]), Flip(u[2], v[2]), skip)
    requires CrcFrom(c, u) == CrcFrom(c, v)
    ensures u == v
  {
    var a, b, f := Flip(u[0], v[0]), Flip(u[1], v[1]), Flip(u[2], v[2]);
    FlipZero(u[0], v[0]);
    FlipZero(u[1], v[1]);
    FlipZero(u[2], v[2]);
    ThreeBytes(c, u);
    ThreeBytes(c, v);
    hide BurstAt, Flip, CrcByte, CrcFrom, Xor, Raise, Shifts, Shift8;
    var c1, d1 := CrcByte(c, u[0]), CrcByte(c, v[0]);
    var c2, d2 := CrcByte(c1, u[1]), CrcByte(d1, v[1]);
    CrcByteXor(c, c, u[0], v[0]);
    XorSelf(c);
    XorNothing(Raise(a));
    CrcByteXor(c1, d1, u[1], v[1]);
    CrcByteXor(c2, d2, u[2], v[2]);
    XorSelf(CrcByte(c2, u[2]));
    ShiftsKernel(Xor(Xor(c2, d2), Raise(f)), 8);
    XorZero(Xor(c2, d2), Raise(f));
    EightShifts(Raise(a));
    EightShifts(Xor(Shifts(Raise(a), 8), Raise(b)));
    BurstKernel(a, b, f, skip);
  }

  lemma OneByte(c: bv16, b: byte)
    ensures CrcFrom(c, [b]) == CrcByte(c, b)
  {
    hide CrcByte;
  }

  lemma ThreeBytes(c: bv16, u: seq<byte>)
    requires |u| == 3
    ensures CrcFrom(c, u) == CrcByte(CrcByte(CrcByte(c, u[0]), u[1]), u[2])
  {
    hide CrcByte, CrcFrom;
    assert u == [u[0]] + ([u[1]] + [u[2]]);
    CrcFromConcat(c, [u[0]], [u[1]] + [u[2]]);
    OneByte(c, u[0]);
    CrcFromConcat(CrcByte(c, u[0]), [u[1]], [u[2]]);
    OneByte(CrcByte(c, u[0]), u[1]);
    OneByte(CrcByte(CrcByte(c, u[0]), u[1]), u[2]);
  }

  /** Any burst of at most 16 bits changes the CRC, wherever it falls and whatever surrounds it. */
  lemma BurstChangesCrc(s: seq<byte>, t: seq<byte>, at: nat, skip: nat)
    requires DifferInBurst(s, t, at, skip) && s != t
    ensures Crc16(s) != Crc16(t)
  {
    hide BurstAt, Flip, CrcByte, CrcFrom;
    if Crc16(s) == Crc16(t) {
      var c := CrcFrom(INITIAL, s[..at]);
      var u, v := s[at..at + 3], t[at..at + 3];
      assert s == s[..at] + (u + s[at + 3..]);
      assert t == t[..at] + (v + t[at + 3..]);
      ValueInjective(Register(s), Register(t));
      CrcFromConcat(INITIAL, s[..at], u + s[at + 3..]);
      CrcFromConcat(INITIAL, t[..at], v + t[at + 3..]);
      CrcFromConcat(c, u, s[at + 3..]);
      CrcFromConcat(c, v, t[at + 3..]);
      CrcFromInjective(CrcFrom(c, u), CrcFrom(c, v), s[at + 3..]);
      BurstWindow(c, u, v, skip);
    }
  }

  /** A sealed message damaged by a burst of at most 16 bits before its CRC field is no longer sealed. */
  lemma BurstDetected(raw: seq<byte>, damaged: seq<byte>, at: nat, skip: nat)
    requires Sealed(raw) && damaged != raw
    requires DifferInBurst(raw, damaged, at, skip) && at + 3 <= |raw| - 2
    ensures !Sealed(damaged)
  {
    hide BurstAt, Flip, Crc16;
    var n := |raw| - 2;
    var s, t := raw[..n], damaged[..n];
    assert s[..at] == raw[..at] && t[..at] == damaged[..at];
    assert s[at + 3..] == raw[at + 3..][..n - at - 3] && t[at + 3..] == damaged[at + 3..][..n - at - 3];
    assert raw[n..] == raw[at + 3..][n - at - 3..] && damaged[n..] == damaged[at + 3..][n - at - 3..];
    if s == t {
      SameParts(raw, damaged, n);
    }
    BurstChangesCrc(s, t, at, skip);
    assert U16At(raw, n) == U16At(raw[n..], 0) && U16At(damaged, n) == U16At(damaged[n..], 0);
  }

  lemma SameParts(s: seq<byte>, t: seq<byte>, n: nat)
    requires n <= |s| == |t| && s[..n] == t[..n] && s[n..] == t[n..]
    ensures s == t
  {
    assert s == s[..n] + s[n..];
  }

  /** Two adjacent damaged bytes anywhere in a body of three or more bytes are such a burst. */
  lemma TwoBytesAreABurst(s: seq<byte>, t: seq<byte>, at: nat)
    requires |s| == |t| && 3 <= |s| && at + 2 <= |s|
    requires s[..at] == t[..at] && s[at + 2..] == t[at + 2..]
    ensures if at + 3 <= |s| then DifferInBurst(s, t, at, 0) else DifferInBurst(s, t, at - 1, 8)
  {
    if at + 3 <= |s| {
      assert s[at + 2..][0] == s[at + 2] && t[at + 2..][0] == t[at + 2];
      FlipZero(s[at + 2], t[at + 2]);
      assert s[at + 3..] == s[at + 2..][1..] && t[at + 3..] == t[at + 2..][1..];
    } else {
      assert s[..at][at - 1] == s[at - 1] && t[..at][at - 1] == t[at - 1];
      FlipZero(s[at - 1], t[at - 1]);
      assert s[..at - 1] == s[..at][..at - 1] && t[..at - 1] == t[..at][..at - 1];
    }
  }

  // ----- A window across the border between message and CRC field -----

  /** A little-endian field holds a register's value exactly when its bytes are the register's halves. */
  lemma FieldMatches(c: bv16, lo: byte, hi: byte)
    ensures lo as int + 0x100 * (hi as int) == Value(c) <==> Bits(lo) == Low(c) && Bits(hi) == High(c)
  {
    hide Bits, Value, Low, High;
    FieldHalves(c);
    if Bits(lo) == Low(c) && Bits(hi) == High(c) {
      BitsInjective(lo, Value(c) % 0x100);
      BitsInjective(hi, Value(c) / 0x100);
    }
  }

  lemma XorLeft(c: bv16, d: bv16, e: bv16)
    requires Xor(c, d) == Xor(c, e)
    ensures d == e
  {
    hide Xor;
    XorCommutes(c, d);
    XorCommutes(c, e);
    XorCancels(d, c);
    XorCancels(e, c);
  }

  lemma HalvesXor(r: bv16, q: bv16, lo: bv16)
    requires lo < 0x100
    ensures Xor(r, q) == Xor(Low(r), lo) <==> Low(q) == lo && High(q) == High(r)
  {
    LowSmall(r);
    XorSmall(Low(r), lo);
    SmallHalves(Xor(Low(r), lo));
    hide *;
    XorZero(High(r), High(q));
    SameHalves(Xor(r, q), Xor(Low(r), lo), Xor(Low(r), Low(q)), Xor(High(r), High(q))) by {
      LowXor(r, q);
      HighXor(r, q);
    }
    if Xor(Low(r), Low(q)) == Xor(Low(r), lo) {
      XorLeft(Low(r), Low(q), lo);
    }
  }

  /** A register equals a byte-sized value exactly when its low half does and its high half is zero. */
  lemma SameHalves(c: bv16, small: bv16, low: bv16, high: bv16)
    requires Low(c) == low && High(c) == high && Low(small) == small && High(small) == 0
    ensures c == small <==> low == small && high == 0
  {
    hide *;
    JoinHalves(c);
    JoinHalves(small);
  }

  /** What the flipped bits of a message, on their own, make of a register. */
  function FlipRegister(c: bv16, s: seq<byte>, t: seq<byte>): bv16
    requires |s| == |t|
    decreases s
  {
    if s == [] then c else FlipRegister(Shifts(Xor(c, Raise(Flip(s[0], t[0]))), 8), s[1..], t[1..])
  }

  lemma {:induction false} CrcFromXor(c: bv16, d: bv16, s: seq<byte>, t: seq<byte>)
    requires |s| == |t|
    ensures Xor(CrcFrom(c, s), CrcFrom(d, t)) == FlipRegister(Xor(c, d), s, t)
    decreases s
  {
    hide Xor, Flip, Raise, Shifts, CrcByte;
    if s != [] {
      CrcByteXor(c, d, s[0], t[0]);
      CrcFromXor(CrcByte(c, s[0]), CrcByte(d, t[0]), s[1..], t[1..]);
    }
  }

  lemma HalfChanges(r: bv16, q: bv16)
    ensures Low(Xor(r, q)) == Xor(Low(r), Low(q)) && High(Xor(r, q)) == Xor(High(r), High(q))
  {
    hide *;
    LowXor(r, q);
    HighXor(r, q);
  }

  lemma ChangedHalf(c: bv16, d: bv16, e: bv16)
    ensures Xor(c, d) == Xor(c, e) <==> d == e
  {
    hide *;
    if Xor(c, d) == Xor(c, e) {
      XorLeft(c, d, e);
    }
  }

  /**
    Any damage whatever goes unnoticed exactly when the CRC field is damaged by what the damage to the message makes of
    a zero register.
   */
  lemma DamageEscapesExactly(raw: seq<byte>, damaged: seq<byte>)
    requires Sealed(raw) && |damaged| == |raw|
    ensures
      var n := |raw| - 2;
      var change := FlipRegister(0, raw[..n], damaged[..n]);
      Sealed(damaged) <==> Flip(raw[n], damaged[n]) == Low(change) && Flip(raw[n + 1], damaged[n + 1]) == High(change)
  {
    var n := |raw| - 2;
    var r, q := Register(raw[..n]), Register(damaged[..n]);
    hide CrcFrom, FlipRegister, Xor, Bits, Value, Low, High;
    XorSelf(INITIAL);
    CrcFromXor(INITIAL, INITIAL, raw[..n], damaged[..n]);
    FieldMatches(r, raw[n], raw[n + 1]);
    FieldMatches(q, damaged[n], damaged[n + 1]);
    HalfChanges(r, q);
    ChangedHalf(Low(r), Bits(damaged[n]), Low(q));
    ChangedHalf(High(r), Bits(damaged[n + 1]), High(q));
  }

  /**
    Damage to the last message byte and the low CRC byte escapes exactly when it flips 0x89 in one and 0xA1 in the
    other.
   */
  lemma BorderWindow(raw: seq<byte>, damaged: seq<byte>)
    requires Sealed(raw) && |damaged| == |raw| && 3 <= |raw|
    requires damaged[..|raw| - 3] == raw[..|raw| - 3] && damaged[|raw| - 1] == raw[|raw| - 1]
    ensures
      var x, y := Flip(raw[|raw| - 3], damaged[|raw| - 3]), Flip(raw[|raw| - 2], damaged[|raw| - 2]);
      Sealed(damaged) <==> (x == 0 && y == 0) || (x == 0x89 && y == 0xA1)
  {
    var n := |raw| - 3;
    var c := CrcFrom(INITIAL, raw[..n]);
    var s, t := raw[..n + 1], damaged[..n + 1];
    var x, y := Flip(raw[n], damaged[n]), Flip(raw[n + 1], damaged[n + 1]);
    FlipZero(raw[n], damaged[n]);
    FlipZero(raw[n + 1], damaged[n + 1]);
    assert s == raw[..n] + [raw[n]] && t == raw[..n] + [damaged[n]];
    CrcFromConcat(INITIAL, raw[..n], [raw[n]]);
    CrcFromConcat(INITIAL, raw[..n], [damaged[n]]);
    OneByte(c, raw[n]);
    OneByte(c, damaged[n]);
    var r, q := Register(s), Register(t);
    ValueOfBits(damaged[n + 1]);
    assert y == Xor(Bits(raw[n + 1]), Bits(damaged[n + 1]));
    hide CrcByte, CrcFrom, Xor, Flip, Bits, Value, Shifts, Shift8, Low, High, Raise;
    assert Xor(r, q) == Shift8(Raise(x)) by {
      CrcByteXor(c, c, raw[n], damaged[n]);
      XorSelf(c);
      XorNothing(Raise(x));
      EightShifts(Raise(x));
    }
    OneByteKernel(x, y);
    FieldMatches(r, raw[n + 1], raw[n + 2]);
    FieldMatches(q, damaged[n + 1], damaged[n + 2]);
    HalvesXor(r, q, Bits(damaged[n + 1]));
  }

  /** A byte with some of its bits flipped. */
  function Damage(b: byte, bits: bv16): (damaged: byte)
    requires bits < 0x100
    ensures Flip(b, damaged) == bits
  {
    DamageIsByte(b, bits);
    Value(Xor(Bits(b), bits))
  }

  lemma BitsOfValue(x: bv16)
    requires x < 0x100
    ensures Value(x) < 0x100 && Bits(Value(x)) == x
  {
    SmallValue(x);
    hide Bits, Value;
    ValueOfBits(Value(x));
    ValueInjective(Bits(Value(x)), x);
  }

  lemma XorBack(c: bv16, d: bv16)
    ensures Xor(c, Xor(c, d)) == d
  {
    hide *;
    XorCommutes(c, d);
    XorCommutes(c, Xor(d, c));
    XorCancels(d, c);
  }

  lemma DamageIsByte(b: byte, bits: bv16)
    requires bits < 0x100
    ensures Value(Xor(Bits(b), bits)) < 0x100
    ensures Flip(b, Value(Xor(Bits(b), bits))) == bits
  {
    hide Xor, Bits, Value;
    ValueOfBits(b);
    XorSmall(Bits(b), bits);
    BitsOfValue(Xor(Bits(b), bits));
    XorBack(Bits(b), bits);
  }

  /** So every sealed message of at least three bytes has damage to just those two bytes that goes unnoticed. */
  lemma BorderEscapes(raw: seq<byte>) returns (damaged: seq<byte>)
    requires Sealed(raw) && 3 <= |raw|
    ensures Sealed(damaged) && damaged != raw && |damaged| == |raw|
    ensures damaged[..|raw| - 3] == raw[..|raw| - 3] && damaged[|raw| - 1] == raw[|raw| - 1]
  {
    var n := |raw| - 3;
    hide Flip, Sealed;
    damaged := raw[n := Damage(raw[n], 0x89)][n + 1 := Damage(raw[n + 1], 0xA1)];
    FlipZero(raw[n], damaged[n]);
    BorderWindow(raw, damaged);
  }

  // ----- Parity -----

  function ByteOnes(b: byte): nat { Ones(Bits(b), 16) }

  /** The number of one bits in a message. */
  function OnesIn(s: seq<byte>): nat
    decreases s
  {
    if s == [] then 0 else ByteOnes(s[0]) + OnesIn(s[1..])
  }

  /** The number of bits in which two messages of one length differ. */
  function FlipsBetween(s: seq<byte>, t: seq<byte>): nat
    requires |s| == |t|
    decreases s
  {
    if s == [] then 0 else Ones(Flip(s[0], t[0]), 16) + FlipsBetween(s[1..], t[1..])
  }

  lemma {:induction false} OnesInConcat(s: seq<byte>, t: seq<byte>)
    ensures OnesIn(s + t) == OnesIn(s) + OnesIn(t)
    decreases s
  {
    hide ByteOnes;
    if s == [] {
      assert s + t == t;
    } else {
      assert (s + t)[0] == s[0] && (s + t)[1..] == s[1..] + t;
      OnesInConcat(s[1..], t);
    }
  }

  lemma {:induction false} FlipsParity(s: seq<byte>, t: seq<byte>) returns (both: nat)
    requires |s| == |t|
    ensures FlipsBetween(s, t) + 2 * both == OnesIn(s) + OnesIn(t)
    decreases s
  {
    hide Ones, Xor, Bits;
    both := 0;
    if s != [] {
      var here := OnesXor(Bits(s[0]), Bits(t[0]), 16);
      both := FlipsParity(s[1..], t[1..]);
      both := both + here;
    }
  }

  lemma CrcByteParity(c: bv16, b: byte)
    ensures Ones(CrcByte(c, b), 16) % 2 == (Ones(c, 16) + ByteOnes(b)) % 2
  {
    ValueOfBits(b);
    hide Ones, Xor, Bits, Shifts, Raise;
    ShiftsParity(Xor(c, Aligned(b)), 8);
    var both := OnesXor(c, Aligned(b), 16);
    AlignedOnes(Bits(b));
  }

  /** The register keeps the parity of everything it has been fed. */
  lemma {:induction false} CrcParity(c: bv16, s: seq<byte>)
    ensures Ones(CrcFrom(c, s), 16) % 2 == (Ones(c, 16) + OnesIn(s)) % 2
    decreases s
  {
    hide Ones, CrcByte, ByteOnes;
    if s != [] {
      CrcByteParity(c, s[0]);
      CrcParity(CrcByte(c, s[0]), s[1..]);
    }
  }

  lemma WholeParity(s: seq<byte>)
    ensures Ones(Register(s), 16) % 2 == (Ones(INITIAL, 16) + OnesIn(s)) % 2
  {
    hide Ones, OnesIn, CrcFrom;
    CrcParity(INITIAL, s);
  }

  lemma TwoBytesOnes(lo: byte, hi: byte)
    ensures OnesIn([lo, hi]) == ByteOnes(lo) + ByteOnes(hi)
  {
    hide ByteOnes;
    OnesInConcat([lo], [hi]);
    assert [lo, hi] == [lo] + [hi];
    assert OnesIn([lo]) == ByteOnes(lo) && OnesIn([hi]) == ByteOnes(hi);
  }

  lemma InitialOnes()
    ensures Ones(INITIAL, 16) % 2 == 0
  {
    hide Ones;
    Doubles(0xFFFF, 0xFFFE, true, 15);
    Doubles(0xFFFE, 0xFFFC, true, 14);
    Doubles(0xFFFC, 0xFFF8, true, 13);
    Doubles(0xFFF8, 0xFFF0, true, 12);
    Doubles(0xFFF0, 0xFFE0, true, 11);
    Doubles(0xFFE0, 0xFFC0, true, 10);
    Doubles(0xFFC0, 0xFF80, true, 9);
    Doubles(0xFF80, 0xFF00, true, 8);
    Doubles(0xFF00, 0xFE00, true, 7);
    Doubles(0xFE00, 0xFC00, true, 6);
    Doubles(0xFC00, 0xF800, true, 5);
    Doubles(0xF800, 0xF000, true, 4);
    Doubles(0xF000, 0xE000, true, 3);
    Doubles(0xE000, 0xC000, true, 2);
    Doubles(0xC000, 0x8000, true, 1);
    Doubles(0x8000, 0, true, 0);
    NoOnes(0);
  }

  lemma HalvesOnes(c: bv16)
    ensures (Ones(Low(c), 16) + Ones(High(c), 16)) % 2 == Ones(c, 16) % 2
  {
    JoinHalves(c);
    HighSmall(c);
    hide Ones, Xor, Low, High, Raise;
    AlignedOnes(High(c));
    var both := OnesXor(Raise(High(c)), Low(c), 16);
  }

  lemma FieldOnes(c: bv16, lo: byte, hi: byte)
    requires lo as int + 0x100 * (hi as int) == Value(c)
    ensures (ByteOnes(lo) + ByteOnes(hi)) % 2 == Ones(c, 16) % 2
  {
    hide Ones, Bits, Value, Low, High;
    FieldMatches(c, lo, hi);
    HalvesOnes(c);
  }

  lemma ParityAdds(body: nat, field: nat, register: nat, initial: nat)
    requires field % 2 == register % 2 && register % 2 == (initial + body) % 2 && initial % 2 == 0
    ensures (body + field) % 2 == 0
  {}

  /** A sealed message, CRC field included, has an even number of one bits. */
  lemma SealedIsEven(raw: seq<byte>)
    requires Sealed(raw)
    ensures OnesIn(raw) % 2 == 0
  {
    hide Ones, ByteOnes, OnesIn, Value, Register, INITIAL;
    var n := |raw| - 2;
    var s := raw[..n];
    var field := ByteOnes(raw[n]) + ByteOnes(raw[n + 1]);
    assert raw == s + [raw[n], raw[n + 1]];
    OnesInConcat(s, [raw[n], raw[n + 1]]);
    TwoBytesOnes(raw[n], raw[n + 1]);
    FieldOnes(Register(s), raw[n], raw[n + 1]);
    WholeParity(s);
    InitialOnes();
    ParityAdds(OnesIn(s), field, Ones(Register(s), 16), Ones(INITIAL, 16));
  }

  lemma {:induction false} FlipsBefore(s: seq<byte>, t: seq<byte>, u: seq<byte>)
    requires |s| == |t|
    ensures FlipsBetween(s + u, t + u) == FlipsBetween(s, t)
    decreases s
  {
    hide Flip, Ones;
    if s == [] {
      assert s + u == u && t + u == u;
      NoFlips(u);
    } else {
      assert (s + u)[1..] == s[1..] + u && (t + u)[1..] == t[1..] + u;
      FlipsBefore(s[1..], t[1..], u);
    }
  }

  lemma {:induction false} NoFlips(s: seq<byte>)
    ensures FlipsBetween(s, s) == 0
    decreases s
  {
    if s != [] {
      FlipZero(s[0], s[0]);
      NoOnesIn(16);
      hide Flip, Ones;
      NoFlips(s[1..]);
    }
  }

  lemma {:induction false} NoOnesIn(n: nat)
    requires n <= 16
    ensures Ones(0, n) == 0
  {
    if n > 0 {
      NoOnesIn(n - 1);
    }
  }

  /** Flipping any odd number of bits of a message changes its CRC. */
  lemma OddFlipsChangeCrc(s: seq<byte>, t: seq<byte>)
    requires |s| == |t| && FlipsBetween(s, t) % 2 == 1
    ensures Crc16(s) != Crc16(t)
  {
    var field := Le16(Crc16(s));
    var raw, damaged := s + field, t + field;
    assert raw[..|raw| - 2] == s && damaged[..|raw| - 2] == t;
    assert raw[|s|..|s| + 2] == field && damaged[|s|..|s| + 2] == field;
    hide Crc16, FlipsBetween;
    U16RoundTrip(raw, |s|, Crc16(s));
    U16RoundTrip(damaged, |s|, Crc16(s));
    FlipsBefore(s, t, field);
    OddFlipsDetected(raw, damaged);
  }

  /** Flipping any odd number of bits of a sealed message, anywhere in it, unseals it. */
  lemma OddFlipsDetected(raw: seq<byte>, damaged: seq<byte>)
    requires Sealed(raw) && |damaged| == |raw|
    requires FlipsBetween(raw, damaged) % 2 == 1
    ensures !Sealed(damaged)
  {
    hide Sealed, OnesIn, FlipsBetween;
    SealedIsEven(raw);
    var both := FlipsParity(raw, damaged);
    if Sealed(damaged) {
      SealedIsEven(damaged);
    }
  }
}
