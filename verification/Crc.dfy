/** Exclusive or on 16-bit registers, one algebraic fact per lemma. */
module BitFacts {
  function Xor(c: bv16, d: bv16): bv16 { c ^ d }

  function Double(c: bv16): bv16 { c << 1 }

  /** A byte moved to the top half of the register. */
  function Raise(c: bv16): bv16 { c << 8 }

  predicate Top(c: bv16) { c & 0x8000 != 0 }

  lemma XorCommutes(c: bv16, d: bv16)
    ensures Xor(c, d) == Xor(d, c)
  {}

  lemma XorAssociates(c: bv16, d: bv16, e: bv16)
    ensures Xor(Xor(c, d), e) == Xor(c, Xor(d, e))
  {}

  lemma XorCancels(c: bv16, d: bv16)
    ensures Xor(Xor(c, d), d) == c
  {}

  lemma XorSelf(c: bv16)
    ensures Xor(c, c) == 0
  {}

  lemma XorNothing(c: bv16)
    ensures Xor(0, c) == c
  {}

  lemma XorZero(c: bv16, d: bv16)
    ensures Xor(c, d) == 0 <==> c == d
  {
    hide *;
    XorCancels(c, d);
    XorNothing(d);
    XorSelf(d);
  }

  lemma XorPairs(c: bv16, a: bv16, d: bv16, b: bv16)
    ensures Xor(Xor(c, a), Xor(d, b)) == Xor(Xor(c, d), Xor(a, b))
  {
    hide Xor;
    XorAssociates(Xor(c, a), d, b);
    XorAssociates(c, a, d);
    XorCommutes(a, d);
    XorAssociates(c, d, a);
    XorAssociates(Xor(c, d), a, b);
  }

  lemma XorTop(c: bv16, d: bv16)
    ensures Top(Xor(c, d)) <==> Top(c) != Top(d)
  {}

  lemma ShiftedXor(c: bv16, d: bv16)
    ensures (c ^ d) << 1 == (c << 1) ^ (d << 1)
  {}

  lemma XorDoubled(c: bv16, d: bv16)
    ensures Double(Xor(c, d)) == Xor(Double(c), Double(d))
  {
    calc {
      Double(Xor(c, d));
      (c ^ d) << 1;
      { ShiftedXor(c, d); }
      (c << 1) ^ (d << 1);
      Xor(Double(c), Double(d));
    }
  }

  lemma RaisedXor(c: bv16, d: bv16)
    ensures (c ^ d) << 8 == (c << 8) ^ (d << 8)
  {}

  lemma XorRaised(c: bv16, d: bv16)
    ensures Raise(Xor(c, d)) == Xor(Raise(c), Raise(d))
  {
    calc {
      Raise(Xor(c, d));
      (c ^ d) << 8;
      { RaisedXor(c, d); }
      (c << 8) ^ (d << 8);
      Xor(Raise(c), Raise(d));
    }
  }

  /** Sixteen doublings empty the register, and the fifteenth leaves only the lowest bit. */
  lemma FourDoubles(c: bv16)
    ensures Double(Double(Double(Double(c)))) == c << 4
  {}

  lemma EightDoubles(x: bv16)
    ensures Double(Double(Double(Double(Double(Double(Double(Double(x)))))))) == Raise(x)
  {}

  lemma EightClearTops(x: bv16)
    requires x < 0x100
    ensures !Top(x) && !Top(Double(x)) && !Top(Double(Double(x))) && !Top(Double(Double(Double(x))))
    ensures var y := Double(Double(Double(Double(x))));
            !Top(y) && !Top(Double(y)) && !Top(Double(Double(y))) && !Top(Double(Double(Double(y))))
  {}

  lemma ZeroTop()
    ensures !Top(0)
  {}

  lemma FourthShift(c: bv16)
    ensures c << 4 << 4 << 4 << 4 == 0
  {}

  lemma XorSmall(c: bv16, d: bv16)
    requires c < 0x100 && d < 0x100
    ensures Xor(c, d) < 0x100
  {}
}

/** The 16-bit shift register of `crc.cpp` and the algebra of its steps. */
module CrcRegister {
  import opened BitFacts

  /** One bit time of the register: a left shift, reduced by the polynomial 0x1021. */
  function Shift(c: bv16): bv16 {
    if Top(c) then Xor(Double(c), 0x1021) else Double(c)
  }

  function Shifts(c: bv16, n: nat): bv16 {
    if n == 0 then c else Shift(Shifts(c, n - 1))
  }

  lemma ShiftCases(c: bv16)
    ensures Shift(c) == if c & 0x8000 != 0 then (c << 1) ^ 0x1021 else c << 1
  {}

  /** The eight bit times that one message byte takes. */
  method ShiftByte(c: bv16) returns (crc: bv16)
    ensures crc == Shifts(c, 8)
  {
    hide Shift;
    crc := c;
    for bit := 0 to 8
      invariant crc == Shifts(c, bit)
    {
      ShiftCases(crc);
      if crc & 0x8000 != 0 {
        crc := (crc << 1) ^ 0x1021;
      } else {
        crc := crc << 1;
      }
    }
  }

  // ----- The step is linear and loses nothing -----

  lemma ShiftXor(c: bv16, d: bv16)
    ensures Shift(Xor(c, d)) == Xor(Shift(c), Shift(d))
  {
    hide Xor, Double, Top;
    var p, q := Double(c), Double(d);
    XorTop(c, d);
    XorDoubled(c, d);
    XorPairs(p, 0x1021, q, 0x1021);
    XorCancels(Xor(p, q), 0x1021);
    XorAssociates(Xor(p, q), 0x1021, 0x1021);
    XorAssociates(p, q, 0x1021);
    XorAssociates(p, 0x1021, q);
    XorCommutes(0x1021, q);
  }

  lemma ShiftKernel(c: bv16)
    requires Shift(c) == 0
    ensures c == 0
  {}

  lemma {:induction false} ShiftsXor(c: bv16, d: bv16, n: nat)
    ensures Shifts(Xor(c, d), n) == Xor(Shifts(c, n), Shifts(d, n))
  {
    hide Shift, Xor;
    if n > 0 {
      ShiftsXor(c, d, n - 1);
      ShiftXor(Shifts(c, n - 1), Shifts(d, n - 1));
    }
  }

  lemma {:induction false} ShiftsKernel(c: bv16, n: nat)
    requires Shifts(c, n) == 0
    ensures c == 0
  {
    hide Shift;
    if n > 0 {
      ShiftKernel(Shifts(c, n - 1));
      ShiftsKernel(c, n - 1);
    }
  }

  lemma ShiftsInjective(c: bv16, d: bv16, n: nat)
    requires Shifts(c, n) == Shifts(d, n)
    ensures c == d
  {
    hide Shifts, Xor;
    ShiftsXor(c, d, n);
    XorZero(Shifts(c, n), Shifts(d, n));
    ShiftsKernel(Xor(c, d), n);
    XorZero(c, d);
  }

  // ----- Bursts of up to sixteen bits -----

  /** Flips `a`, `b`, `c` of three consecutive bytes lie within 16 consecutive bits, `skip` bits into the first byte. */
  predicate BurstAt(a: bv16, c: bv16, skip: nat) {
    match skip
    case 0 => c == 0
    case 1 => a & 0x80 == 0 && c & 0x7F == 0
    case 2 => a & 0xC0 == 0 && c & 0x3F == 0
    case 3 => a & 0xE0 == 0 && c & 0x1F == 0
    case 4 => a & 0xF0 == 0 && c & 0x0F == 0
    case 5 => a & 0xF8 == 0 && c & 0x07 == 0
    case 6 => a & 0xFC == 0 && c & 0x03 == 0
    case 7 => a & 0xFE == 0 && c & 0x01 == 0
    case 8 => a == 0
    case _ => false
  }

  function Shift8(c: bv16): bv16 { Shift(Shift(Shift(Shift(Shift(Shift(Shift(Shift(c)))))))) }

  lemma EightShifts(c: bv16)
    ensures Shifts(c, 8) == Shift8(c)
  {
    hide Shift;
    assert Shifts(c, 1) == Shift(c);
    assert Shifts(c, 2) == Shift(Shifts(c, 1));
    assert Shifts(c, 3) == Shift(Shifts(c, 2));
    assert Shifts(c, 4) == Shift(Shifts(c, 3));
    assert Shifts(c, 5) == Shift(Shifts(c, 4));
    assert Shifts(c, 6) == Shift(Shifts(c, 5));
    assert Shifts(c, 7) == Shift(Shifts(c, 6));
  }

  /** The only burst that brings a zero register back to zero is no burst at all. */
  lemma BurstKernel(a: bv16, b: bv16, c: bv16, skip: nat)
    requires a < 0x100 && b < 0x100 && c < 0x100
    requires BurstAt(a, c, skip)
    requires Shift8(Xor(Shift8(Raise(a)), Raise(b))) == Raise(c)
    ensures a == 0 && b == 0 && c == 0
  {}

  /** The one change of a last byte that leaves the high byte of the register alone. */
  lemma OneByteKernel(a: bv16, b: bv16)
    requires a < 0x100 && b < 0x100
    ensures Shift8(Raise(a)) == b <==> (a == 0 && b == 0) || (a == 0x89 && b == 0xA1)
  {}

  // ----- Parity -----

  /** How many of the top `n` bits are one. */
  function Ones(x: bv16, n: nat): nat
    decreases n
  {
    if n == 0 then 0 else (if Top(x) then 1 else 0) + Ones(Double(x), n - 1)
  }

  predicate BitAt(x: bv16, n: nat)
    decreases n
  {
    if n == 0 then Top(x) else BitAt(Double(x), n - 1)
  }

  lemma {:induction false} OnesLast(x: bv16, n: nat)
    ensures Ones(x, n + 1) == Ones(x, n) + if BitAt(x, n) then 1 else 0
    decreases n
  {
    hide Top, Double;
    if n > 0 {
      OnesLast(Double(x), n - 1);
    }
  }

  lemma {:induction false} OnesXor(x: bv16, y: bv16, n: nat) returns (both: nat)
    ensures Ones(Xor(x, y), n) + 2 * both == Ones(x, n) + Ones(y, n)
    decreases n
  {
    hide Xor, Top, Double;
    both := 0;
    if n > 0 {
      XorTop(x, y);
      XorDoubled(x, y);
      both := OnesXor(Double(x), Double(y), n - 1);
      both := both + if Top(x) && Top(y) then 1 else 0;
    }
  }

  lemma DoubledLastBit(x: bv16)
    ensures !BitAt(Double(x), 15)
  {
    hide Top, Double;
    assert BitAt(x, 16) == BitAt(x << 4, 12) by { FourDoubles(x); }
    assert BitAt(x << 4, 12) == BitAt(x << 4 << 4, 8) by { FourDoubles(x << 4); }
    assert BitAt(x << 4 << 4, 8) == BitAt(x << 4 << 4 << 4, 4) by { FourDoubles(x << 4 << 4); }
    assert BitAt(x << 4 << 4 << 4, 4) == BitAt(0, 0) by { FourDoubles(x << 4 << 4 << 4); FourthShift(x); }
    assert !BitAt(0, 0) by { ZeroTop(); }
  }

  lemma OnesFirst(x: bv16, n: nat)
    ensures Ones(x, n + 1) == (if Top(x) then 1 else 0) + Ones(Double(x), n)
  {
    hide Top, Double;
  }

  lemma SameParity(a: int, b: int, k: int)
    requires a == b + 2 * k
    ensures a % 2 == b % 2
  {}

  /** Doubling a register whose top bit is clear moves its ones without losing any. */
  lemma DoubleOnes(c: bv16)
    ensures Ones(c, 16) == (if Top(c) then 1 else 0) + Ones(Double(c), 16)
  {
    hide Top, Double, Ones, BitAt;
    OnesFirst(c, 15);
    OnesLast(Double(c), 15);
    DoubledLastBit(c);
  }

  lemma AlignedOnes(x: bv16)
    requires x < 0x100
    ensures Ones(Raise(x), 16) == Ones(x, 16)
  {
    EightClearTops(x);
    EightDoubles(x);
    hide Top, Double, Raise, Ones;
    DoubleOnes(x);
    DoubleOnes(Double(x));
    DoubleOnes(Double(Double(x)));
    DoubleOnes(Double(Double(Double(x))));
    var y := Double(Double(Double(Double(x))));
    DoubleOnes(y);
    DoubleOnes(Double(y));
    DoubleOnes(Double(Double(y)));
    DoubleOnes(Double(Double(Double(y))));
  }

  /** The polynomial has an even number of terms, so a bit time keeps the parity of the register. */
  lemma ShiftParity(c: bv16)
    ensures Ones(Shift(c), 16) % 2 == Ones(c, 16) % 2
  {
    hide Xor, Top, Double, Ones;
    var d := Double(c);
    DoubleOnes(c);
    if Top(c) {
      var both := OnesXor(d, 0x1021, 16);
      PolynomialOnes();
      SameParity(Ones(Shift(c), 16), Ones(c, 16), 1 - (both as int));
    }
  }

  lemma Doubles(x: bv16, y: bv16, top: bool, n: nat)
    requires y == x << 1 && (top <==> x & 0x8000 != 0)
    ensures Ones(x, n + 1) == (if top then 1 else 0) + Ones(y, n)
  {}

  lemma PolynomialOnes()
    ensures Ones(0x1021, 16) == 3
  {
    hide Ones;
    Doubles(0x1021, 0x2042, false, 15);
    Doubles(0x2042, 0x4084, false, 14);
    Doubles(0x4084, 0x8108, false, 13);
    Doubles(0x8108, 0x0210, true, 12);
    Doubles(0x0210, 0x0420, false, 11);
    Doubles(0x0420, 0x0840, false, 10);
    Doubles(0x0840, 0x1080, false, 9);
    Doubles(0x1080, 0x2100, false, 8);
    Doubles(0x2100, 0x4200, false, 7);
    Doubles(0x4200, 0x8400, false, 6);
    Doubles(0x8400, 0x0800, true, 5);
    Doubles(0x0800, 0x1000, false, 4);
    Doubles(0x1000, 0x2000, false, 3);
    Doubles(0x2000, 0x4000, false, 2);
    Doubles(0x4000, 0x8000, false, 1);
    Doubles(0x8000, 0, true, 0);
    NoOnes(0);
  }

  lemma NoOnes(x: bv16)
    ensures Ones(x, 0) == 0
  {}

  lemma {:induction false} ShiftsParity(c: bv16, n: nat)
    ensures Ones(Shifts(c, n), 16) % 2 == Ones(c, 16) % 2
  {
    hide Shift, Ones;
    if n > 0 {
      ShiftsParity(c, n - 1);
      ShiftParity(Shifts(c, n - 1));
    }
  }
}

/** Bytes and 16-bit fields as register values, one conversion fact per lemma. */
module BitValues {
  import opened Bytes
  import opened BitFacts

  function Append(c: bv16, one: bool): bv16 { if one then (c << 1) | 1 else c << 1 }

  /** The low `n` binary digits of `x` as a register value. */
  function Widen(x: nat, n: nat): bv16
    decreases n
  {
    if n == 0 then 0 else Append(Widen(x / 2, n - 1), x % 2 == 1)
  }

  function Bits(b: byte): bv16 { Widen(b, 8) }

  function Value(c: bv16): uint16 { c as int }

  lemma EvenValue(c: bv16)
    requires c < 0x80
    ensures (c << 1) as int == 2 * (c as int)
  {}

  lemma OddValue(c: bv16)
    requires c < 0x80
    ensures ((c << 1) | 1) as int == 2 * (c as int) + 1
  {}

  lemma SevenBits(c: bv16)
    requires c as int < 0x80
    ensures c < 0x80
  {}

  lemma AppendValue(c: bv16, one: bool)
    requires c as int < 0x80
    ensures Append(c, one) as int == 2 * (c as int) + if one then 1 else 0
  {
    SevenBits(c);
    if one {
      OddValue(c);
    } else {
      EvenValue(c);
    }
  }

  lemma {:induction false} WidenValue(x: nat, n: nat, bound: nat)
    requires x < bound <= 0x100 && bound <= Power2(n)
    ensures Widen(x, n) as int == x
    decreases n
  {
    hide Append;
    if n == 0 {
      ZeroValue();
    } else {
      WidenValue(x / 2, n - 1, (bound + 1) / 2);
      AppendValue(Widen(x / 2, n - 1), x % 2 == 1);
    }
  }

  lemma ZeroValue()
    ensures (0 as bv16) as int == 0
  {}

  function Power2(n: nat): nat {
    if n == 0 then 1 else 2 * Power2(n - 1)
  }

  lemma EightBits(c: bv16)
    requires c as int < 0x100
    ensures c < 0x100
  {}

  lemma ValueOfBits(x: byte)
    ensures Value(Bits(x)) == x
    ensures Bits(x) < 0x100
  {
    assert Power2(4) == 16 && Power2(8) == 256;
    WidenValue(x, 8, 0x100);
    EightBits(Bits(x));
  }

  lemma BitsInjective(x: byte, y: byte)
    requires Bits(x) == Bits(y)
    ensures x == y
  {
    hide *;
    ValueOfBits(x);
    ValueOfBits(y);
  }

  lemma WideBits(c: bv16, x: int)
    requires x == c as int
    ensures x as bv16 == c
  {}

  lemma SameValue(c: bv16, d: bv16, x: int)
    requires x == c as int && x == d as int
    ensures c == d
  {
    hide *;
    WideBits(c, x);
    WideBits(d, x);
  }

  lemma ValueInjective(c: bv16, d: bv16)
    requires Value(c) == Value(d)
    ensures c == d
  {
    SameValue(c, d, Value(c));
  }

  lemma SplitValue(c: bv16)
    ensures c as int == ((c & 0xFF) as int) + 0x100 * ((c >> 8) as int)
  {}

  lemma SmallValue(c: bv16)
    requires c < 0x100
    ensures (c as int) < 0x100
  {}

  function Low(c: bv16): bv16 { c & 0xFF }

  function High(c: bv16): bv16 { c >> 8 }

  lemma LowXor(c: bv16, d: bv16)
    ensures Low(Xor(c, d)) == Xor(Low(c), Low(d))
  {}

  lemma HighXor(c: bv16, d: bv16)
    ensures High(Xor(c, d)) == Xor(High(c), High(d))
  {}

  lemma SmallHalves(c: bv16)
    requires c < 0x100
    ensures Low(c) == c && High(c) == 0
  {}

  lemma JoinHalves(c: bv16)
    ensures c == Xor(Raise(High(c)), Low(c))
  {}

  lemma LowSmall(c: bv16)
    ensures Low(c) < 0x100
  {}

  lemma HighSmall(c: bv16)
    ensures High(c) < 0x100
  {}

  lemma BitsOfSmallValue(c: bv16)
    requires c < 0x100
    ensures Value(c) < 0x100 && Bits(Value(c)) == c
  {
    SmallValue(c);
    hide Bits;
    ValueOfBits(Value(c));
    ValueInjective(Bits(Value(c)), c);
  }

  /** The two bytes of a little-endian field are the halves of the register. */
  lemma FieldHalves(c: bv16)
    ensures Bits(Value(c) % 0x100) == Low(c)
    ensures Bits(Value(c) / 0x100) == High(c)
  {
    hide *;
    ValueHalves(c);
    SplitInt(Value(c), Value(Low(c)), Value(High(c)));
    BitsOfSmallValue(Low(c));
    BitsOfSmallValue(High(c));
  }

  lemma ValueHalves(c: bv16)
    ensures Value(c) as int == (Value(Low(c)) as int) + 0x100 * (Value(High(c)) as int)
    ensures Low(c) < 0x100 && High(c) < 0x100 && Value(Low(c)) < 0x100
  {
    SplitValue(c);
    LowSmall(c);
    HighSmall(c);
    SmallValue(Low(c));
  }

  lemma SplitInt(v: int, lo: int, hi: int)
    requires v == lo + 0x100 * hi && 0 <= lo < 0x100
    ensures v % 0x100 == lo && v / 0x100 == hi
  {}
}

/** CRC-16/CCITT-FALSE over bytes, and which changes to a message it is certain to notice. */
module Crc {
  import opened Bytes
  import opened BitFacts
  import opened BitValues
  import opened CrcRegister

  const INITIAL: bv16 := 0xFFFF

  /** The byte as it enters the register, aligned with the top bit. */
  function Aligned(b: byte): bv16 { Raise(Bits(b)) }

  function CrcByte(c: bv16, b: byte): bv16 { Shifts(Xor(c, Aligned(b)), 8) }

  function CrcFrom(c: bv16, s: seq<byte>): bv16
    decreases s
  {
    if s == [] then c else CrcFrom(CrcByte(c, s[0]), s[1..])
  }

  function Register(s: seq<byte>): bv16 { CrcFrom(INITIAL, s) }

  function Crc16(s: seq<byte>): uint16 { Value(Register(s)) }

  method Crc16Ccitt(data: array<byte>, length: nat) returns (crc: uint16)
    requires length <= data.Length
    ensures crc == Crc16(data[..length])
  {
    hide Xor;
    var register := INITIAL;
    for i := 0 to length
      invariant register == CrcFrom(INITIAL, data[..i])
    {
      CrcFromConcat(INITIAL, data[..i], [data[i]]);
      assert data[..i + 1] == data[..i] + [data[i]];
      register := ShiftByte(Xor(register, Aligned(data[i])));
    }
    crc := Value(register);
  }

  lemma {:induction false} CrcFromConcat(c: bv16, s: seq<byte>, t: seq<byte>)
    ensures CrcFrom(c, s + t) == CrcFrom(CrcFrom(c, s), t)
    decreases s
  {
    hide CrcByte;
    if s == [] {
      assert s + t == t;
    } else {
      assert (s + t)[0] == s[0] && (s + t)[1..] == s[1..] + t;
      CrcFromConcat(CrcByte(c, s[0]), s[1..], t);
    }
  }


  // ----- Changed messages -----

  /** Which of the eight bits differ between two bytes. */
  function Flip(x: byte, y: byte): bv16 { Xor(Bits(x), Bits(y)) }

  lemma FlipZero(x: byte, y: byte)
    ensures Flip(x, y) < 0x100
    ensures Flip(x, y) == 0 <==> x == y
  {
    hide Xor, Bits;
    ValueOfBits(x);
    ValueOfBits(y);
    XorSmall(Bits(x), Bits(y));
    XorZero(Bits(x), Bits(y));
    if Flip(x, y) == 0 {
      BitsInjective(x, y);
    }
  }

  /** A byte changes the register by its own contribution, whatever the register held. */
  lemma CrcByteXor(c: bv16, d: bv16, x: byte, y: byte)
    ensures Xor(CrcByte(c, x), CrcByte(d, y)) == Shifts(Xor(Xor(c, d), Raise(Flip(x, y))), 8)
  {
    hide Xor, Bits, Raise, Shifts;
    XorRaised(Bits(x), Bits(y));
    XorPairs(c, Aligned(x), d, Aligned(y));
    ShiftsXor(Xor(c, Aligned(x)), Xor(d, Aligned(y)), 8);
  }

  /** Two registers fed the same bytes never meet. */
  lemma {:induction false} CrcFromInjective(c: bv16, d: bv16, s: seq<byte>)
    requires CrcFrom(c, s) == CrcFrom(d, s)
    ensures c == d
    decreases s
  {
    hide Xor, Shifts, Aligned;
    if s != [] {
      var a := Aligned(s[0]);
      CrcFromInjective(CrcByte(c, s[0]), CrcByte(d, s[0]), s[1..]);
      ShiftsInjective(Xor(c, a), Xor(d, a), 8);
      XorCancels(c, a);
      XorCancels(d, a);
    }
  }
}
