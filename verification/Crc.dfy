/** CRC-16/ARC (parsers/obis.py, `crc16_arc`): the checksum of a DSMR telegram.

    The byte-at-a-time loop is proved equal to a register fed one bit at a time, and that to the
    remainder of textbook long division over GF(2) by x^16 + x^15 + x^2 + 1. What the checksum
    detects follows from three facts about one shift of the register: it is linear, it never
    turns a non-zero register into zero, and it keeps the register's parity.

    A sequence of bits is a polynomial, highest degree first. The bits of a message come in the
    order they are sent, least significant bit of each byte first, and the bits of a register in
    the same order, so bit 0 of the 16-bit word is the coefficient of x^15. */
module Crc {

  type Byte = bv8
  type Word = bv16
  type Poly = seq<bool>

  // --- the code --------------------------------------------------------------

  /** One turn of the inner loop. */
  function Shift(c: Word): Word {
    if c & 0x0001 == 1 then (c >> 1) ^ 0xA001 else c >> 1
  }

  function Shifts(c: Word, n: nat): Word
    decreases n
  {
    if n == 0 then c else Shifts(Shift(c), n - 1)
  }

  /** The register after one more byte. */
  function FeedByte(c: Word, b: Byte): Word {
    Shifts(c ^ (b as Word), 8)
  }

  /** The register after `data`, starting from `c`. */
  function Feed(c: Word, data: seq<Byte>): Word
    decreases |data|
  {
    if data == [] then c else Feed(FeedByte(c, data[0]), data[1..])
  }

  function Crc16(data: seq<Byte>): Word {
    Feed(0x0000, data)
  }

  method Crc16Arc(data: seq<Byte>) returns (crc: Word)
    ensures crc == Crc16(data)
  {
    crc := 0x0000;
    var i := 0;
    while i < |data|
      invariant 0 <= i <= |data|
      invariant Feed(crc, data[i..]) == Crc16(data)
    {
      ghost var before := crc;
      crc := crc ^ (data[i] as Word);
      var k := 0;
      while k < 8
        invariant 0 <= k <= 8
        invariant Shifts(crc, 8 - k) == FeedByte(before, data[i])
      {
        if crc & 0x0001 == 1 {
          crc := (crc >> 1) ^ 0xA001;
        } else {
          crc := crc >> 1;
        }
        k := k + 1;
      }
      assert data[i..][1..] == data[i + 1..];
      i := i + 1;
    }
    crc := crc & 0xFFFF;
  }

  // --- polynomials over GF(2) ----------------------------------------------------

  function Zeros(n: nat): (z: Poly)
    ensures |z| == n && forall i :: 0 <= i < n ==> !z[i]
  {
    seq(n, _ => false)
  }

  ghost predicate IsZero(p: Poly) {
    forall i :: 0 <= i < |p| ==> !p[i]
  }

  /** `p` with `q` added to its leading terms. */
  function Add(p: Poly, q: Poly): (r: Poly)
    requires |q| <= |p|
    ensures |r| == |p|
    ensures forall i :: 0 <= i < |p| ==> r[i] == if i < |q| then p[i] != q[i] else p[i]
  {
    seq(|p|, i requires 0 <= i < |p| => if i < |q| then p[i] != q[i] else p[i])
  }

  /** The generator without its leading term: x^15 + x^2 + 1. */
  const TAIL: Poly := [true] + Zeros(12) + [true, false, true]

  /** Cancelling the leading term of `p` and dropping it. */
  function Cancel(p: Poly): (r: Poly)
    requires |p| > 16
    ensures |r| == |p| - 1
  {
    if p[0] then Add(p, [true] + TAIL)[1..] else p[1..]
  }

  /** Textbook long division by x^16 + x^15 + x^2 + 1: cancel the leading term, drop it, go on. */
  function Remainder(p: Poly): (r: Poly)
    requires |p| >= 16
    ensures |r| == 16
    decreases |p|
  {
    if |p| == 16 then p else Remainder(Cancel(p))
  }

  // --- the register as a polynomial ---------------------------------------------------

  type Register = r: Poly | |r| == 16 witness Zeros(16)

  /** One shift: multiply by x, and divide when a term of degree 16 appears. */
  function Step(r: Register): Register {
    if r[0] then Add(r[1..] + [false], TAIL) else r[1..] + [false]
  }

  function Steps(r: Register, n: nat): Register
    decreases n
  {
    if n == 0 then r else Steps(Step(r), n - 1)
  }

  /** The register after the bits `m`, each entering at the top just before a shift. */
  function Divide(r: Register, m: Poly): Register
    decreases |m|
  {
    if m == [] then r else Divide(Step(Add(r, [m[0]])), m[1..])
  }

  /** A shift, term by term. */
  lemma StepAt(r: Register, i: nat)
    requires i < 16
    ensures Step(r)[i] == ((i < 15 && r[i + 1]) != (r[0] && TAIL[i]))
  {
    assert (r[1..] + [false])[i] == (i < 15 && r[i + 1]);
  }

  lemma CancelAt(p: Poly, i: nat)
    requires |p| > 16 && i < |p| - 1
    ensures Cancel(p)[i] == (p[i + 1] != (i < 16 && p[0] && TAIL[i]))
  {
    var t := [true] + TAIL;
    if i < 16 { assert t[i + 1] == TAIL[i]; }
    if p[0] { assert Add(p, t)[1..][i] == Add(p, t)[i + 1]; }
  }

  /** One step of the division is one step of the register. */
  lemma CancelIsStep(r: Register, m: Poly)
    requires m != []
    ensures Cancel(Add(m + Zeros(16), r)) == Add(m[1..] + Zeros(16), Step(Add(r, [m[0]])))
  {
    var p := Add(m + Zeros(16), r);
    var s := Add(r, [m[0]]);
    assert p[0] == s[0];
    forall i | 0 <= i < |m| + 15 ensures Cancel(p)[i] == Add(m[1..] + Zeros(16), Step(s))[i] {
      CancelAt(p, i);
      assert (m + Zeros(16))[i + 1] == (m[1..] + Zeros(16))[i];
      if i < 16 { StepAt(s, i); }
      hide Cancel, Step;
    }
  }

  lemma {:induction false} DivideIsRemainder(r: Register, m: Poly)
    ensures Divide(r, m) == Remainder(Add(m + Zeros(16), r))
    decreases |m|
  {
    var p := Add(m + Zeros(16), r);
    if m == [] {
      assert p == r;
    } else {
      CancelIsStep(r, m);
      DivideIsRemainder(Step(Add(r, [m[0]])), m[1..]);
    }
  }

  lemma {:induction false} DivideConcat(r: Register, a: Poly, b: Poly)
    ensures Divide(r, a + b) == Divide(Divide(r, a), b)
    decreases |a|
  {
    if a == [] {
      assert a + b == b;
    } else {
      assert (a + b)[1..] == a[1..] + b;
      DivideConcat(Step(Add(r, [a[0]])), a[1..], b);
    }
  }

  /** Up to 16 bits can enter at once instead of one before each shift. */
  lemma {:induction false} AllAtOnce(r: Register, m: Poly)
    requires |m| <= 16
    ensures Divide(r, m) == Steps(Add(r, m), |m|)
    decreases |m|
  {
    if m == [] {
      assert Add(r, m) == r;
    } else {
      var r' := Step(Add(r, [m[0]]));
      AllAtOnce(r', m[1..]);
      assert Add(r', m[1..]) == Step(Add(r, m)) by {
        forall i | 0 <= i < 16 ensures Add(r', m[1..])[i] == Step(Add(r, m))[i] {
          StepAt(Add(r, [m[0]]), i);
          StepAt(Add(r, m), i);
          hide Step;
        }
      }
    }
  }

  // --- three facts about a shift ----------------------------------------------------------

  lemma StepLinear(r: Register, s: Register)
    ensures Step(Add(r, s)) == Add(Step(r), Step(s))
  {
    forall i | 0 <= i < 16 ensures Step(Add(r, s))[i] == Add(Step(r), Step(s))[i] {
      StepAt(Add(r, s), i);
      StepAt(r, i);
      StepAt(s, i);
      hide Step;
    }
  }

  lemma StepKeepsNonZero(r: Register)
    ensures IsZero(Step(r)) <==> IsZero(r)
  {
    if r[0] {
      assert Step(r)[15];
    } else {
      forall i | 0 < i < 16 ensures Step(r)[i - 1] == r[i] {
      }
      if IsZero(Step(r)) {
        forall i | 0 <= i < 16 ensures !r[i] {
          assert i > 0 ==> !Step(r)[i - 1];
        }
      }
    }
  }

  /** Whether a polynomial has an odd number of terms. */
  predicate Odd(p: Poly)
    decreases |p|
  {
    if p == [] then false else p[0] != Odd(p[1..])
  }

  lemma {:induction false} OddAdd(p: Poly, q: Poly)
    requires |p| == |q|
    ensures Odd(Add(p, q)) == (Odd(p) != Odd(q))
    decreases |p|
  {
    if p != [] {
      assert Add(p, q)[1..] == Add(p[1..], q[1..]);
      OddAdd(p[1..], q[1..]);
    }
  }

  lemma {:induction false} OddConcat(p: Poly, q: Poly)
    ensures Odd(p + q) == (Odd(p) != Odd(q))
    decreases |p|
  {
    if p == [] {
      assert p + q == q;
    } else {
      assert (p + q)[1..] == p[1..] + q;
      OddConcat(p[1..], q);
    }
  }

  lemma {:induction false} OddOfZeros(p: Poly)
    requires IsZero(p)
    ensures !Odd(p)
    decreases |p|
  {
    if p != [] {
      OddOfZeros(p[1..]);
    }
  }

  /** The generator has an even number of terms, so a shift keeps the parity. */
  lemma StepKeepsOdd(r: Register)
    ensures Odd(Step(r)) == Odd(r)
  {
    OddConcat(r[1..], [false]);
    OddOfZeros([false]);
    if r[0] {
      OddAdd(r[1..] + [false], TAIL);
      TailIsOdd();
    }
  }

  lemma TailIsOdd()
    ensures Odd(TAIL)
  {
    assert [true, false, true][1..] == [false, true] && [false, true][1..] == [true] && [true][1..] == [];
    assert Odd([true, false, true]) == false && Odd([true]);
    hide Odd;
    OddConcat([true] + Zeros(12), [true, false, true]);
    OddConcat([true], Zeros(12));
    OddOfZeros(Zeros(12));
  }

  // --- and of whole messages ------------------------------------------------------------------

  lemma {:induction false} DivideLinear(r: Register, s: Register, m: Poly, n: Poly)
    requires |m| == |n|
    ensures Divide(Add(r, s), Add(m, n)) == Add(Divide(r, m), Divide(s, n))
    decreases |m|
  {
    if m != [] {
      var rm, sn := Add(r, [m[0]]), Add(s, [n[0]]);
      assert Add(Add(r, s), [Add(m, n)[0]]) == Add(rm, sn);
      StepLinear(rm, sn);
      assert Add(m, n)[1..] == Add(m[1..], n[1..]);
      DivideLinear(Step(rm), Step(sn), m[1..], n[1..]);
    }
  }

  lemma {:induction false} StepsKeepNonZero(r: Register, n: nat)
    ensures IsZero(Steps(r, n)) <==> IsZero(r)
    decreases n
  {
    if n > 0 {
      StepKeepsNonZero(r);
      StepsKeepNonZero(Step(r), n - 1);
    }
  }

  /** A run of zero bits only shifts. */
  lemma {:induction false} DivideZeros(r: Register, z: Poly)
    requires IsZero(z)
    ensures Divide(r, z) == Steps(r, |z|)
    decreases |z|
  {
    if z != [] {
      assert Add(r, [z[0]]) == r;
      DivideZeros(Step(r), z[1..]);
    }
  }

  /** The register's parity is that of everything fed into it. */
  lemma {:induction false} DivideOdd(r: Register, m: Poly)
    ensures Odd(Divide(r, m)) == (Odd(r) != Odd(m))
    decreases |m|
  {
    if m != [] {
      var r' := Add(r, [m[0]]);
      assert r'[1..] == r[1..];
      StepKeepsOdd(r');
      DivideOdd(Step(r'), m[1..]);
    }
  }

  /** All the terms of `d` lie within 16 consecutive places. */
  ghost predicate Burst(d: Poly, from: nat) {
    forall i :: 0 <= i < |d| && d[i] ==> from <= i < from + 16
  }

  /** Up to 16 bits, not all zero, leave a non-zero register, and zero bits after them keep it so. */
  lemma ShortLeavesTrace(b: Poly, e: Poly)
    requires |b| <= 16 && !IsZero(b) && IsZero(e)
    ensures !IsZero(Divide(Zeros(16), b + e))
  {
    var zero := Zeros(16);
    var hit :| 0 <= hit < |b| && b[hit];
    DivideConcat(zero, b, e);
    AllAtOnce(zero, b);
    assert Add(zero, b)[hit];
    StepsKeepNonZero(Add(zero, b), |b|);
    DivideZeros(Divide(zero, b), e);
    StepsKeepNonZero(Divide(zero, b), |e|);
  }

  /** Zero bits leave the zero register alone. */
  lemma LeadingZeros(a: Poly, rest: Poly)
    requires IsZero(a)
    ensures Divide(Zeros(16), a + rest) == Divide(Zeros(16), rest)
  {
    var zero := Zeros(16);
    DivideConcat(zero, a, rest);
    DivideZeros(zero, a);
    StepsKeepNonZero(zero, |a|);
    assert Divide(zero, a) == zero;
  }

  /** A non-zero burst leaves a non-zero register. */
  lemma BurstLeavesTrace(d: Poly, from: nat)
    requires !IsZero(d) && Burst(d, from)
    ensures !IsZero(Divide(Zeros(16), d))
  {
    hide Divide;
    var to := if from + 16 <= |d| then from + 16 else |d|;
    BurstIsInside(d, from, to);
    var a, b, e := d[..from], d[from..to], d[to..];
    assert d == a + (b + e);
    LeadingZeros(a, b + e);
    ShortLeavesTrace(b, e);
  }

  lemma BurstIsInside(d: Poly, from: nat, to: nat)
    requires !IsZero(d) && Burst(d, from) && to == if from + 16 <= |d| then from + 16 else |d|
    ensures from <= to && IsZero(d[..from]) && !IsZero(d[from..to]) && IsZero(d[to..])
  {
    var hit :| 0 <= hit < |d| && d[hit];
    assert d[from..to][hit - from];
  }

  // --- words and bytes as bits ------------------------------------------------------------------

  predicate LowestBit(c: Word) {
    c & 1 == 1
  }

  function Half(c: Word): Word {
    c >> 1
  }

  function WordXor(a: Word, b: Word): Word {
    a ^ b
  }

  /** The `n` lowest bits of a word, lowest first. */
  function Low(c: Word, n: nat): (r: Poly)
    ensures |r| == n
    decreases n
  {
    if n == 0 then [] else [LowestBit(c)] + Low(Half(c), n - 1)
  }

  /** The register a word holds. */
  function Reg(c: Word): Register {
    Low(c, 16)
  }

  /** The bits of a byte, in the order they are sent. */
  function BitsOf(b: Byte): (bits: Poly)
    ensures |bits| == 8
  {
    Low(b as Word, 8)
  }

  /** The bits of a message. */
  function Bits(data: seq<Byte>): (bits: Poly)
    ensures |bits| == 8 * |data|
    decreases |data|
  {
    if data == [] then [] else BitsOf(data[0]) + Bits(data[1..])
  }

  /** `c` has no bit at or above place `n`. */
  predicate Fits(c: Word, n: nat)
    decreases n
  {
    if n == 0 then c == 0 else Fits(Half(c), n - 1)
  }

  lemma HalfBelow(c: Word, top: Word)
    requires c <= top
    ensures Half(c) <= Half(top)
  {
  }

  lemma {:induction false} FitsBelow(c: Word, top: Word, n: nat)
    requires c <= top && Fits(top, n)
    ensures Fits(c, n)
    decreases n
  {
    hide Half;
    if n > 0 {
      HalfBelow(c, top);
      FitsBelow(Half(c), Half(top), n - 1);
    }
  }

  lemma FitsConstants()
    ensures Fits(0, 0) && Fits(0xFF, 8) && Fits(0x7FFF, 15) && Fits(0xFFFF, 16)
  {
    assert Fits(0x0, 0);
    assert Fits(0x1, 1);
    assert Fits(0x3, 2);
    assert Fits(0x7, 3);
    assert Fits(0xF, 4);
    assert Fits(0x1F, 5);
    assert Fits(0x3F, 6);
    assert Fits(0x7F, 7);
    assert Fits(0xFF, 8);
    assert Fits(0x1FF, 9);
    assert Fits(0x3FF, 10);
    assert Fits(0x7FF, 11);
    assert Fits(0xFFF, 12);
    assert Fits(0x1FFF, 13);
    assert Fits(0x3FFF, 14);
    assert Fits(0x7FFF, 15);
    assert Fits(0xFFFF, 16);
  }

  lemma {:induction false} LowPad(c: Word, n: nat, k: nat)
    requires Fits(c, n)
    ensures Low(c, n + k) == Low(c, n) + Zeros(k)
    decreases n + k
  {
    if n > 0 {
      hide Half, LowestBit;
      LowPad(Half(c), n - 1, k);
    } else if k > 0 {
      LowPad(Half(c), 0, k - 1);
      assert Zeros(k) == [false] + Zeros(k - 1);
    }
  }

  lemma RegZero()
    ensures Reg(0) == Zeros(16)
  {
    LowPad(0, 0, 16);
  }

  lemma WordOfParts(a: Word, b: Word)
    requires LowestBit(a) == LowestBit(b) && Half(a) == Half(b)
    ensures a == b
  {
  }

  lemma {:induction false} LowInjective(a: Word, b: Word, n: nat)
    requires Fits(a, n) && Fits(b, n) && Low(a, n) == Low(b, n)
    ensures a == b
    decreases n
  {
    hide Half, LowestBit;
    if n > 0 {
      var x, y := Low(a, n), Low(b, n);
      assert x[0] == LowestBit(a) && y[0] == LowestBit(b);
      assert x[1..] == Low(Half(a), n - 1) && y[1..] == Low(Half(b), n - 1);
      LowInjective(Half(a), Half(b), n - 1);
      WordOfParts(a, b);
    }
  }

  lemma RegInjective(a: Word, b: Word)
    requires Reg(a) == Reg(b)
    ensures a == b
  {
    FitsConstants();
    FitsBelow(a, 0xFFFF, 16);
    FitsBelow(b, 0xFFFF, 16);
    LowInjective(a, b, 16);
  }

  lemma RegHalf(c: Word)
    ensures Reg(c >> 1) == Reg(c)[1..] + [false]
  {
    hide Half, LowestBit, Fits, Low;
    var h := c >> 1;
    HalfFits(c);
    LowStep(c, 16);
    LowPad(h, 15, 1);
    assert Zeros(1) == [false];
  }

  lemma HalfFits(c: Word)
    ensures Half(c) == c >> 1 && Fits(c >> 1, 15)
  {
    var h := c >> 1;
    assert h <= 0x7FFF;
    FitsConstants();
    FitsBelow(h, 0x7FFF, 15);
  }

  lemma XorParts(a: Word, b: Word)
    ensures Half(WordXor(a, b)) == WordXor(Half(a), Half(b))
    ensures LowestBit(WordXor(a, b)) == (LowestBit(a) != LowestBit(b))
  {
  }

  lemma {:induction false} LowXor(a: Word, b: Word, n: nat)
    ensures Low(WordXor(a, b), n) == Add(Low(a, n), Low(b, n))
    decreases n
  {
    hide Half, LowestBit, WordXor;
    if n > 0 {
      XorParts(a, b);
      LowXor(Half(a), Half(b), n - 1);
    }
  }

  lemma RegXor(a: Word, b: Word)
    ensures Reg(a ^ b) == Add(Reg(a), Reg(b))
  {
    LowXor(a, b, 16);
    hide Low;
  }

  const FIVE: Poly := [true, false, true]

  lemma FiveItself()
    ensures Low(0x5, 3) == Zeros(0) + FIVE
  {
    assert Low(0x1, 1) == [true] && Low(0x2, 2) == [false, true];
  }

  lemma FiveDoubled(c: Word, d: Word, k: nat)
    requires Low(c, k + 3) == Zeros(k) + FIVE && LowestBit(d) == false && Half(d) == c
    ensures Low(d, k + 4) == Zeros(k + 1) + FIVE
  {
    assert Zeros(k + 1) == [false] + Zeros(k);
  }

  lemma FiveDoubled6()
    ensures Low(0x140, 9) == Zeros(6) + FIVE
  {
    hide Low, Zeros, LowestBit, Half;
    FiveItself();
    DoublesTo(0x5, 0xA, 0);
    DoublesTo(0xA, 0x14, 1);
    DoublesTo(0x14, 0x28, 2);
    DoublesTo(0x28, 0x50, 3);
    DoublesTo(0x50, 0xA0, 4);
    DoublesTo(0xA0, 0x140, 5);
  }

  lemma FiveDoubled12()
    ensures Low(0x5000, 15) == Zeros(12) + FIVE
  {
    hide Low, Zeros, LowestBit, Half;
    FiveDoubled6();
    DoublesTo(0x140, 0x280, 6);
    DoublesTo(0x280, 0x500, 7);
    DoublesTo(0x500, 0xA00, 8);
    DoublesTo(0xA00, 0x1400, 9);
    DoublesTo(0x1400, 0x2800, 10);
    DoublesTo(0x2800, 0x5000, 11);
  }

  lemma DoublesTo(c: Word, d: Word, k: nat)
    requires Low(c, k + 3) == Zeros(k) + FIVE && d >> 1 == c && d & 1 == 0
    ensures Low(d, k + 4) == Zeros(k + 1) + FIVE
  {
    hide Low;
    FiveDoubled(c, d, k);
  }

  /** The polynomial's register: twelve clear bits below the three of 0x5, and one below those. */
  lemma RegPoly()
    ensures Reg(0xA001) == TAIL
  {
    hide Low, Zeros;
    FiveDoubled12();
    LowOfPoly();
    assert [true] + (Zeros(12) + FIVE) == TAIL;
  }

  lemma LowOfPoly()
    ensures Low(0xA001, 16) == [true] + Low(0x5000, 15)
  {
    LowStep(0xA001, 16);
  }

  lemma LowStep(c: Word, n: nat)
    requires n > 0
    ensures Low(c, n) == [LowestBit(c)] + Low(Half(c), n - 1)
  {
  }

  lemma ShiftIsStep(c: Word)
    ensures Reg(Shift(c)) == Step(Reg(c))
  {
    assert Reg(c)[0] == (c & 0x0001 == 1);
    hide Reg;
    RegHalf(c);
    RegPoly();
    RegXor(c >> 1, 0xA001);
  }

  lemma {:induction false} ShiftsAreSteps(c: Word, n: nat)
    ensures Reg(Shifts(c, n)) == Steps(Reg(c), n)
    decreases n
  {
    hide Reg;
    if n > 0 {
      ShiftIsStep(c);
      ShiftsAreSteps(Shift(c), n - 1);
    }
  }

  lemma RegOfByte(b: Byte)
    ensures Reg(b as Word) == BitsOf(b) + Zeros(8)
  {
    FitsConstants();
    assert b as Word <= 0xFF;
    FitsBelow(b as Word, 0xFF, 8);
    LowPad(b as Word, 8, 8);
  }

  lemma AddPadded(r: Register, m: Poly, k: nat)
    requires |m| + k <= 16
    ensures Add(r, m + Zeros(k)) == Add(r, m)
  {
  }

  /** Eight turns of the inner loop after a byte are eight bits of the division. */
  lemma FeedByteIsDivide(c: Word, b: Byte)
    ensures Reg(FeedByte(c, b)) == Divide(Reg(c), BitsOf(b))
  {
    hide Reg, BitsOf, Shifts, Divide, Steps, Add, Zeros;
    var w := b as Word;
    RegOfByte(b);
    RegXor(c, w);
    ShiftsAreSteps(c ^ w, 8);
    AllAtOnce(Reg(c), BitsOf(b));
    AddPadded(Reg(c), BitsOf(b), 8);
  }

  lemma {:induction false} FeedIsDivide(c: Word, data: seq<Byte>)
    ensures Reg(Feed(c, data)) == Divide(Reg(c), Bits(data))
    decreases |data|
  {
    hide Reg, BitsOf, FeedByte;
    if data != [] {
      FeedByteIsDivide(c, data[0]);
      FeedIsDivide(FeedByte(c, data[0]), data[1..]);
      DivideConcat(Reg(c), BitsOf(data[0]), Bits(data[1..]));
    }
  }

  // --- what the checksum is, and what it detects --------------------------------------------

  /** The checksum of a message of any length is the remainder of the message, followed by
      sixteen zero bits, divided by x^16 + x^15 + x^2 + 1. */
  lemma CrcIsRemainder(data: seq<Byte>)
    ensures Reg(Crc16(data)) == Remainder(Bits(data) + Zeros(16))
  {
    hide Reg, Crc16, Divide, Remainder, Bits, Add, Zeros;
    CrcIsDivision(data);
    DivideIsRemainder(Zeros(16), Bits(data));
    ZeroIsNeutral(Bits(data) + Zeros(16));
  }

  function ByteXor(a: Byte, b: Byte): Byte {
    a ^ b
  }

  /** Byte-wise exclusive or. */
  function Xor(a: seq<Byte>, b: seq<Byte>): (d: seq<Byte>)
    requires |a| == |b|
    ensures |d| == |a|
    ensures forall i :: 0 <= i < |a| ==> d[i] == ByteXor(a[i], b[i])
  {
    seq(|a|, i requires 0 <= i < |a| => ByteXor(a[i], b[i]))
  }

  lemma BitsOfXor(a: Byte, b: Byte)
    ensures BitsOf(ByteXor(a, b)) == Add(BitsOf(a), BitsOf(b))
  {
    assert (a ^ b) as Word == (a as Word) ^ (b as Word);
    LowXor(a as Word, b as Word, 8);
  }

  lemma AddConcat(p: Poly, q: Poly, u: Poly, v: Poly)
    requires |p| == |u| && |q| == |v|
    ensures Add(p + q, u + v) == Add(p, u) + Add(q, v)
  {
  }

  lemma {:induction false} BitsXor(a: seq<Byte>, b: seq<Byte>)
    requires |a| == |b|
    ensures Bits(Xor(a, b)) == Add(Bits(a), Bits(b))
    decreases |a|
  {
    hide BitsOf, ByteXor, Add, Bits, Xor;
    if a == [] {
      NoBits(a, b);
    } else {
      BitsXor(a[1..], b[1..]);
      XorFirst(a, b);
      BitsFirst(a);
      BitsFirst(b);
      BitsFirst(Xor(a, b));
      BitsOfXor(a[0], b[0]);
      AddConcat(BitsOf(a[0]), Bits(a[1..]), BitsOf(b[0]), Bits(b[1..]));
    }
  }

  lemma NoBits(a: seq<Byte>, b: seq<Byte>)
    requires a == [] && b == []
    ensures Bits(Xor(a, b)) == Add(Bits(a), Bits(b))
  {
  }

  lemma BitsFirst(a: seq<Byte>)
    requires a != []
    ensures Bits(a) == BitsOf(a[0]) + Bits(a[1..])
  {
    hide BitsOf;
  }

  lemma XorFirst(a: seq<Byte>, b: seq<Byte>)
    requires |a| == |b| && a != []
    ensures Xor(a, b)[0] == ByteXor(a[0], b[0]) && Xor(a, b)[1..] == Xor(a[1..], b[1..])
  {
    hide ByteXor;
  }

  /** The checksum is the register after the message, from zero. */
  lemma CrcIsDivision(data: seq<Byte>)
    ensures Reg(Crc16(data)) == Divide(Zeros(16), Bits(data))
  {
    hide Reg, Divide, Bits, Feed;
    FeedIsDivide(0, data);
    RegZero();
  }

  lemma ZeroIsNeutral(p: Poly)
    requires |p| >= 16
    ensures Add(p, Zeros(16)) == p
  {
  }

  /** The checksum is linear: crc(a xor b) = crc(a) xor crc(b) for messages of equal length. */
  lemma CrcIsLinear(a: seq<Byte>, b: seq<Byte>)
    requires |a| == |b|
    ensures Crc16(Xor(a, b)) == Crc16(a) ^ Crc16(b)
  {
    hide Reg, Crc16, Add, Xor;
    RegistersAreLinear(a, b);
    WordOfSum(Crc16(Xor(a, b)), Crc16(a), Crc16(b));
  }

  lemma WordOfSum(w: Word, u: Word, v: Word)
    requires Reg(w) == Add(Reg(u), Reg(v))
    ensures w == u ^ v
  {
    hide Reg, Add;
    RegXor(u, v);
    RegInjective(w, u ^ v);
  }

  lemma RegistersAreLinear(a: seq<Byte>, b: seq<Byte>)
    requires |a| == |b|
    ensures Reg(Crc16(Xor(a, b))) == Add(Reg(Crc16(a)), Reg(Crc16(b)))
  {
    hide Reg, Crc16, Divide, Bits, Add, Xor, Zeros;
    var zero := Zeros(16);
    CrcIsDivision(a);
    CrcIsDivision(b);
    CrcIsDivision(Xor(a, b));
    BitsXor(a, b);
    ZeroIsNeutral(zero);
    DivideLinear(zero, zero, Bits(a), Bits(b));
  }

  /** Where two equally long messages differ, bit by bit. */
  function Difference(a: seq<Byte>, b: seq<Byte>): Poly
    requires |a| == |b|
  {
    Add(Bits(a), Bits(b))
  }

  /** Two equally long messages have the same checksum exactly when their difference divides. */
  lemma SameCrcExactlyWhen(a: seq<Byte>, b: seq<Byte>)
    requires |a| == |b|
    ensures Crc16(a) == Crc16(b) <==> IsZero(Divide(Zeros(16), Difference(a, b)))
  {
    hide Reg, Crc16, Divide, Bits, Add, Zeros, IsZero;
    CrcIsDivision(a);
    CrcIsDivision(b);
    ZeroIsNeutral(Zeros(16));
    DivideLinear(Zeros(16), Zeros(16), Bits(a), Bits(b));
    SameExactlyWhen(Reg(Crc16(a)), Reg(Crc16(b)));
    if Reg(Crc16(a)) == Reg(Crc16(b)) {
      RegInjective(Crc16(a), Crc16(b));
    }
  }

  lemma SameExactlyWhen(r: Register, s: Register)
    ensures r == s <==> IsZero(Add(r, s))
  {
    if IsZero(Add(r, s)) {
      forall i | 0 <= i < 16 ensures r[i] == s[i] {
        assert !Add(r, s)[i];
      }
    }
  }

  /** The long-division form of the same: undetected means divisible. */
  lemma UndetectedIsDivisible(a: seq<Byte>, b: seq<Byte>)
    requires |a| == |b|
    ensures Crc16(a) == Crc16(b) <==> IsZero(Remainder(Difference(a, b) + Zeros(16)))
  {
    hide Crc16, Divide, Remainder, Difference, Add, Zeros, IsZero;
    SameCrcExactlyWhen(a, b);
    DivideIsRemainder(Zeros(16), Difference(a, b));
    ZeroIsNeutral(Difference(a, b) + Zeros(16));
  }

  /** Every corruption confined to 16 consecutive bits changes the checksum. */
  lemma BurstIsDetected(a: seq<Byte>, b: seq<Byte>, from: nat)
    requires |a| == |b| && Burst(Difference(a, b), from) && !IsZero(Difference(a, b))
    ensures Crc16(a) != Crc16(b)
  {
    hide Crc16, Divide, Difference, Zeros, IsZero, Burst;
    SameCrcExactlyWhen(a, b);
    BurstLeavesTrace(Difference(a, b), from);
  }

  /** Every corruption of an odd number of bits changes the checksum. */
  lemma OddIsDetected(a: seq<Byte>, b: seq<Byte>)
    requires |a| == |b| && Odd(Difference(a, b))
    ensures Crc16(a) != Crc16(b)
  {
    hide Crc16, Divide, Difference, Odd;
    SameCrcExactlyWhen(a, b);
    var zero := Zeros(16);
    DivideOdd(zero, Difference(a, b));
    OddOfZeros(zero);
    if IsZero(Divide(zero, Difference(a, b))) {
      OddOfZeros(Divide(zero, Difference(a, b)));
    }
  }

  /** The two bytes of a word, low byte first. */
  function Bytes(c: Word): seq<Byte> {
    [(c & 0xFF) as Byte, (c >> 8) as Byte]
  }

  /** The mask `m` keeps the `n` lowest bits. */
  predicate Keeps(m: Word, n: nat)
    decreases n
  {
    n == 0 || (LowestBit(m) && Keeps(Half(m), n - 1))
  }

  lemma MaskParts(c: Word, m: Word)
    ensures Half(c & m) == Half(c) & Half(m)
    ensures LowestBit(m) ==> LowestBit(c & m) == LowestBit(c)
  {
  }

  lemma {:induction false} LowMasked(c: Word, m: Word, n: nat)
    requires Keeps(m, n)
    ensures Low(c & m, n) == Low(c, n)
    decreases n
  {
    hide Half, LowestBit;
    if n > 0 {
      MaskParts(c, m);
      LowMasked(Half(c), Half(m), n - 1);
    }
  }

  /** `n` single shifts to the right. */
  function Drop(c: Word, n: nat): Word
    decreases n
  {
    if n == 0 then c else Drop(Half(c), n - 1)
  }

  lemma {:induction false} LowSplit(c: Word, n: nat, k: nat)
    ensures Low(c, n + k) == Low(c, n) + Low(Drop(c, n), k)
    decreases n
  {
    hide Half, LowestBit;
    if n > 0 {
      LowSplit(Half(c), n - 1, k);
    }
  }

  lemma DropByte(c: Word)
    ensures Drop(c, 8) == c >> 8
  {
    var c2 := Half(Half(c));
    var c4 := Half(Half(c2));
    var c6 := Half(Half(c4));
    var c8 := Half(Half(c6));
    assert c8 == c >> 8;
    hide Half;
    assert Drop(c6, 2) == c8;
    assert Drop(c4, 4) == c8;
    assert Drop(c2, 6) == c8;
  }

  lemma KeepsByte()
    ensures Keeps(0xFF, 8)
  {
    assert Keeps(0x1, 1) && Keeps(0x3, 2) && Keeps(0x7, 3) && Keeps(0xF, 4);
    assert Keeps(0x1F, 5) && Keeps(0x3F, 6) && Keeps(0x7F, 7);
  }

  lemma BytesOfWord(c: Word)
    ensures BitsOf((c & 0xFF) as Byte) + BitsOf((c >> 8) as Byte) == Reg(c)
  {
    KeepsByte();
    hide Keeps;
    assert (c & 0xFF) as Byte as Word == c & 0xFF && (c >> 8) as Byte as Word == c >> 8;
    LowMasked(c, 0xFF, 8);
    DropByte(c);
    LowSplit(c, 8, 8);
  }

  lemma BitsOfTwo(lo: Byte, hi: Byte)
    ensures Bits([lo, hi]) == BitsOf(lo) + BitsOf(hi)
  {
    hide BitsOf;
    assert [lo, hi][1..] == [hi] && [hi][1..] == [];
  }

  lemma BitsOfBytes(c: Word)
    ensures Bits(Bytes(c)) == Reg(c)
  {
    hide Reg, BitsOf, Bits;
    BytesOfWord(c);
    BitsOfTwo((c & 0xFF) as Byte, (c >> 8) as Byte);
  }

  lemma {:induction false} FeedConcat(c: Word, a: seq<Byte>, b: seq<Byte>)
    ensures Feed(c, a + b) == Feed(Feed(c, a), b)
    decreases |a|
  {
    if a == [] {
      assert a + b == b;
    } else {
      assert (a + b)[1..] == a[1..] + b;
      FeedConcat(FeedByte(c, a[0]), a[1..], b);
    }
  }

  /** A message followed by its own checksum, low byte first, has checksum 0. */
  lemma ResidueIsZero(data: seq<Byte>)
    ensures Crc16(data + Bytes(Crc16(data))) == 0
  {
    hide Reg, Bytes;
    var c := Crc16(data);
    FeedConcat(0, data, Bytes(c));
    FeedIsDivide(c, Bytes(c));
    BitsOfBytes(c);
    AllAtOnce(Reg(c), Reg(c));
    assert IsZero(Add(Reg(c), Reg(c)));
    StepsKeepNonZero(Add(Reg(c), Reg(c)), 16);
    RegZero();
    assert Reg(Feed(c, Bytes(c))) == Zeros(16);
    RegInjective(Feed(c, Bytes(c)), 0);
  }

  // --- the check value --------------------------------------------------------------------

  /** Eight turns of the inner loop, one after the other. */
  lemma EightShifts(c: Word)
    ensures Shifts(c, 8) == Shift(Shift(Shift(Shift(Shift(Shift(Shift(Shift(c))))))))
  {
    hide Shift;
    assert Shifts(c, 8) == Shifts(Shift(c), 7);
    FourShifts(Shift(c), 3);
    FourShifts(Shift(Shift(Shift(Shift(Shift(c))))), 0);
  }

  lemma FourShifts(c: Word, n: nat)
    ensures Shifts(c, n + 4) == Shifts(Shift(Shift(Shift(Shift(c)))), n)
    ensures Shifts(c, n + 3) == Shifts(Shift(Shift(Shift(c))), n)
  {
    hide Shift;
    assert Shifts(c, n + 4) == Shifts(Shift(c), n + 3);
    assert forall d :: Shifts(d, n + 3) == Shifts(Shift(d), n + 2);
    assert forall d :: Shifts(d, n + 2) == Shifts(Shift(d), n + 1);
    assert forall d :: Shifts(d, n + 1) == Shifts(Shift(d), n);
  }

  /** Byte `i` of `data` takes the register from `c` to `next`. */
  lemma NextByte(c: Word, data: seq<Byte>, i: nat, next: Word)
    requires i < |data|
    requires next == Shift(Shift(Shift(Shift(Shift(Shift(Shift(Shift(c ^ (data[i] as Word)))))))))
    ensures Feed(c, data[i..]) == Feed(next, data[i + 1..])
  {
    hide Shift, Shifts;
    EightShifts(c ^ (data[i] as Word));
    assert data[i..][1..] == data[i + 1..];
  }

  /** The check value of CRC-16/ARC: the checksum of the text 123456789 is 0xBB3D. */
  lemma CheckValue()
    ensures Crc16([0x31, 0x32, 0x33, 0x34, 0x35, 0x36, 0x37, 0x38, 0x39]) == 0xBB3D
  {
    hide Feed;
    var data: seq<Byte> := [0x31, 0x32, 0x33, 0x34, 0x35, 0x36, 0x37, 0x38, 0x39];
    assert data[0..] == data;
    NextByte(0x0000, data, 0, 0xD4C1);
    NextByte(0xD4C1, data, 1, 0x4594);
    NextByte(0x4594, data, 2, 0xBA04);
    NextByte(0xBA04, data, 3, 0x14BA);
    NextByte(0x14BA, data, 4, 0xA455);
    NextByte(0xA455, data, 5, 0x29E4);
    NextByte(0x29E4, data, 6, 0x9D68);
    NextByte(0x9D68, data, 7, 0x3C9D);
    NextByte(0x3C9D, data, 8, 0xBB3D);
    assert data[9..] == [];
    NothingFed(0xBB3D);
  }

  lemma NothingFed(c: Word)
    ensures Feed(c, []) == c
  {
  }
}
