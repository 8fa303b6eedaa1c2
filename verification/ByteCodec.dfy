/** How devices/lora.py reads an integer field out of a payload: `int.from_bytes` in either byte
    order, signed or not, and one bit of it. */
module ByteCodec {
  type byte = x: int | 0 <= x < 256

  datatype Order = Big | Little

  function Pow2(k: nat): (p: nat)
    ensures 0 < p
  {
    if k == 0 then 1 else 2 * Pow2(k - 1)
  }

  /** The number of values `n` bytes can hold. */
  function Range(n: nat): (r: int)
    ensures 0 < r
  {
    Pow2(8 * n)
  }

  function FromBig(chunk: seq<byte>): nat {
    if chunk == [] then 0 else 256 * FromBig(chunk[..|chunk| - 1]) + chunk[|chunk| - 1]
  }

  function FromLittle(chunk: seq<byte>): nat {
    if chunk == [] then 0 else chunk[0] + 256 * FromLittle(chunk[1..])
  }

  function Unsigned(chunk: seq<byte>, order: Order): nat {
    if order.Big? then FromBig(chunk) else FromLittle(chunk)
  }

  /** `int.from_bytes`: two's complement when signed. */
  function FromBytes(chunk: seq<byte>, order: Order, signed: bool): int {
    var u := Unsigned(chunk, order);
    if signed && chunk != [] && Range(|chunk|) <= 2 * u then u - Range(|chunk|) else u
  }

  /** `int.to_bytes`, which a node's firmware does. */
  function ToBig(v: nat, n: nat): (chunk: seq<byte>)
    ensures |chunk| == n
  {
    if n == 0 then [] else ToBig(v / 256, n - 1) + [v % 256]
  }

  function ToLittle(v: nat, n: nat): (chunk: seq<byte>)
    ensures |chunk| == n
  {
    if n == 0 then [] else [v % 256] + ToLittle(v / 256, n - 1)
  }

  function ToBytes(v: int, n: nat, order: Order): (chunk: seq<byte>)
    ensures |chunk| == n
  {
    var u := v % Range(n);
    if order.Big? then ToBig(u, n) else ToLittle(u, n)
  }

  /** What `n` bytes can say. */
  predicate Representable(v: int, n: nat, signed: bool) {
    if signed && n > 0 then -Range(n) <= 2 * v < Range(n) else 0 <= v < Range(n)
  }

  lemma RangeSucc(n: nat)
    ensures Range(n + 1) == 256 * Range(n)
  {
    var k := 8 * n;
    assert Pow2(k + 8) == 2 * Pow2(k + 7) == 4 * Pow2(k + 6) == 8 * Pow2(k + 5) == 16 * Pow2(k + 4);
    assert Pow2(k + 4) == 2 * Pow2(k + 3) == 4 * Pow2(k + 2) == 8 * Pow2(k + 1) == 16 * Pow2(k);
  }

  /** The bytes in the other order. */
  function Reversed(chunk: seq<byte>): (r: seq<byte>)
    ensures |r| == |chunk|
    ensures forall i :: 0 <= i < |chunk| ==> r[i] == chunk[|chunk| - 1 - i]
  {
    seq(|chunk|, i requires 0 <= i < |chunk| => chunk[|chunk| - 1 - i])
  }

  /** Little-endian is big-endian on the reversed bytes. */
  lemma {:induction false} LittleIsBigReversed(chunk: seq<byte>)
    ensures FromLittle(chunk) == FromBig(Reversed(chunk))
    decreases |chunk|
  {
    if chunk != [] {
      LittleIsBigReversed(chunk[1..]);
      assert Reversed(chunk[1..]) == Reversed(chunk)[..|chunk| - 1];
    }
  }

  /** In big-endian order the first byte is the most significant, in little-endian order the least. */
  lemma FirstByteWeighs(first: byte, rest: seq<byte>)
    ensures Unsigned([first] + rest, Big) == first * Range(|rest|) + Unsigned(rest, Big)
    ensures Unsigned([first] + rest, Little) == first + 256 * Unsigned(rest, Little)
  {
    BigFirst(first, rest);
    assert ([first] + rest)[1..] == rest;
  }

  lemma {:induction false} BigFirst(first: byte, rest: seq<byte>)
    ensures FromBig([first] + rest) == first * Range(|rest|) + FromBig(rest)
    decreases |rest|
  {
    hide Range;
    var all := [first] + rest;
    if rest == [] {
      assert all[..0] == [] && Range(0) == 1 by { OneValue(); }
    } else {
      var n := |rest| - 1;
      assert all[..|all| - 1] == [first] + rest[..n];
      BigFirst(first, rest[..n]);
      RangeSucc(n);
      assert first * Range(n + 1) == 256 * (first * Range(n));
    }
  }

  lemma OneValue()
    ensures Range(0) == 1
  {
  }

  lemma {:induction false} BigFits(chunk: seq<byte>)
    ensures FromBig(chunk) < Range(|chunk|)
  {
    if chunk != [] {
      BigFits(chunk[..|chunk| - 1]);
      RangeSucc(|chunk| - 1);
    }
  }

  lemma UnsignedFits(chunk: seq<byte>, order: Order)
    ensures Unsigned(chunk, order) < Range(|chunk|)
  {
    BigFits(chunk);
    LittleIsBigReversed(chunk);
    BigFits(Reversed(chunk));
  }

  lemma {:induction false} BigInverse(v: nat, n: nat)
    requires v < Range(n)
    ensures FromBig(ToBig(v, n)) == v
  {
    if n > 0 {
      RangeSucc(n - 1);
      BigInverse(v / 256, n - 1);
      assert ToBig(v, n)[..n - 1] == ToBig(v / 256, n - 1);
    }
  }

  lemma {:induction false} LittleInverse(v: nat, n: nat)
    requires v < Range(n)
    ensures FromLittle(ToLittle(v, n)) == v
  {
    if n > 0 {
      RangeSucc(n - 1);
      LittleInverse(v / 256, n - 1);
      assert ToLittle(v, n)[1..] == ToLittle(v / 256, n - 1);
    }
  }

  lemma {:induction false} BigUnique(a: seq<byte>, b: seq<byte>)
    requires |a| == |b| && FromBig(a) == FromBig(b)
    ensures a == b
  {
    if a != [] {
      var n := |a| - 1;
      BigUnique(a[..n], b[..n]);
      assert a == a[..n] + [a[n]] && b == b[..n] + [b[n]];
    }
  }

  lemma UnsignedUnique(a: seq<byte>, b: seq<byte>, order: Order)
    requires |a| == |b| && Unsigned(a, order) == Unsigned(b, order)
    ensures a == b
  {
    if order.Big? {
      BigUnique(a, b);
    } else {
      LittleIsBigReversed(a);
      LittleIsBigReversed(b);
      BigUnique(Reversed(a), Reversed(b));
      forall i | 0 <= i < |a| ensures a[i] == b[i] {
        assert Reversed(a)[|a| - 1 - i] == Reversed(b)[|a| - 1 - i];
      }
    }
  }

  lemma ModOfShifted(u: int, m: int)
    requires 0 <= u < m
    ensures u % m == u && (u - m) % m == u
  {
    var q := (u - m) / m;
    assert u - m == m * q + (u - m) % m;
    if q > -1 { Times(m, q, 0); } else if q < -1 { Times(m, -2, q); }
  }

  lemma Times(m: int, a: int, b: int)
    requires m > 0
    ensures a >= b ==> m * a >= m * b
  {
  }

  /** Reading back what was written gives the same number, for every length, byte order and sign. */
  lemma DecodeOfEncode(v: int, n: nat, order: Order, signed: bool)
    requires Representable(v, n, signed)
    ensures FromBytes(ToBytes(v, n, order), order, signed) == v
  {
    var u := v % Range(n);
    BigInverse(u, n);
    LittleInverse(u, n);
    if v < 0 { ModOfShifted(v + Range(n), Range(n)); } else { ModOfShifted(v, Range(n)); }
  }

  /** Writing what was read gives the same bytes, and every chunk reads as something the length
      can hold. */
  lemma EncodeOfDecode(chunk: seq<byte>, order: Order, signed: bool)
    ensures Representable(FromBytes(chunk, order, signed), |chunk|, signed)
    ensures ToBytes(FromBytes(chunk, order, signed), |chunk|, order) == chunk
  {
    var u, n := Unsigned(chunk, order), |chunk|;
    UnsignedFits(chunk, order);
    ModOfShifted(u, Range(n));
    BigInverse(u, n);
    LittleInverse(u, n);
    UnsignedUnique(ToBytes(u, n, order), chunk, order);
  }

  /** The signed reading is the unsigned one modulo what the length can hold. */
  lemma SignedIsUnsignedModulo(chunk: seq<byte>, order: Order)
    ensures FromBytes(chunk, order, true) % Range(|chunk|) == FromBytes(chunk, order, false)
  {
    UnsignedFits(chunk, order);
    ModOfShifted(Unsigned(chunk, order), Range(|chunk|));
  }

  /** A number is zero exactly when all its bytes are. */
  lemma ZeroExactlyWhen(chunk: seq<byte>, order: Order)
    ensures FromBytes(chunk, order, false) == 0 <==> forall i :: 0 <= i < |chunk| ==> chunk[i] == 0
  {
    var big := if order.Big? then chunk else Reversed(chunk);
    LittleIsBigReversed(chunk);
    BigZeroExactlyWhen(big);
    if order.Little? {
      assert forall i :: 0 <= i < |chunk| ==> chunk[i] == big[|chunk| - 1 - i];
    }
  }

  lemma {:induction false} BigZeroExactlyWhen(chunk: seq<byte>)
    ensures FromBig(chunk) == 0 <==> forall i :: 0 <= i < |chunk| ==> chunk[i] == 0
  {
    if chunk != [] {
      var n := |chunk| - 1;
      BigZeroExactlyWhen(chunk[..n]);
      assert forall i :: 0 <= i < n ==> chunk[i] == chunk[..n][i];
    }
  }

  // ----- bits -----

  /** `(v >> k) & 1` on Python's integers: the shift rounds towards minus infinity. */
  predicate Bit(v: int, k: nat) {
    (v / Pow2(k)) % 2 == 1
  }

  lemma HalfFirst(v: int, p: int)
    requires p > 0
    ensures v / (2 * p) == (v / 2) / p
  {
    var h, q := v / 2, (v / 2) / p;
    assert h == p * q + h % p;
    assert v == (2 * p) * q + (2 * (h % p) + v % 2);
    Quotient(v, 2 * p, q, 2 * (h % p) + v % 2);
  }

  lemma Quotient(v: int, d: int, q: int, r: int)
    requires d > 0 && v == d * q + r && 0 <= r < d
    ensures v / d == q
  {
    var p := v / d;
    assert v == d * p + v % d;
    Times(d, p, q + 1);
    Times(d, q, p + 1);
    assert d * (q + 1) == d * q + d && d * (p + 1) == d * p + d;
  }

  lemma BitSucc(v: int, k: nat)
    ensures Bit(v, k + 1) == Bit(v / 2, k)
  {
    HalfFirst(v, Pow2(k));
  }

  /** The bits of `low + 2^m * high`, with `low` below `2^m`. */
  lemma {:induction false} BitSplit(low: nat, high: int, m: nat, k: nat)
    requires low < Pow2(m)
    ensures Bit(low + Pow2(m) * high, k) == if k < m then Bit(low, k) else Bit(high, k - m)
  {
    hide Bit;
    if m > 0 {
      var t := Pow2(m - 1) * high;
      assert low + Pow2(m) * high == low + 2 * t;
      if k > 0 {
        BitSucc(low + 2 * t, k - 1);
        BitSucc(low, k - 1);
        BitSplit(low / 2, high, m - 1, k - 1);
      } else {
        LowestBit(low, t);
      }
    } else {
      assert low + Pow2(m) * high == high;
    }
  }

  lemma LowestBit(low: int, t: int)
    ensures Bit(low + 2 * t, 0) == Bit(low, 0)
  {
  }

  lemma {:induction false} LittleBit(chunk: seq<byte>, k: nat)
    requires k < 8 * |chunk|
    ensures Bit(FromLittle(chunk), k) == Bit(chunk[k / 8], k % 8)
    decreases |chunk|
  {
    assert Pow2(8) == 256 by { RangeSucc(0); }
    hide Bit, Pow2;
    BitSplit(chunk[0], FromLittle(chunk[1..]), 8, k);
    if k >= 8 {
      LittleBit(chunk[1..], k - 8);
      assert chunk[1..][(k - 8) / 8] == chunk[k / 8];
    }
  }

  /** The byte that holds bit `k`. */
  function Holder(chunk: seq<byte>, order: Order, k: nat): byte
    requires k < 8 * |chunk|
  {
    if order.Big? then chunk[|chunk| - 1 - k / 8] else chunk[k / 8]
  }

  /** Bit `k` of a field is a physical bit of the payload, whatever the sign; past the end it is 0,
      or the sign of a signed number. */
  lemma BitIsPhysical(chunk: seq<byte>, order: Order, signed: bool, k: nat)
    ensures k < 8 * |chunk| ==>
              Bit(FromBytes(chunk, order, signed), k) == Bit(Holder(chunk, order, k), k % 8)
    ensures k >= 8 * |chunk| ==>
              Bit(FromBytes(chunk, order, signed), k) == (FromBytes(chunk, order, signed) < 0)
  {
    hide Bit, Pow2, FromBig, FromLittle;
    var u, n := Unsigned(chunk, order), |chunk|;
    var high := if FromBytes(chunk, order, signed) == u then 0 else -1;
    UnsignedFits(chunk, order);
    assert FromBytes(chunk, order, signed) == u + Pow2(8 * n) * high;
    BitSplit(u, high, 8 * n, k);
    if k < 8 * n {
      UnsignedBit(chunk, order, k);
    } else {
      SignExtends(k - 8 * n);
    }
  }

  lemma UnsignedBit(chunk: seq<byte>, order: Order, k: nat)
    requires k < 8 * |chunk|
    ensures Bit(Unsigned(chunk, order), k) == Bit(Holder(chunk, order, k), k % 8)
  {
    hide Bit, FromBig, FromLittle;
    if order.Big? {
      LittleIsBigReversed(Reversed(chunk));
      assert Reversed(Reversed(chunk)) == chunk;
      LittleBit(Reversed(chunk), k);
    } else {
      LittleBit(chunk, k);
    }
  }

  lemma {:induction false} SignExtends(k: nat)
    ensures Bit(-1, k) && !Bit(0, k)
  {
    if k > 0 {
      BitSucc(-1, k - 1);
      BitSucc(0, k - 1);
      SignExtends(k - 1);
    }
  }
}
