/** Bit vectors, least significant bit first, and the numbers they stand for. */
module BitVectors {

  type Vector = seq<bool>

  type Byte = n: int | 0 <= n < 256

  type Word16 = n: int | 0 <= n < 0x10000

  /** A station address, first byte sent first. */
  type Mac = m: seq<Byte> | |m| == 6 witness [0, 0, 0, 0, 0, 0]

  /** An IPv4 address, first byte sent first. */
  type Ip = a: seq<Byte> | |a| == 4 witness [0, 0, 0, 0]

  function Pow2(n: nat): (p: nat)
    ensures p >= 1
  {
    if n == 0 then 1 else 2 * Pow2(n - 1)
  }

  /** The w low bits of n. */
  function Bits(n: nat, w: nat): (b: Vector)
    ensures |b| == w
  {
    if w == 0 then [] else [n % 2 == 1] + Bits(n / 2, w - 1)
  }

  function Value(v: Vector): (n: nat)
    ensures n < Pow2(|v|)
  {
    if v == [] then 0 else (if v[0] then 1 else 0) + 2 * Value(v[1..])
  }

  lemma {:induction false} ValueOfBits(n: nat, w: nat)
    requires n < Pow2(w)
    ensures Value(Bits(n, w)) == n
  {
    if w > 0 {
      ValueOfBits(n / 2, w - 1);
      assert Bits(n, w)[1..] == Bits(n / 2, w - 1);
    }
  }

  lemma {:induction false} BitsOfValue(v: Vector)
    ensures Bits(Value(v), |v|) == v
  {
    if v != [] {
      BitsOfValue(v[1..]);
      assert v == [v[0]] + v[1..];
    }
  }

  function Xor(a: Vector, b: Vector): (r: Vector)
    requires |a| == |b|
    ensures |r| == |a|
  {
    seq(|a|, i requires 0 <= i < |a| => a[i] != b[i])
  }

  function Not(a: Vector): (r: Vector)
    ensures |r| == |a|
  {
    seq(|a|, i requires 0 <= i < |a| => !a[i])
  }

  function Reverse(a: Vector): (r: Vector)
    ensures |r| == |a|
  {
    seq(|a|, i requires 0 <= i < |a| => a[|a| - 1 - i])
  }

  lemma PowEight()
    ensures Pow2(8) == 256
  {
    assert Pow2(4) == 16;
    assert Pow2(6) == 64;
  }

  function ByteBits(b: Byte): (v: Vector)
    ensures |v| == 8
  {
    Bits(b, 8)
  }

  function ByteOf(v: Vector): (b: Byte)
    requires |v| == 8
    ensures ByteBits(b) == v
  {
    PowEight();
    BitsOfValue(v);
    Value(v)
  }

  lemma ByteBitsInjective(a: Byte, b: Byte)
    requires ByteBits(a) == ByteBits(b)
    ensures a == b
  {
    PowEight();
    ValueOfBits(a, 8);
    ValueOfBits(b, 8);
  }
}
