/** The Ethernet frame check sequence: byte-parallel CRC-32, its four output bytes and the residue test. */
module EthernetFcs {
  import opened BitVectors

  type Crc32 = x: Vector | |x| == 32 witness Bits(0, 32)

  function Hex(d: nat): (v: Vector)
    ensures |v| == 4
  {
    [d % 2 == 1, d / 2 % 2 == 1, d / 4 % 2 == 1, d / 8 % 2 == 1]
  }

  /** A register value written in hexadecimal, most significant digit first. */
  function Word(d7: nat, d6: nat, d5: nat, d4: nat, d3: nat, d2: nat, d1: nat, d0: nat): Crc32 {
    Hex(d0) + Hex(d1) + Hex(d2) + Hex(d3) + Hex(d4) + Hex(d5) + Hex(d6) + Hex(d7)
  }

  const INIT: Crc32 := Word(0xF, 0xF, 0xF, 0xF, 0xF, 0xF, 0xF, 0xF)

  const RESIDUE: Crc32 := Word(0xC, 0x7, 0x0, 0x4, 0xD, 0xD, 0x7, 0xB)

  /** Contribution of t to bit i, where t(k) is crc_in(24 + k) xor data(k): the two always enter together. */
  predicate Feed(t: Vector, i: nat)
    requires |t| == 8 && i < 32
  {
    if i == 0 then t[0] != t[6]
    else if i == 1 then ((t[0] != t[1]) != t[6]) != t[7]
    else if i == 2 then (((t[0] != t[1]) != t[2]) != t[6]) != t[7]
    else if i == 3 then ((t[1] != t[2]) != t[3]) != t[7]
    else if i == 4 then (((t[0] != t[2]) != t[3]) != t[4]) != t[6]
    else if i == 5 then (((((t[0] != t[1]) != t[3]) != t[4]) != t[5]) != t[6]) != t[7]
    else if i == 6 then ((((t[1] != t[2]) != t[4]) != t[5]) != t[6]) != t[7]
    else if i == 7 then (((t[0] != t[2]) != t[3]) != t[5]) != t[7]
    else if i == 8 then ((t[0] != t[1]) != t[3]) != t[4]
    else if i == 9 then ((t[1] != t[2]) != t[4]) != t[5]
    else if i == 10 then ((t[0] != t[2]) != t[3]) != t[5]
    else if i == 11 then ((t[0] != t[1]) != t[3]) != t[4]
    else if i == 12 then ((((t[0] != t[1]) != t[2]) != t[4]) != t[5]) != t[6]
    else if i == 13 then ((((t[1] != t[2]) != t[3]) != t[5]) != t[6]) != t[7]
    else if i == 14 then (((t[2] != t[3]) != t[4]) != t[6]) != t[7]
    else if i == 15 then ((t[3] != t[4]) != t[5]) != t[7]
    else if i == 16 then (t[0] != t[4]) != t[5]
    else if i == 17 then (t[1] != t[5]) != t[6]
    else if i == 18 then (t[2] != t[6]) != t[7]
    else if i == 19 then t[3] != t[7]
    else if i == 20 then t[4]
    else if i == 21 then t[5]
    else if i == 22 then t[0]
    else if i == 23 then (t[0] != t[1]) != t[6]
    else if i == 24 then (t[1] != t[2]) != t[7]
    else if i == 25 then t[2] != t[3]
    else if i == 26 then ((t[0] != t[3]) != t[4]) != t[6]
    else if i == 27 then ((t[1] != t[4]) != t[5]) != t[7]
    else if i == 28 then (t[2] != t[5]) != t[6]
    else if i == 29 then (t[3] != t[6]) != t[7]
    else if i == 30 then t[4] != t[7]
    else t[5]
  }

  predicate CalcBit(data: Vector, crc: Crc32, i: nat)
    requires |data| == 8 && i < 32
  {
    (i >= 8 && crc[i - 8]) != Feed(Xor(crc[24..], data), i)
  }

  /** The generated byte-parallel update. */
  function CalcCrc32(data: Vector, crc: Crc32): (next: Crc32)
    requires |data| == 8
  {
    seq(32, i requires 0 <= i < 32 => CalcBit(data, crc, i))
  }

  /** The register after one byte of the frame. */
  function Absorb(crc: Crc32, b: Byte): Crc32 { CalcCrc32(Reverse(ByteBits(b)), crc) }

  /** The register after a byte string. */
  function Crc(crc: Crc32, bytes: seq<Byte>): Crc32 {
    if bytes == [] then crc else Absorb(Crc(crc, bytes[..|bytes| - 1]), bytes[|bytes| - 1])
  }

  /** The byte sent for the top byte of a register: complemented, least significant bit first. */
  function FcsByte(crc: Crc32): Byte { ByteOf(Not(Reverse(crc[24..]))) }

  /** The register shifted on by one byte, filled with ones. */
  function ShiftOut(crc: Crc32): Crc32 { seq(8, i => true) + crc[..24] }

  /** The four bytes emitted for a register value, first to last. */
  function Fcs(crc: Crc32): (f: seq<Byte>)
    ensures |f| == 4
  {
    [FcsByte(crc), FcsByte(ShiftOut(crc)), FcsByte(ShiftOut(ShiftOut(crc))), FcsByte(ShiftOut(ShiftOut(ShiftOut(crc))))]
  }

  // ---------------------------------------------------------------- the bit-serial register

  /** The exponents of polynomial 04C11DB7. */
  predicate Poly(i: int) {
    i == 0 || i == 1 || i == 2 || i == 4 || i == 5 || i == 7 || i == 8 || i == 10 || i == 11 || i == 12
    || i == 16 || i == 22 || i == 23 || i == 26
  }

  /** One step of the left-shifting LFSR. */
  function Shift(x: Crc32): Crc32 {
    seq(32, i requires 0 <= i < 32 => (i > 0 && x[i - 1]) != (Poly(i) && x[31]))
  }

  function ShiftN(x: Crc32, n: nat): Crc32
    decreases n
  {
    if n == 0 then x else ShiftN(Shift(x), n - 1)
  }

  /** One data bit enters at the top of the register. */
  function SerialBit(x: Crc32, bit: bool): Crc32 { Shift(x[31 := x[31] != bit]) }

  /** The reference: the data bits enter the serial register one by one. */
  function Serial(x: Crc32, bits: Vector): Crc32
    decreases |bits|
  {
    if bits == [] then x else Serial(SerialBit(x, bits[0]), bits[1..])
  }

  /** Bytes as sent on the wire, least significant bit first. */
  function Wire(bytes: seq<Byte>): (bits: Vector)
    ensures |bits| == 8 * |bytes|
  {
    if bytes == [] then [] else Wire(bytes[..|bytes| - 1]) + ByteBits(bytes[|bytes| - 1])
  }

  // ---------------------------------------------------------------- linearity

  lemma ShiftLinear(x: Crc32, y: Crc32)
    ensures Shift(Xor(x, y)) == Xor(Shift(x), Shift(y))
  {
  }

  /** The register step loses nothing. */
  lemma ShiftInjective(x: Crc32, y: Crc32)
    requires Shift(x) == Shift(y)
    ensures x == y
  {
    assert Shift(x)[0] == x[31] && Shift(y)[0] == y[31];
    forall i | 0 <= i < 31
      ensures x[i] == y[i]
    {
      assert Shift(x)[i + 1] == Shift(y)[i + 1];
    }
  }

  lemma {:induction false} ShiftNInjective(x: Crc32, y: Crc32, n: nat)
    requires ShiftN(x, n) == ShiftN(y, n)
    ensures x == y
    decreases n
  {
    if n > 0 {
      ShiftNInjective(Shift(x), Shift(y), n - 1);
      ShiftInjective(x, y);
    }
  }

  lemma {:induction false} ShiftNAdd(x: Crc32, m: nat, n: nat)
    ensures ShiftN(x, m + n) == ShiftN(ShiftN(x, m), n)
    decreases m
  {
    if m > 0 {
      ShiftNAdd(Shift(x), m - 1, n);
    }
  }

  /** Data bits laid out from the top of the register down. */
  function Place(bits: Vector): Crc32
    requires |bits| <= 32
  {
    seq(32, i requires 0 <= i < 32 => 31 - i < |bits| && bits[31 - i])
  }

  /** Up to 32 bits entering one by one are the same as all of them entering at once, then shifting. */
  lemma {:induction false} SerialIsPlaced(x: Crc32, bits: Vector)
    requires |bits| <= 32
    ensures Serial(x, bits) == ShiftN(Xor(x, Place(bits)), |bits|)
    decreases |bits|
  {
    if bits == [] {
      assert Xor(x, Place(bits)) == x;
    } else {
      var first := x[31 := x[31] != bits[0]];
      var rest := Place(bits)[31 := false];
      SerialIsPlaced(Shift(first), bits[1..]);
      assert Shift(rest) == Place(bits[1..]);
      ShiftLinear(first, rest);
      assert Xor(first, rest) == Xor(x, Place(bits));
    }
  }

  lemma {:induction false} SerialAppend(x: Crc32, a: Vector, b: Vector)
    ensures Serial(x, a + b) == Serial(Serial(x, a), b)
    decreases |a|
  {
    if a == [] {
      assert a + b == b;
    } else {
      assert (a + b)[1..] == a[1..] + b;
      SerialAppend(SerialBit(x, a[0]), a[1..], b);
    }
  }

  // ---------------------------------------------------------------- the parallel form is the serial form

  /** Bit i of a register, zero below its end. */
  function At(x: Crc32, i: int): bool { 0 <= i < 32 && x[i] }

  lemma ShiftAt(x: Crc32, i: int)
    requires i < 32
    ensures At(Shift(x), i) == (At(x, i - 1) != (Poly(i) && x[31]))
  {
  }

  lemma ShiftTwiceAt(x: Crc32, i: int)
    requires i < 32
    ensures At(ShiftN(x, 2), i) == ((At(x, i - 2) != (Poly(i - 1) && x[31])) != (Poly(i) && x[30]))
  {
    var x1 := Shift(x);
    assert ShiftN(x, 2) == ShiftN(x1, 1) == ShiftN(Shift(x1), 0) == Shift(x1);
    ShiftAt(x1, i);
    ShiftAt(x, i - 1);
    ShiftAt(x, 31);
  }

  lemma ShiftFourAt(x: Crc32, i: int)
    requires i < 32
    ensures At(ShiftN(x, 4), i)
            == ((((At(x, i - 4) != (Poly(i - 3) && x[31])) != (Poly(i - 2) && x[30])) != (Poly(i - 1) && x[29])) != (Poly(i) && x[28]))
  {
    var x2 := ShiftN(x, 2);
    ShiftNAdd(x, 2, 2);
    ShiftTwiceAt(x2, i);
    ShiftTwiceAt(x, i - 2);
    ShiftTwiceAt(x, 31);
    ShiftTwiceAt(x, 30);
  }

  lemma ShiftEightAt(x: Crc32, i: int)
    requires i < 32
    ensures var y := ShiftN(x, 4);
            At(ShiftN(x, 8), i)
            == ((((At(y, i - 4) != (Poly(i - 3) && x[27])) != (Poly(i - 2) && x[26])) != (Poly(i - 1) && (x[25] != x[31])))
                != (Poly(i) && (x[24] != x[30])))
  {
    var y := ShiftN(x, 4);
    ShiftNAdd(x, 4, 4);
    ShiftFourAt(y, i);
    ShiftFourAt(x, 31);
    ShiftFourAt(x, 30);
    ShiftFourAt(x, 29);
    ShiftFourAt(x, 28);
  }

  /** Bit i after eight shifts: the bit eight places below and what the top byte feeds back. */
  lemma EightShiftsBit(x: Crc32, i: nat)
    requires i < 32
    ensures ShiftN(x, 8)[i] == ((i >= 8 && x[i - 8]) != Feed(x[24..], i))
  {
    ShiftEightAt(x, i);
    ShiftFourAt(x, i - 4);
    FeedIsPoly(x[24..], i);
    assert At(ShiftN(x, 8), i) == ShiftN(x, 8)[i];
  }

  /** The table of the parallel update is eight steps of feedback through the polynomial. */
  lemma FeedIsPoly(t: Vector, i: nat)
    requires |t| == 8 && i < 32
    ensures Feed(t, i)
            == ((((((((Poly(i - 7) && t[7]) != (Poly(i - 6) && t[6])) != (Poly(i - 5) && t[5])) != (Poly(i - 4) && t[4]))
                  != (Poly(i - 3) && t[3])) != (Poly(i - 2) && t[2])) != (Poly(i - 1) && (t[1] != t[7])))
               != (Poly(i) && (t[0] != t[6])))
  {
    match i {
      case 0 => case 1 => case 2 => case 3 =>
      case 4 => case 5 => case 6 => case 7 =>
      case 8 => case 9 => case 10 => case 11 =>
      case 12 => case 13 => case 14 => case 15 =>
      case 16 => case 17 => case 18 => case 19 =>
      case 20 => case 21 => case 22 => case 23 =>
      case 24 => case 25 => case 26 => case 27 =>
      case 28 => case 29 => case 30 => case 31 =>
      case _ => assert false;
    }
  }

  lemma ParallelIsShift(x: Crc32, data: Vector)
    requires |data| == 8
    ensures CalcCrc32(data, x) == ShiftN(Xor(x, Place(Reverse(data))), 8)
  {
    var y := Xor(x, Place(Reverse(data)));
    assert y[24..] == Xor(x[24..], data);
    forall i | 0 <= i < 32
      ensures CalcCrc32(data, x)[i] == ShiftN(y, 8)[i]
    {
      EightShiftsBit(y, i);
    }
  }

  lemma AbsorbIsSerial(x: Crc32, b: Byte)
    ensures Absorb(x, b) == Serial(x, ByteBits(b))
  {
    var v := ByteBits(b);
    ParallelIsShift(x, Reverse(v));
    assert Reverse(Reverse(v)) == v;
    SerialIsPlaced(x, v);
  }

  /** The unrolled byte-parallel function computes the bit-serial register, on every byte string. */
  lemma {:induction false} CrcIsSerial(x: Crc32, bytes: seq<Byte>)
    ensures Crc(x, bytes) == Serial(x, Wire(bytes))
    decreases |bytes|
  {
    if bytes != [] {
      var init := bytes[..|bytes| - 1];
      CrcIsSerial(x, init);
      AbsorbIsSerial(Crc(x, init), bytes[|bytes| - 1]);
      SerialAppend(x, Wire(init), ByteBits(bytes[|bytes| - 1]));
    }
  }

  // ---------------------------------------------------------------- byte strings

  lemma {:induction false} CrcAppend(x: Crc32, a: seq<Byte>, b: seq<Byte>)
    ensures Crc(x, a + b) == Crc(Crc(x, a), b)
    decreases |b|
  {
    if b == [] {
      assert a + b == a;
    } else {
      var b' := b[..|b| - 1];
      assert (a + b)[..|a + b| - 1] == a + b';
      CrcAppend(x, a, b');
    }
  }

  lemma {:induction false} WireInjective(f: seq<Byte>, g: seq<Byte>)
    requires |f| == |g| && Wire(f) == Wire(g)
    ensures f == g
    decreases |f|
  {
    if f != [] {
      var n := |f| - 1;
      assert Wire(f[..n]) == Wire(f)[..8 * n] == Wire(g)[..8 * n] == Wire(g[..n]);
      assert ByteBits(f[n]) == Wire(f)[8 * n..] == Wire(g)[8 * n..] == ByteBits(g[n]);
      WireInjective(f[..n], g[..n]);
      ByteBitsInjective(f[n], g[n]);
    }
  }

  lemma CrcOfFour(x: Crc32, f: seq<Byte>)
    requires |f| == 4
    ensures Crc(x, f) == ShiftN(Xor(x, Place(Wire(f))), 32)
  {
    CrcIsSerial(x, f);
    SerialIsPlaced(x, Wire(f));
  }

  lemma PlaceInjective(x: Crc32, a: Vector, b: Vector)
    requires |a| == |b| <= 32 && Xor(x, Place(a)) == Xor(x, Place(b))
    ensures a == b
  {
    forall k | 0 <= k < |a|
      ensures a[k] == b[k]
    {
      assert Xor(x, Place(a))[31 - k] == Xor(x, Place(b))[31 - k];
      assert Place(a)[31 - k] == a[k] && Place(b)[31 - k] == b[k];
    }
  }

  /** From the same register, different four-byte strings never lead to the same register. */
  lemma FourBytesInjective(x: Crc32, f: seq<Byte>, g: seq<Byte>)
    requires |f| == |g| == 4 && Crc(x, f) == Crc(x, g)
    ensures f == g
  {
    CrcOfFour(x, f);
    CrcOfFour(x, g);
    ShiftNInjective(Xor(x, Place(Wire(f))), Xor(x, Place(Wire(g))), 32);
    PlaceInjective(x, Wire(f), Wire(g));
    WireInjective(f, g);
  }

  /** A common suffix never hides a difference between two registers. */
  lemma {:induction false} SuffixInjective(x: Crc32, y: Crc32, suffix: Vector)
    requires Serial(x, suffix) == Serial(y, suffix)
    ensures x == y
    decreases |suffix|
  {
    if suffix != [] {
      SuffixInjective(SerialBit(x, suffix[0]), SerialBit(y, suffix[0]), suffix[1..]);
      var x', y' := x[31 := x[31] != suffix[0]], y[31 := y[31] != suffix[0]];
      ShiftInjective(x', y');
      assert forall i :: 0 <= i < 31 ==> x[i] == x'[i] && y[i] == y'[i];
      assert x'[31] == y'[31];
    }
  }

  /** Two byte strings that differ only inside a window of four consecutive bytes never reach the same register. */
  lemma WindowDetected(x: Crc32, prefix: seq<Byte>, f: seq<Byte>, g: seq<Byte>, suffix: seq<Byte>)
    requires |f| == |g| == 4 && f != g
    ensures Crc(x, prefix + f + suffix) != Crc(x, prefix + g + suffix)
  {
    CrcAppend(x, prefix + f, suffix);
    CrcAppend(x, prefix + g, suffix);
    CrcAppend(x, prefix, f);
    CrcAppend(x, prefix, g);
    if Crc(x, prefix + f + suffix) == Crc(x, prefix + g + suffix) {
      CrcIsSerial(Crc(x, prefix + f), suffix);
      CrcIsSerial(Crc(x, prefix + g), suffix);
      SuffixInjective(Crc(x, prefix + f), Crc(x, prefix + g), Wire(suffix));
      FourBytesInjective(Crc(x, prefix), f, g);
    }
  }

  /** One byte's worth of shifting, stated bit by bit. */
  lemma EightShiftsTo(x: Crc32, y: Crc32)
    requires forall i :: 0 <= i < 32 ==> y[i] == ((i >= 8 && x[i - 8]) != Feed(x[24..], i))
    ensures ShiftN(x, 8) == y
  {
    forall i | 0 <= i < 32
      ensures ShiftN(x, 8)[i] == y[i]
    {
      EightShiftsBit(x, i);
    }
  }

  /** Register values met on the way from all ones to the residue. */
  const MID1: Crc32 := Word(0x4, 0xE, 0x0, 0x8, 0xB, 0xF, 0xB, 0x4)
  const MID2: Crc32 := Word(0x0, 0x0, 0xB, 0x7, 0x6, 0x4, 0x7, 0xD)
  const MID3: Crc32 := Word(0xB, 0x7, 0x6, 0x4, 0x7, 0xD, 0x0, 0x0)

  lemma InitIsOnes()
    ensures forall i :: 0 <= i < 32 ==> INIT[i]
  {
  }

  lemma ResidueByte1()
    ensures ShiftN(INIT, 8) == MID1
  {
    var t := INIT[24..];
    forall i | 0 <= i < 32
      ensures MID1[i] == ((i >= 8 && INIT[i - 8]) != Feed(t, i))
    {
      match i {
        case 0 => case 1 => case 2 => case 3 =>
        case 4 => case 5 => case 6 => case 7 =>
        case 8 => case 9 => case 10 => case 11 =>
        case 12 => case 13 => case 14 => case 15 =>
        case 16 => case 17 => case 18 => case 19 =>
        case 20 => case 21 => case 22 => case 23 =>
        case 24 => case 25 => case 26 => case 27 =>
        case 28 => case 29 => case 30 => case 31 =>
        case _ => assert false;
      }
    }
    EightShiftsTo(INIT, MID1);
  }

  lemma ResidueByte2()
    ensures ShiftN(MID1, 8) == MID2
  {
    var t := MID1[24..];
    forall i | 0 <= i < 32
      ensures MID2[i] == ((i >= 8 && MID1[i - 8]) != Feed(t, i))
    {
      match i {
        case 0 => case 1 => case 2 => case 3 =>
        case 4 => case 5 => case 6 => case 7 =>
        case 8 => case 9 => case 10 => case 11 =>
        case 12 => case 13 => case 14 => case 15 =>
        case 16 => case 17 => case 18 => case 19 =>
        case 20 => case 21 => case 22 => case 23 =>
        case 24 => case 25 => case 26 => case 27 =>
        case 28 => case 29 => case 30 => case 31 =>
        case _ => assert false;
      }
    }
    EightShiftsTo(MID1, MID2);
  }

  lemma ResidueByte3()
    ensures ShiftN(MID2, 8) == MID3
  {
    var t := MID2[24..];
    forall i | 0 <= i < 32
      ensures MID3[i] == ((i >= 8 && MID2[i - 8]) != Feed(t, i))
    {
      match i {
        case 0 => case 1 => case 2 => case 3 =>
        case 4 => case 5 => case 6 => case 7 =>
        case 8 => case 9 => case 10 => case 11 =>
        case 12 => case 13 => case 14 => case 15 =>
        case 16 => case 17 => case 18 => case 19 =>
        case 20 => case 21 => case 22 => case 23 =>
        case 24 => case 25 => case 26 => case 27 =>
        case 28 => case 29 => case 30 => case 31 =>
        case _ => assert false;
      }
    }
    EightShiftsTo(MID2, MID3);
  }

  lemma ResidueByte4()
    ensures ShiftN(MID3, 8) == RESIDUE
  {
    var t := MID3[24..];
    forall i | 0 <= i < 32
      ensures RESIDUE[i] == ((i >= 8 && MID3[i - 8]) != Feed(t, i))
    {
      match i {
        case 0 => case 1 => case 2 => case 3 =>
        case 4 => case 5 => case 6 => case 7 =>
        case 8 => case 9 => case 10 => case 11 =>
        case 12 => case 13 => case 14 => case 15 =>
        case 16 => case 17 => case 18 => case 19 =>
        case 20 => case 21 => case 22 => case 23 =>
        case 24 => case 25 => case 26 => case 27 =>
        case 28 => case 29 => case 30 => case 31 =>
        case _ => assert false;
      }
    }
    EightShiftsTo(MID3, RESIDUE);
  }

  /** Shifting all ones through 32 steps gives the residue. */
  lemma ResidueConstant()
    ensures ShiftN(INIT, 32) == RESIDUE
  {
    ShiftNAdd(INIT, 8, 8);
    ShiftNAdd(INIT, 16, 8);
    ShiftNAdd(INIT, 24, 8);
    ResidueByte1();
    ResidueByte2();
    ResidueByte3();
    ResidueByte4();
  }

  lemma WireOne(bytes: seq<Byte>, b: Byte)
    ensures Wire(bytes + [b]) == Wire(bytes) + ByteBits(b)
  {
    assert (bytes + [b])[..|bytes|] == bytes;
  }

  lemma WireOfFour(a: Byte, b: Byte, c: Byte, d: Byte)
    ensures Wire([a, b, c, d]) == ((ByteBits(a) + ByteBits(b)) + ByteBits(c)) + ByteBits(d)
  {
    hide ByteBits;
    WireOne([], a);
    WireOne([a], b);
    WireOne([a, b], c);
    WireOne([a, b, c], d);
    assert [] + [a] == [a] && [a] + [b] == [a, b] && [a, b] + [c] == [a, b, c] && [a, b, c] + [d] == [a, b, c, d];
    assert Wire([]) + ByteBits(a) == ByteBits(a);
  }

  lemma FcsBits(x: Crc32)
    ensures ByteBits(FcsByte(x)) == Not(Reverse(x[24..]))
  {
  }

  lemma WireOfFcs(x: Crc32)
    ensures Wire(Fcs(x)) == Not(Reverse(x))
  {
    hide Not, Reverse, ShiftOut, FcsByte, Wire, ByteBits;
    var f := Fcs(x);
    var x1 := ShiftOut(x);
    var x2 := ShiftOut(x1);
    var x3 := ShiftOut(x2);
    WireOfFour(f[0], f[1], f[2], f[3]);
    assert f == [f[0], f[1], f[2], f[3]];
    ShiftedQuarters(x);
    FcsBits(x);
    FcsBits(x1);
    FcsBits(x2);
    FcsBits(x3);
    ComplementedQuarters(x);
  }

  /** The quarters of a register come to the top one after the other. */
  lemma ShiftedQuarters(x: Crc32)
    ensures ShiftOut(x)[24..] == x[16..24] && ShiftOut(ShiftOut(x))[24..] == x[8..16]
    ensures ShiftOut(ShiftOut(ShiftOut(x)))[24..] == x[..8]
  {
    var x1 := ShiftOut(x);
    var x2 := ShiftOut(x1);
    assert x2[24..] == x1[16..24] == x[8..16];
    assert x2[16..24] == x1[8..16] == x[..8];
  }

  /** With the four bytes, the register is back at its initial value. */
  lemma ShiftedOutIsInit(x: Crc32)
    ensures ShiftOut(ShiftOut(ShiftOut(ShiftOut(x)))) == INIT
  {
    hide ShiftOut;
    InitIsOnes();
    var x1 := ShiftOut(x);
    var x2 := ShiftOut(x1);
    var x3 := ShiftOut(x2);
    OnesEnter(x, 0);
    OnesEnter(x1, 8);
    OnesEnter(x2, 16);
    OnesEnter(x3, 24);
    assert forall i :: 0 <= i < 32 ==> ShiftOut(x3)[i] == INIT[i];
  }

  lemma OnesEnter(x: Crc32, k: nat)
    requires k <= 24 && forall i :: 0 <= i < k ==> x[i]
    ensures forall i :: 0 <= i < k + 8 ==> ShiftOut(x)[i]
  {
    forall i | 0 <= i < k + 8
      ensures ShiftOut(x)[i]
    {
      if i >= 8 {
        assert ShiftOut(x)[i] == x[i - 8];
      }
    }
  }

  lemma ComplementedQuarters(x: Crc32)
    ensures Not(Reverse(x))
            == ((Not(Reverse(x[24..])) + Not(Reverse(x[16..24]))) + Not(Reverse(x[8..16]))) + Not(Reverse(x[..8]))
  {
  }

  lemma XorWithComplement(x: Crc32)
    ensures Xor(x, Place(Not(Reverse(x)))) == INIT
  {
    InitIsOnes();
  }

  /** The residue test is exact: the register of a frame is the residue if and only if the last four bytes are the
      check sequence of the bytes before them. */
  lemma ResidueIffFcs(bytes: seq<Byte>, tail: seq<Byte>)
    requires |tail| == 4
    ensures Crc(INIT, bytes + tail) == RESIDUE <==> tail == Fcs(Crc(INIT, bytes))
  {
    var x := Crc(INIT, bytes);
    CrcAppend(INIT, bytes, tail);
    CrcOfFour(x, Fcs(x));
    WireOfFcs(x);
    XorWithComplement(x);
    ResidueConstant();
    if Crc(x, tail) == RESIDUE {
      FourBytesInjective(x, tail, Fcs(x));
    }
  }

  /** A valid frame corrupted inside any window of four consecutive bytes fails the residue test. */
  lemma CorruptedFrameRejected(prefix: seq<Byte>, f: seq<Byte>, g: seq<Byte>, suffix: seq<Byte>)
    requires |f| == |g| == 4 && f != g
    requires Crc(INIT, prefix + f + suffix) == RESIDUE
    ensures Crc(INIT, prefix + g + suffix) != RESIDUE
  {
    WindowDetected(INIT, prefix, f, g, suffix);
  }

  /** The only register value that eight shifts take to all ones. */
  const BEFORE: Crc32 := Word(0x9, 0xB, 0xF, 0x1, 0xA, 0x9, 0x0, 0xF)

  lemma BeforeIsBefore()
    ensures ShiftN(BEFORE, 8) == INIT
  {
    var t := BEFORE[24..];
    forall i | 0 <= i < 32
      ensures INIT[i] == ((i >= 8 && BEFORE[i - 8]) != Feed(t, i))
    {
      match i {
        case 0 => case 1 => case 2 => case 3 =>
        case 4 => case 5 => case 6 => case 7 =>
        case 8 => case 9 => case 10 => case 11 =>
        case 12 => case 13 => case 14 => case 15 =>
        case 16 => case 17 => case 18 => case 19 =>
        case 20 => case 21 => case 22 => case 23 =>
        case 24 => case 25 => case 26 => case 27 =>
        case 28 => case 29 => case 30 => case 31 =>
        case _ => assert false;
      }
    }
    EightShiftsTo(BEFORE, INIT);
  }

  /** No first byte leaves the register as it was. */
  lemma FirstByteMatters(b: Byte)
    ensures Absorb(INIT, b) != INIT
  {
    var bits := ByteBits(b);
    PlacedIsNotBefore(bits);
    if Absorb(INIT, b) == INIT {
      BeforeIsBefore();
      AbsorbIsSerial(INIT, b);
      SerialIsPlaced(INIT, bits);
      ShiftNInjective(Xor(INIT, Place(bits)), BEFORE, 8);
    }
  }

  lemma PlacedIsNotBefore(bits: Vector)
    requires |bits| == 8
    ensures Xor(INIT, Place(bits)) != BEFORE
  {
    InitIsOnes();
    assert Xor(INIT, Place(bits))[4] != BEFORE[4];
  }

  // ---------------------------------------------------------------- a known value

  lemma EightBits(b: Byte)
    ensures var n := b as int;
            ByteBits(b) == [n % 2 == 1, n / 2 % 2 == 1, n / 4 % 2 == 1, n / 8 % 2 == 1,
                            n / 16 % 2 == 1, n / 32 % 2 == 1, n / 64 % 2 == 1, n / 128 % 2 == 1]
  {
    var n := b as int;
    LowFour(n, 4);
    LowFour(n / 16, 0);
    assert n / 16 / 2 == n / 32 && n / 16 / 4 == n / 64 && n / 16 / 8 == n / 128;
    assert Bits(n / 16 / 16, 0) == [];
  }

  lemma LowFour(n: nat, w: nat)
    ensures Bits(n, w + 4) == [n % 2 == 1, n / 2 % 2 == 1, n / 4 % 2 == 1, n / 8 % 2 == 1] + Bits(n / 16, w)
  {
    assert n / 2 / 2 == n / 4 && n / 4 / 2 == n / 8 && n / 8 / 2 == n / 16;
    assert Bits(n, w + 4) == [n % 2 == 1] + Bits(n / 2, w + 3);
    assert Bits(n / 2, w + 3) == [n / 2 % 2 == 1] + Bits(n / 4, w + 2);
    assert Bits(n / 4, w + 2) == [n / 4 % 2 == 1] + Bits(n / 8, w + 1);
    assert Bits(n / 8, w + 1) == [n / 8 % 2 == 1] + Bits(n / 16, w);
  }

  /** All ones with the bits of 61 added at the top, and the register eight shifts later. */
  const START_A: Crc32 := Word(0x7, 0x9, 0xF, 0xF, 0xF, 0xF, 0xF, 0xF)
  const AFTER_A: Crc32 := Word(0x3, 0xD, 0x8, 0x2, 0x1, 0x2, 0xE, 0x8)

  lemma ShiftsOfA()
    ensures ShiftN(START_A, 8) == AFTER_A
  {
    var t := START_A[24..];
    forall i | 0 <= i < 32
      ensures AFTER_A[i] == ((i >= 8 && START_A[i - 8]) != Feed(t, i))
    {
      match i {
        case 0 => case 1 => case 2 => case 3 =>
        case 4 => case 5 => case 6 => case 7 =>
        case 8 => case 9 => case 10 => case 11 =>
        case 12 => case 13 => case 14 => case 15 =>
        case 16 => case 17 => case 18 => case 19 =>
        case 20 => case 21 => case 22 => case 23 =>
        case 24 => case 25 => case 26 => case 27 =>
        case 28 => case 29 => case 30 => case 31 =>
        case _ => assert false;
      }
    }
    EightShiftsTo(START_A, AFTER_A);
  }

  /** The register of the one-byte string "a": complemented and read from the top bit down it is E8B7BE43, the CRC-32 of
      that string. */
  lemma RegisterOfA()
    ensures Crc(INIT, [0x61]) == AFTER_A
  {
    hide Feed, Poly, CalcBit, Bits;
    assert [0x61 as Byte][..0] == [];
    assert Crc(INIT, [0x61]) == Absorb(INIT, 0x61);
    AbsorbIsSerial(INIT, 0x61);
    SerialIsPlaced(INIT, ByteBits(0x61));
    PlacedA();
    ShiftsOfA();
  }

  /** Bits that enter all ones at the top show as their complement. */
  lemma PlacedOnOnes(x: Crc32, bits: Vector)
    requires |bits| == 8 && (forall i :: 0 <= i < 24 ==> x[i]) && forall k :: 0 <= k < 8 ==> x[31 - k] == !bits[k]
    ensures Xor(INIT, Place(bits)) == x
  {
    InitIsOnes();
    forall i | 0 <= i < 32
      ensures Xor(INIT, Place(bits))[i] == x[i]
    {
      if i >= 24 {
        assert x[31 - (31 - i)] == !bits[31 - i];
      }
    }
  }

  lemma StartBits()
    ensures (forall i :: 0 <= i < 24 ==> START_A[i]) && START_A[24..] == [true, false, false, true, true, true, true, false]
  {
  }

  lemma PlacedA()
    ensures Xor(INIT, Place(ByteBits(0x61))) == START_A
  {
    hide Xor, Place, Bits, ByteBits;
    EightBits(0x61);
    StartBits();
    forall k | 0 <= k < 8
      ensures START_A[31 - k] == !ByteBits(0x61)[k]
    {
      assert START_A[31 - k] == START_A[24..][7 - k];
    }
    PlacedOnOnes(START_A, ByteBits(0x61));
  }

  // ---------------------------------------------------------------- the clocked entity

  datatype FcsRegs = FcsRegs(crc: Crc32, fcsByte: Byte)

  /** A new register value and, with it, the byte to send for its top byte. */
  function Show(crc: Crc32): FcsRegs { FcsRegs(crc, FcsByte(crc)) }

  function Update(s: FcsRegs, reset: bool, data: Byte, valid: bool, enCalc: bool): FcsRegs {
    if reset then FcsRegs(INIT, s.fcsByte)
    else if enCalc && valid then Show(Absorb(s.crc, data))
    else if valid then Show(ShiftOut(s.crc))
    else s
  }

  /** The bytes shown by the output register over k cycles in which it is shifted out. */
  function Emitted(s: FcsRegs, k: nat): (bytes: seq<Byte>)
    ensures |bytes| == k
    decreases k
  {
    if k == 0 then [] else [s.fcsByte] + Emitted(Update(s, false, 0, true, false), k - 1)
  }

  /** After the last byte of a frame the output register shows the four bytes of the check sequence in turn. */
  lemma EmittedIsFcs(s: FcsRegs, data: Byte)
    ensures var after := Update(s, false, data, true, true); Emitted(after, 4) == Fcs(after.crc)
  {
    var s0 := Update(s, false, data, true, true);
    var s1 := Update(s0, false, 0, true, false);
    var s2 := Update(s1, false, 0, true, false);
    var s3 := Update(s2, false, 0, true, false);
    assert Emitted(s3, 1) == [s3.fcsByte];
    assert Emitted(s2, 2) == [s2.fcsByte] + Emitted(s3, 1);
    assert Emitted(s1, 3) == [s1.fcsByte] + Emitted(s2, 2);
    assert Emitted(s0, 4) == [s0.fcsByte] + Emitted(s1, 3);
  }

  class Generator {
    var crcReg: Crc32
    var fcsByte: Byte

    constructor ()
      ensures Registers() == FcsRegs(INIT, 0)
    {
      crcReg, fcsByte := INIT, 0;
    }

    function Registers(): FcsRegs
      reads this
    {
      FcsRegs(crcReg, fcsByte)
    }

    method Clock(reset: bool, data: Byte, valid: bool, enCalc: bool)
      modifies this
      ensures Registers() == Update(old(Registers()), reset, data, valid, enCalc)
    {
      var crcNext := CalcCrc32(Reverse(ByteBits(data)), crcReg);
      if reset {
        crcReg := INIT;
      } else if enCalc && valid {
        crcReg := crcNext;
        fcsByte := FcsByte(crcNext);
      } else if valid {
        crcReg := ShiftOut(crcReg);
        fcsByte := FcsByte(crcReg);
      }
    }

    /** Compares the register with the residue; when it has absorbed a byte string since reset, that tells whether the
        last four bytes are the check sequence of the others. */
    method Verifies() returns (ok: bool)
      ensures ok == (crcReg == RESIDUE)
      ensures forall bytes: seq<Byte>, tail: seq<Byte> :: |tail| == 4 && crcReg == Crc(INIT, bytes + tail) ==>
                (ok <==> tail == Fcs(Crc(INIT, bytes)))
    {
      ok := crcReg == RESIDUE;
      forall bytes: seq<Byte>, tail: seq<Byte> | |tail| == 4 && crcReg == Crc(INIT, bytes + tail)
        ensures ok <==> tail == Fcs(Crc(INIT, bytes))
      {
        ResidueIffFcs(bytes, tail);
      }
    }
  }
}
