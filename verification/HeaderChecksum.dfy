/** The IPv4 header checksum: the seed that the host computes and the sum that the framer completes. */
module HeaderChecksum {
  import opened BitVectors

  type Address = n: int | 0 <= n < 0x1_0000_0000

  /** The 20 header bytes. The seed is computed with length and checksum zero. */
  function HeaderBytes(src: Address, dest: Address, length: Word16, checksum: Word16): (h: seq<Byte>)
    ensures |h| == 20
  {
    [0x45, 0,
     length / 0x100, length % 0x100,
     0, 0, 0, 0,
     0x80, 0x11,
     checksum / 0x100, checksum % 0x100,
     src / 0x1000000, src / 0x10000 % 0x100, src / 0x100 % 0x100, src % 0x100,
     dest / 0x1000000, dest / 0x10000 % 0x100, dest / 0x100 % 0x100, dest % 0x100]
  }

  /** Big-endian 16-bit words of a byte string of even length. */
  function Words(bytes: seq<Byte>): (w: seq<Word16>)
    requires |bytes| % 2 == 0
    ensures |w| == |bytes| / 2
  {
    seq(|bytes| / 2, i requires 0 <= i < |bytes| / 2 => (bytes[2 * i] as int) * 0x100 + bytes[2 * i + 1])
  }

  /** One addition of the seed loop: a carry out of 16 bits is added back in. */
  function Accumulate(seed: Word16, w: Word16): Word16 {
    var s := seed + w;
    if s > 0xFFFF then s % 0x10000 + 1 else s
  }

  function OnesComplementSum(ws: seq<Word16>): Word16 {
    if ws == [] then 0 else Accumulate(OnesComplementSum(ws[..|ws| - 1]), ws[|ws| - 1])
  }

  function Seed(src: Address, dest: Address): Word16 {
    OnesComplementSum(Words(HeaderBytes(src, dest, 0, 0)))
  }

  // ---------------------------------------------------------------- the reference sum

  function Sum(ws: seq<Word16>): nat {
    if ws == [] then 0 else Sum(ws[..|ws| - 1]) + ws[|ws| - 1]
  }

  /** Section 1 of RFC 1071: add up, then fold the carries back until none is left. */
  function Fold(n: nat): nat
  {
    if n <= 0xFFFF then n else Fold(n / 0x10000 + n % 0x10000)
  }

  /** The representative of n modulo FFFF that a ones-complement sum shows; zero only for zero itself. */
  function Residue(n: nat): nat {
    if n > 0 && n % 0xFFFF == 0 then 0xFFFF else n % 0xFFFF
  }

  lemma {:induction false} FoldIsResidue(n: nat)
    ensures Fold(n) == Residue(n)
  {
    if n > 0xFFFF {
      var m := n / 0x10000 + n % 0x10000;
      FoldIsResidue(m);
      assert n == m + 0xFFFF * (n / 0x10000);
      ResidueOfMultiple(m, n / 0x10000);
    }
  }

  lemma {:induction false} ResidueOfMultiple(m: nat, k: nat)
    ensures (m + 0xFFFF * k) % 0xFFFF == m % 0xFFFF
  {
    if k > 0 {
      ResidueOfMultiple(m, k - 1);
      assert m + 0xFFFF * k == (m + 0xFFFF * (k - 1)) + 0xFFFF;
    }
  }

  lemma AccumulateIsResidue(n: nat, w: Word16)
    ensures Accumulate(Residue(n), w) == Residue(n + w)
  {
    var k := n / 0xFFFF;
    assert n + w == n % 0xFFFF + 0xFFFF * k + w;
    ResidueOfMultiple(n % 0xFFFF + w, k);
  }

  lemma {:induction false} SumIsResidue(ws: seq<Word16>)
    ensures OnesComplementSum(ws) == Residue(Sum(ws))
  {
    if ws != [] {
      SumIsResidue(ws[..|ws| - 1]);
      AccumulateIsResidue(Sum(ws[..|ws| - 1]), ws[|ws| - 1]);
    }
  }

  /** Folding each carry as it appears gives the same sum as folding them all at the end. */
  lemma SumIsRfcSum(ws: seq<Word16>)
    ensures OnesComplementSum(ws) == Fold(Sum(ws))
  {
    SumIsResidue(ws);
    FoldIsResidue(Sum(ws));
  }

  // ---------------------------------------------------------------- the framed header

  /** The hardware adds the total length to the seed without an end-around carry and complements the result. */
  function Checksum(seed: Word16, length: Word16): Word16 {
    0xFFFF - (seed + length) % 0x10000
  }

  function FramedSum(src: Address, dest: Address, length: Word16): Word16 {
    OnesComplementSum(Words(HeaderBytes(src, dest, length, Checksum(Seed(src, dest), length))))
  }

  lemma HighHalf(n: Address)
    ensures n / 0x1000000 * 0x100 + n / 0x10000 % 0x100 == n / 0x10000
    ensures n / 0x100 % 0x100 * 0x100 + n % 0x100 == n % 0x10000
  {
  }

  lemma SumOfHeader(src: Address, dest: Address, length: Word16, checksum: Word16)
    ensures Sum(Words(HeaderBytes(src, dest, length, checksum)))
            == 0x4500 + length + 0x8011 + checksum + src / 0x10000 + src % 0x10000 + dest / 0x10000 + dest % 0x10000
  {
    HighHalf(src);
    HighHalf(dest);
    var w := Words(HeaderBytes(src, dest, length, checksum));
    assert w[0] == 0x4500 && w[1] == length && w[2] == w[3] == 0 && w[4] == 0x8011 && w[5] == checksum;
    assert w[6] == src / 0x10000 && w[7] == src % 0x10000 && w[8] == dest / 0x10000 && w[9] == dest % 0x10000;
    SumOfTen(w);
  }

  lemma SumOfTen(w: seq<Word16>)
    requires |w| == 10
    ensures Sum(w) == w[0] as int + w[1] + w[2] + w[3] + w[4] + w[5] + w[6] + w[7] + w[8] + w[9]
  {
    assert Sum(w[..0]) == 0;
    assert w[..1][..0] == w[..0] && Sum(w[..1]) == w[0];
    assert w[..2][..1] == w[..1] && Sum(w[..2]) == w[0] as int + w[1];
    assert w[..3][..2] == w[..2] && Sum(w[..3]) == Sum(w[..2]) + w[2];
    assert w[..4][..3] == w[..3] && Sum(w[..4]) == Sum(w[..3]) + w[3];
    assert w[..5][..4] == w[..4] && Sum(w[..5]) == Sum(w[..4]) + w[4];
    assert w[..6][..5] == w[..5] && Sum(w[..6]) == Sum(w[..5]) + w[5];
    assert w[..7][..6] == w[..6] && Sum(w[..7]) == Sum(w[..6]) + w[6];
    assert w[..8][..7] == w[..7] && Sum(w[..8]) == Sum(w[..7]) + w[7];
    assert w[..9][..8] == w[..8] && Sum(w[..9]) == Sum(w[..8]) + w[8];
    assert w[..10] == w;
  }

  /** Completing a sum with the complement of seed + length: whole exactly when that addition does not carry. */
  lemma CompletedResidue(base: nat, seed: Word16, length: Word16)
    requires seed == Residue(base) && base > 0
    ensures Residue(base + length + Checksum(seed, length)) == 0xFFFF <==> seed + length <= 0xFFFF
  {
    var k := base / 0xFFFF;
    assert exists j: nat :: base == seed + 0xFFFF * j by {
      assert base == base % 0xFFFF + 0xFFFF * k;
      if base % 0xFFFF == 0 {
        assert base == seed + 0xFFFF * (k - 1);
      }
    }
    var j: nat :| base == seed + 0xFFFF * j;
    ResidueOfMultiple(seed + length + Checksum(seed, length), j);
  }

  /** The framed header sums to FFFF, as a receiver demands, exactly when adding the length to the seed does not
      carry out of 16 bits. */
  lemma ChecksumValidIff(src: Address, dest: Address, length: Word16)
    ensures FramedSum(src, dest, length) == 0xFFFF <==> Seed(src, dest) + length <= 0xFFFF
  {
    var seed := Seed(src, dest);
    SumOfHeader(src, dest, 0, 0);
    SumOfHeader(src, dest, length, Checksum(seed, length));
    SumIsResidue(Words(HeaderBytes(src, dest, 0, 0)));
    SumIsResidue(Words(HeaderBytes(src, dest, length, Checksum(seed, length))));
    hide HeaderBytes, Words, OnesComplementSum;
    CompletedResidue(Sum(Words(HeaderBytes(src, dest, 0, 0))), seed, length);
  }

  /** A carry is lost: from source 58.238.0.0 to 0.0.0.0 a one-byte datagram is framed with a bad checksum. */
  lemma LostCarry()
    ensures Seed(0x3AEE0000, 0) == 0xFFFF
    ensures FramedSum(0x3AEE0000, 0, 29) != 0xFFFF
  {
    hide HeaderBytes, Words, Sum, OnesComplementSum, FramedSum, Checksum;
    SumOfHeader(0x3AEE0000, 0, 0, 0);
    SumIsResidue(Words(HeaderBytes(0x3AEE0000, 0, 0, 0)));
    ChecksumValidIff(0x3AEE0000, 0, 29);
  }

  // ---------------------------------------------------------------- the host's loops

  lemma WordAt(bytes: seq<Byte>, k: nat)
    requires |bytes| % 2 == 0 && k < |bytes| / 2
    ensures Words(bytes)[k] == (bytes[2 * k] as int) * 0x100 + bytes[2 * k + 1]
  {
  }

  method CalculateChecksumSeed(src: Address, dest: Address) returns (seed: Word16)
    ensures seed == Fold(Sum(Words(HeaderBytes(src, dest, 0, 0))))
    ensures seed == Seed(src, dest)
  {
    hide HeaderBytes, Words, Fold, Sum;
    var bytes := HeaderBytes(src, dest, 0, 0);
    var words := new Word16[10];
    var i := 0;
    while i < 20
      invariant 0 <= i <= 20 && i % 2 == 0
      invariant words[..i / 2] == Words(bytes)[..i / 2]
    {
      words[i / 2] := (bytes[i] as int) * 0x100 + bytes[i + 1];
      WordAt(bytes, i / 2);
      assert words[..i / 2 + 1] == words[..i / 2] + [words[i / 2]];
      i := i + 2;
    }
    var sum: nat := 0;
    for k := 0 to 10
      invariant sum == OnesComplementSum(words[..k])
    {
      assert words[..k + 1][..k] == words[..k];
      sum := sum + words[k];
      if sum > 0xFFFF {
        sum := sum % 0x10000;
        sum := sum + 1;
      }
    }
    assert words[..10] == Words(bytes);
    SumIsRfcSum(Words(bytes));
    seed := sum;
  }
}
