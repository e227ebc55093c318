/** Gray-coded pointers of any width. Vectors hold their least significant bit at index 0. */
module GrayCode {

  import opened BitVectors

  function ShiftRight1(v: Vector): (r: Vector)
    ensures |r| == |v|
  {
    if v == [] then [] else v[1..] + [false]
  }

  /** The Gray pointer that both clock domains derive from their binary address. */
  function Gray(n: nat, w: nat): (g: Vector)
    ensures |g| == w
  {
    Xor(ShiftRight1(Bits(n, w)), Bits(n, w))
  }

  /** The low Gray bit compares the two low binary bits; the others are the Gray code of n / 2. */
  lemma {:induction false} GrayUnfold(n: nat, w: nat)
    requires w >= 1 && n < Pow2(w)
    ensures n / 2 < Pow2(w - 1)
    ensures Gray(n, w) == [(n % 2 == 1) != (n / 2 % 2 == 1)] + Gray(n / 2, w - 1)
  {
    var b, t := Bits(n, w), Bits(n / 2, w - 1);
    assert b == [n % 2 == 1] + t;
    if w == 1 {
      assert t == [];
      assert n / 2 == 0;
    } else {
      assert t[0] == (n / 2 % 2 == 1);
      assert b[1..] == t;
      forall i | 0 <= i < w
        ensures Gray(n, w)[i] == ([(n % 2 == 1) != (n / 2 % 2 == 1)] + Gray(n / 2, w - 1))[i]
      {
      }
    }
  }

  /** Pointer equality, the empty test, is equality of the addresses. */
  lemma {:induction false} GrayInjective(a: nat, b: nat, w: nat)
    requires a < Pow2(w) && b < Pow2(w)
    ensures Gray(a, w) == Gray(b, w) <==> a == b
  {
    if w > 0 {
      GrayUnfold(a, w);
      GrayUnfold(b, w);
      GrayInjective(a / 2, b / 2, w - 1);
      if Gray(a, w) == Gray(b, w) {
        assert Gray(a / 2, w - 1) == Gray(a, w)[1..] == Gray(b, w)[1..] == Gray(b / 2, w - 1);
        assert Gray(a, w)[0] == Gray(b, w)[0];
      }
    }
  }

  /** The one bit in which the code of n differs from that of its successor. */
  function ChangedBit(n: nat, w: nat): (k: nat)
    requires w >= 1
    ensures k < w
  {
    if w == 1 || n % 2 == 0 then 0 else 1 + ChangedBit(n / 2, w - 1)
  }

  /** The address after n, wrapping at the end of the range. */
  function Successor(n: nat, w: nat): (m: nat)
    requires n < Pow2(w)
    ensures m < Pow2(w)
  {
    if n + 1 == Pow2(w) then 0 else n + 1
  }

  lemma {:induction false} IncrementChangesOneBit(n: nat, w: nat)
    requires w >= 1 && n < Pow2(w)
    ensures forall i :: 0 <= i < w ==> (Gray(n, w)[i] != Gray(Successor(n, w), w)[i] <==> i == ChangedBit(n, w))
  {
    var m := Successor(n, w);
    GrayUnfold(n, w);
    GrayUnfold(m, w);
    var g, h := Gray(n / 2, w - 1), Gray(m / 2, w - 1);
    if w == 1 {
    } else if n % 2 == 0 {
      assert m == n + 1 && m / 2 == n / 2;
    } else {
      assert Pow2(w) == 2 * Pow2(w - 1);
      assert m / 2 == Successor(n / 2, w - 1);
      IncrementChangesOneBit(n / 2, w - 1);
      assert Gray(n, w)[0] == Gray(m, w)[0] by { OddSuccessor(n, w); }
      assert forall i :: 0 < i < w ==> Gray(n, w)[i] == g[i - 1] && Gray(m, w)[i] == h[i - 1];
    }
  }

  lemma OddSuccessor(n: nat, w: nat)
    requires w >= 2 && n < Pow2(w) && n % 2 == 1
    ensures var m := Successor(n, w);
            m % 2 == 0 && (n / 2 % 2 == 1) == (m / 2 % 2 == 0)
  {
    assert Pow2(w) == 4 * Pow2(w - 2);
  }

  /** What a flop bank may capture while its input changes from before to after: each bit on its own is the old
      or the new one, as mask says. */
  function Sample(before: Vector, after: Vector, mask: seq<bool>): (v: Vector)
    requires |before| == |after|
    ensures |v| == |before|
  {
    seq(|before|, i requires 0 <= i < |before| => if i < |mask| && mask[i] then after[i] else before[i])
  }

  /** No resolution of the changing bits is left out. */
  lemma EverySampleOccurs(before: Vector, after: Vector, v: Vector) returns (mask: seq<bool>)
    requires |before| == |after| == |v| && forall i :: 0 <= i < |v| ==> v[i] == before[i] || v[i] == after[i]
    ensures Sample(before, after, mask) == v
  {
    mask := seq(|v|, i requires 0 <= i < |v| => v[i] == after[i]);
  }

  /** However the changing bits resolve, a sampled Gray pointer is the old pointer or the new one. */
  lemma SampleIsOldOrNew(n: nat, m: nat, w: nat, mask: seq<bool>)
    requires w >= 1 && n < Pow2(w) && (m == n || m == Successor(n, w))
    ensures Sample(Gray(n, w), Gray(m, w), mask) in [Gray(n, w), Gray(m, w)]
  {
    var g, h := Gray(n, w), Gray(m, w);
    var s := Sample(g, h, mask);
    if m == n {
      assert s == g;
    } else {
      IncrementChangesOneBit(n, w);
      var k := ChangedBit(n, w);
      assert forall i :: 0 <= i < w && i != k ==> g[i] == h[i];
      if s[k] == g[k] {
        assert s == g;
      } else {
        assert s == h;
      }
    }
  }

  /** The full comparison: the two top bits differ and every other bit agrees. */
  predicate FullTest(g: Vector, h: Vector)
    requires |g| == |h| >= 2
  {
    var w := |g|;
    g[w - 1] != h[w - 1] && g[w - 2] != h[w - 2] && g[..w - 2] == h[..w - 2]
  }

  /** The full comparison holds exactly of addresses half the address range apart. */
  lemma {:induction false} FullTestIsHalfApart(a: nat, b: nat, w: nat)
    requires w >= 2 && a < Pow2(w) && b < Pow2(w)
    ensures FullTest(Gray(a, w), Gray(b, w)) <==> a == b + Pow2(w - 1) || b == a + Pow2(w - 1)
  {
    hide Gray, FullTest;
    var g, h := Gray(a, w), Gray(b, w);
    GrayUnfold(a, w);
    GrayUnfold(b, w);
    var g', h' := Gray(a / 2, w - 1), Gray(b / 2, w - 1);
    assert g == [g[0]] + g' && h == [h[0]] + h';
    if w == 2 {
      FullTestBase(a, b);
    } else {
      FullTestUnfold(g, h);
      assert g[1..] == g' && h[1..] == h';
      FullTestIsHalfApart(a / 2, b / 2, w - 1);
      HalfApartUnfold(a, b, w);
    }
  }

  lemma FullTestBase(a: nat, b: nat)
    requires a < 4 && b < 4
    ensures FullTest(Gray(a, 2), Gray(b, 2)) <==> a == b + Pow2(1) || b == a + Pow2(1)
  {
    assert Pow2(1) == 2 && Pow2(2) == 4;
    GrayUnfold(a, 2);
    GrayUnfold(b, 2);
    GrayUnfold(a / 2, 1);
    GrayUnfold(b / 2, 1);
    assert Gray(a, 2)[..0] == Gray(b, 2)[..0];
  }

  lemma FullTestUnfold(g: Vector, h: Vector)
    requires |g| == |h| >= 3
    ensures FullTest(g, h) <==> g[0] == h[0] && FullTest(g[1..], h[1..])
  {
    var w := |g|;
    assert g[..w - 2] == [g[0]] + g[1..][..w - 3];
    assert h[..w - 2] == [h[0]] + h[1..][..w - 3];
    if g[..w - 2] == h[..w - 2] {
      assert g[..w - 2][0] == h[..w - 2][0];
      assert g[1..][..w - 3] == g[..w - 2][1..] == h[..w - 2][1..] == h[1..][..w - 3];
    }
  }

  lemma HalfApartUnfold(a: nat, b: nat, w: nat)
    requires w >= 3
    ensures (a == b + Pow2(w - 1) || b == a + Pow2(w - 1)) <==>
            ((a % 2 == 1) != (a / 2 % 2 == 1)) == ((b % 2 == 1) != (b / 2 % 2 == 1))
            && (a / 2 == b / 2 + Pow2(w - 2) || b / 2 == a / 2 + Pow2(w - 2))
  {
    assert Pow2(w - 1) == 4 * Pow2(w - 3) && Pow2(w - 2) == 2 * Pow2(w - 3);
  }
}
