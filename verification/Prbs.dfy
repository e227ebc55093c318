/** The pseudo-random bit sequence generator and the verifier that synchronises to it. */
module Prbs {
  import opened BitVectors
  import opened Options

  /** std::uint32_t. */
  type Word32 = v: Vector | |v| == 32 witness Bits(0, 32)

  function ShiftLeft(v: Word32, k: nat): Word32 { seq(32, i requires 0 <= i < 32 => i >= k && v[i - k]) }

  function ShiftRight(v: Word32, k: nat): Word32 { seq(32, i requires 0 <= i < 32 => i + k < 32 && v[i + k]) }

  /** v & ((1 << k) - 1) */
  function Masked(v: Word32, k: nat): Word32 { seq(32, i requires 0 <= i < 32 => i < k && v[i]) }

  function Or(a: Word32, b: Word32): Word32 { seq(32, i requires 0 <= i < 32 => a[i] || b[i]) }

  function PopCount(v: Vector): nat {
    if v == [] then 0 else PopCount(v[..|v| - 1]) + (if v[|v| - 1] then 1 else 0)
  }

  datatype Config = Config(taps: seq<nat>, invert: bool)

  function Highest(taps: seq<nat>): (h: nat)
    requires taps != []
    ensures (exists i :: 0 <= i < |taps| && taps[i] == h) && forall i :: 0 <= i < |taps| ==> taps[i] <= h
  {
    var last := |taps| - 1;
    if last == 0 then taps[0]
    else
      var h := Highest(taps[..last]);
      if h > taps[last] then h else taps[last]
  }

  function Lowest(taps: seq<nat>): (l: nat)
    requires taps != []
    ensures (exists i :: 0 <= i < |taps| && taps[i] == l) && forall i :: 0 <= i < |taps| ==> l <= taps[i]
  {
    var last := |taps| - 1;
    if last == 0 then taps[0]
    else
      var l := Lowest(taps[..last]);
      if l < taps[last] then l else taps[last]
  }

  /** The taps that the generator supports without a shift by 31 or more. */
  predicate Supported(c: Config) {
    c.taps != [] && forall i :: 0 <= i < |c.taps| ==> 1 <= c.taps[i] <= 30
  }

  function High(c: Config): (h: nat)
    requires Supported(c)
    ensures 1 <= h <= 30 && forall i :: 0 <= i < |c.taps| ==> c.taps[i] <= h
  {
    Highest(c.taps)
  }

  /** Lowest tap, the longest word that may be asked for. */
  function Low(c: Config): (l: nat)
    requires Supported(c)
    ensures 1 <= l <= 30 && forall i :: 0 <= i < |c.taps| ==> l <= c.taps[i]
  {
    Lowest(c.taps)
  }

  /** The xor over the taps of the register shifted right by tap - n. */
  function Feedback(reg: Word32, taps: seq<nat>, n: nat): Word32
    requires taps != [] && forall i :: 0 <= i < |taps| ==> n <= taps[i]
  {
    var last := |taps| - 1;
    if last == 0 then ShiftRight(reg, taps[0] - n)
    else Xor(Feedback(reg, taps[..last], n), ShiftRight(reg, taps[last] - n))
  }

  function NewBits(c: Config, reg: Word32, n: nat): Word32
    requires Supported(c) && n <= Low(c)
  {
    var f := Feedback(reg, c.taps, n);
    Masked(if c.invert then Not(f) else f, n)
  }

  /** The register after n bits are shifted in together. */
  function AfterWord(c: Config, reg: Word32, n: nat): Word32
    requires Supported(c) && n <= Low(c)
  {
    Masked(Or(ShiftLeft(reg, n), NewBits(c, reg, n)), High(c))
  }

  function Advance(c: Config, reg: Word32): Word32
    requires Supported(c)
  {
    AfterWord(c, reg, 1)
  }

  // ---------------------------------------------------------------- one word is n bits

  /** The xor of the tapped bits k places below the taps: the bit fed back at the k-th step. */
  function TapBit(reg: Word32, taps: seq<nat>, k: nat): bool
    requires taps != [] && forall i :: 0 <= i < |taps| ==> k < taps[i] <= 32
  {
    var last := |taps| - 1;
    if last == 0 then reg[taps[0] - 1 - k]
    else TapBit(reg, taps[..last], k) != reg[taps[last] - 1 - k]
  }

  function FedBack(c: Config, reg: Word32, k: nat): bool
    requires Supported(c) && k < Low(c)
  {
    TapBit(reg, c.taps, k) != c.invert
  }

  lemma {:induction false} FeedbackBit(reg: Word32, taps: seq<nat>, n: nat, i: nat)
    requires taps != [] && (forall j :: 0 <= j < |taps| ==> n <= taps[j] <= 32) && i < n <= 32
    ensures Feedback(reg, taps, n)[i] == TapBit(reg, taps, n - 1 - i)
    decreases |taps|
  {
    var last := |taps| - 1;
    if last > 0 {
      FeedbackBit(reg, taps[..last], n, i);
    }
  }

  /** Bit i of the register after a word: a fed-back bit below n, a shifted bit above. */
  lemma AfterWordBit(c: Config, reg: Word32, n: nat, i: nat)
    requires Supported(c) && n <= Low(c) && i < 32
    ensures AfterWord(c, reg, n)[i] == (i < High(c) && if i < n then FedBack(c, reg, n - 1 - i) else reg[i - n])
  {
    if i < n {
      FeedbackBit(reg, c.taps, n, i);
    }
  }

  function AdvanceN(c: Config, reg: Word32, n: nat): Word32
    requires Supported(c)
    decreases n
  {
    if n == 0 then reg else Advance(c, AdvanceN(c, reg, n - 1))
  }

  /** The bit fed back after k steps is a tap bit of the register before them. */
  lemma {:induction false} LaterTapBit(reg: Word32, later: Word32, taps: seq<nat>, k: nat)
    requires taps != [] && (forall i :: 0 <= i < |taps| ==> k < taps[i] <= 32)
    requires forall i :: 0 <= i < |taps| ==> later[taps[i] - 1] == reg[taps[i] - 1 - k]
    ensures TapBit(later, taps, 0) == TapBit(reg, taps, k)
    decreases |taps|
  {
    var last := |taps| - 1;
    if last > 0 {
      LaterTapBit(reg, later, taps[..last], k);
    }
  }

  lemma LaterFedBack(c: Config, reg: Word32, n: nat)
    requires Supported(c) && n < Low(c)
    ensures FedBack(c, AfterWord(c, reg, n), 0) == FedBack(c, reg, n)
  {
    hide AfterWord, NewBits, Lowest, Highest;
    forall i | 0 <= i < |c.taps|
      ensures AfterWord(c, reg, n)[c.taps[i] - 1] == reg[c.taps[i] - 1 - n]
    {
      AfterWordBit(c, reg, n, c.taps[i] - 1);
    }
    LaterTapBit(reg, AfterWord(c, reg, n), c.taps, n);
  }

  lemma OneMoreBit(c: Config, reg: Word32, n: nat, i: nat)
    requires Supported(c) && n < Low(c) && i < 32
    ensures AfterWord(c, reg, n + 1)[i] == AfterWord(c, AfterWord(c, reg, n), 1)[i]
  {
    hide *;
    LaterFedBack(c, reg, n);
    AfterWordBit(c, reg, n + 1, i);
    AfterWordBit(c, AfterWord(c, reg, n), 1, i);
    if 0 < i {
      AfterWordBit(c, reg, n, i - 1);
    }
  }

  /** A word of n bits and one more step is a word of n + 1 bits. */
  lemma OneMoreStep(c: Config, reg: Word32, n: nat)
    requires Supported(c) && n < Low(c)
    ensures AfterWord(c, reg, n + 1) == Advance(c, AfterWord(c, reg, n))
  {
    assert Advance(c, AfterWord(c, reg, n)) == AfterWord(c, AfterWord(c, reg, n), 1);
    hide *;
    forall i | 0 <= i < 32
      ensures AfterWord(c, reg, n + 1)[i] == AfterWord(c, AfterWord(c, reg, n), 1)[i]
    {
      OneMoreBit(c, reg, n, i);
    }
  }

  lemma AdvanceNStep(c: Config, reg: Word32, n: nat)
    requires Supported(c)
    ensures AdvanceN(c, reg, n + 1) == Advance(c, AdvanceN(c, reg, n))
    ensures AdvanceN(c, reg, 1) == AfterWord(c, reg, 1)
  {
    assert AdvanceN(c, reg, 0) == reg;
  }

  /** Shifting in n bits together leaves the register that n single steps leave. */
  lemma {:induction false} WordIsSteps(c: Config, reg: Word32, n: nat)
    requires Supported(c) && 1 <= n <= Low(c)
    ensures AfterWord(c, reg, n) == AdvanceN(c, reg, n)
    decreases n
  {
    hide *;
    AdvanceNStep(c, reg, n - 1);
    if n > 1 {
      WordIsSteps(c, reg, n - 1);
      OneMoreStep(c, reg, n - 1);
    }
  }

  /** The bits of a word, first generated in the highest place, are those of n single get_bit calls. */
  lemma WordBits(c: Config, reg: Word32, n: nat, k: nat)
    requires Supported(c) && k < n <= Low(c)
    ensures NewBits(c, reg, n)[n - 1 - k] == AdvanceN(c, reg, k + 1)[0]
    ensures forall i :: n <= i < 32 ==> !NewBits(c, reg, n)[i]
  {
    WordBitIsFedBack(c, reg, n, k);
    FirstBit(c, reg, k);
  }

  lemma WordBitIsFedBack(c: Config, reg: Word32, n: nat, k: nat)
    requires Supported(c) && k < n <= Low(c)
    ensures NewBits(c, reg, n)[n - 1 - k] == FedBack(c, reg, k)
  {
    hide Feedback, TapBit, Lowest, Highest;
    FeedbackBit(reg, c.taps, n, n - 1 - k);
  }

  lemma FirstBit(c: Config, reg: Word32, k: nat)
    requires Supported(c) && k < Low(c)
    ensures AdvanceN(c, reg, k + 1)[0] == FedBack(c, reg, k)
  {
    hide *;
    WordIsSteps(c, reg, k + 1);
    AfterWordBit(c, reg, k + 1, 0);
  }

  // ---------------------------------------------------------------- the generator object

  class Generator {
    const taps: seq<nat>
    const invert: bool
    var reg: Word32

    function Settings(): Config { Config(taps, invert) }

    constructor (taps: seq<nat>, seed: Word32, invert: bool)
      requires Supported(Config(taps, invert))
      ensures Settings() == Config(taps, invert) && reg == seed
    {
      this.taps, this.invert, this.reg := taps, invert, seed;
    }

    method Step()
      requires Supported(Settings())
      modifies this
      ensures reg == Advance(Settings(), old(reg))
    {
      var f := XorTaps(1);
      if invert {
        f := Not(f);
      }
      reg := Masked(Or(ShiftLeft(reg, 1), Masked(f, 1)), High(Settings()));
    }

    method GetBit() returns (bit: bool)
      requires Supported(Settings())
      modifies this
      ensures reg == Advance(Settings(), old(reg)) && bit == reg[0]
    {
      Step();
      bit := reg[0];
    }

    /** None stands for the exception that is thrown when more bits are asked for than the lowest tap has. */
    method GetWord(n: nat) returns (word: Option<Word32>)
      requires Supported(Settings())
      modifies this
      ensures n > Low(Settings()) ==> word == None && reg == old(reg)
      ensures n <= Low(Settings()) ==> reg == AfterWord(Settings(), old(reg), n) && word == Some(NewBits(Settings(), old(reg), n))
    {
      if n > Low(Settings()) {
        return None;
      }
      var f := XorTaps(n);
      if invert {
        f := Not(f);
      }
      var bits := Masked(f, n);
      reg := Masked(Or(ShiftLeft(reg, n), bits), High(Settings()));
      word := Some(bits);
    }

    method SetReg(value: Word32)
      requires Supported(Settings())
      modifies this
      ensures reg == Masked(value, High(Settings()))
    {
      reg := Masked(value, High(Settings()));
    }

    method XorTaps(n: nat) returns (f: Word32)
      requires Supported(Settings()) && n <= Low(Settings())
      ensures f == Feedback(reg, taps, n)
    {
      f := ShiftRight(reg, taps[0] - n);
      for i := 1 to |taps|
        invariant f == Feedback(reg, taps[..i], n)
      {
        assert taps[..i + 1][..i] == taps[..i];
        f := Xor(f, ShiftRight(reg, taps[i] - n));
      }
      assert taps[..|taps|] == taps;
    }
  }

  // ---------------------------------------------------------------- the verifier

  datatype Phase = Init | Locking | Locked

  /** Counters are unbounded here. */
  datatype Verifier = Verifier(
    phase: Phase, initReg: Word32, prbsReg: Word32, lockThreshold: nat, unlockThreshold: nat, success: nat,
    numBits: nat, numBitErrors: nat, locked: bool, lockCount: nat)

  /** In the initial phase bits are collected until the register is full. */
  function Collect(c: Config, v: Verifier, word: Word32, n: nat): Verifier
    requires Supported(c)
  {
    var init := Or(ShiftLeft(v.initReg, n), Masked(word, n));
    var bits := v.numBits + n;
    if bits >= High(c) then v.(initReg := init, numBits := bits, prbsReg := Masked(init, High(c)), phase := Locking)
    else v.(initReg := init, numBits := bits)
  }

  /** The places in which a word of n bits is not the generator's. */
  function WrongBits(c: Config, reg: Word32, word: Word32, n: nat): (wrong: set<nat>)
    requires Supported(c) && n <= Low(c)
  {
    set i: nat | 0 <= i < n && word[i] != NewBits(c, reg, n)[i]
  }

  function PushBits(c: Config, v: Verifier, word: Word32, n: nat): Verifier
    requires Supported(c) && n <= Low(c)
  {
    match v.phase
    case Init => Collect(c, v, word, n)
    case Locking =>
      var errors := |WrongBits(c, v.prbsReg, word, n)|;
      var success := if errors > 0 then 0 else v.success + n;
      var next := v.(prbsReg := AfterWord(c, v.prbsReg, n), numBits := v.numBits + n,
                     numBitErrors := v.numBitErrors + errors, success := success);
      if success >= v.lockThreshold then next.(locked := true, lockCount := v.lockCount + 1, phase := Locked) else next
    case Locked =>
      var errors := v.numBitErrors + |WrongBits(c, v.prbsReg, word, n)|;
      var next := v.(prbsReg := AfterWord(c, v.prbsReg, n), numBits := v.numBits + n, numBitErrors := errors);
      if errors >= v.unlockThreshold then next.(numBits := 0, locked := false, numBitErrors := 0, phase := Locking)
      else next
  }

  /** After reset or construction: only the phase, the counters and the status are defined. */
  predicate JustReset(v: Verifier) {
    v.phase == Init && v.success == 0 && v.numBits == 0 && v.numBitErrors == 0 && !v.locked && v.lockCount == 0
  }

  /** The verifier and the generator after m words of n bits. */
  function VerifierAfter(c: Config, v: Verifier, g: Word32, n: nat, m: nat): Verifier
    requires Supported(c) && n <= Low(c)
    decreases m
  {
    if m == 0 then v
    else PushBits(c, VerifierAfter(c, v, g, n, m - 1), NewBits(c, GeneratorAfter(c, g, n, m - 1), n), n)
  }

  function GeneratorAfter(c: Config, g: Word32, n: nat, m: nat): Word32
    requires Supported(c) && n <= Low(c)
    decreases m
  {
    if m == 0 then g else AfterWord(c, GeneratorAfter(c, g, n, m - 1), n)
  }

  /** v has seen every bit of the generator whose register is now g, and never an error. */
  ghost predicate InStep(c: Config, v: Verifier, g: Word32, n: nat)
    requires Supported(c)
  {
    && v.numBitErrors == 0
    && match v.phase
       case Init =>
         && v.numBits < High(c) && v.success == 0 && !v.locked && v.lockCount == 0
         && forall i :: 0 <= i < v.numBits ==> v.initReg[i] == g[i]
       case Locking =>
         && v.prbsReg == g && !v.locked && v.lockCount == 0 && v.success < v.lockThreshold
         && v.success + High(c) <= v.numBits < v.success + High(c) + n
       case Locked =>
         v.prbsReg == g && v.locked && v.lockCount == 1 && v.numBits >= v.lockThreshold
  }

  lemma NoErrors(c: Config, reg: Word32, n: nat)
    requires Supported(c) && n <= Low(c)
    ensures |WrongBits(c, reg, NewBits(c, reg, n), n)| == 0
  {
    assert WrongBits(c, reg, NewBits(c, reg, n), n) == {};
  }

  /** The emitted word is the low end of the generator's next register. */
  lemma WordIsLowBits(c: Config, g: Word32, n: nat, i: nat)
    requires Supported(c) && n <= Low(c) && i < n
    ensures NewBits(c, g, n)[i] == AfterWord(c, g, n)[i]
  {
  }

  lemma InStepKept(c: Config, v: Verifier, g: Word32, n: nat)
    requires Supported(c) && 1 <= n <= Low(c) && v.lockThreshold > 0 && v.unlockThreshold > 0
    requires InStep(c, v, g, n)
    ensures InStep(c, PushBits(c, v, NewBits(c, g, n), n), AfterWord(c, g, n), n)
    ensures v.locked ==> PushBits(c, v, NewBits(c, g, n), n).locked
    ensures var w := PushBits(c, v, NewBits(c, g, n), n);
            w.numBits == v.numBits + n && w.lockThreshold == v.lockThreshold && w.unlockThreshold == v.unlockThreshold
  {
    var word, g' := NewBits(c, g, n), AfterWord(c, g, n);
    assert Masked(word, n) == word;
    NoErrors(c, g, n);
    if v.phase == Init {
      var init := Or(ShiftLeft(v.initReg, n), word);
      forall i | 0 <= i < v.numBits + n && i < High(c)
        ensures init[i] == g'[i]
      {
        if i < n {
          WordIsLowBits(c, g, n, i);
        } else {
          AfterWordBit(c, g, n, i);
        }
      }
      if v.numBits + n >= High(c) {
        forall i | 0 <= i < 32
          ensures Masked(init, High(c))[i] == g'[i]
        {
          AfterWordBit(c, g, n, i);
        }
      }
    }
  }

  lemma InStepStart(c: Config, v: Verifier, g: Word32, n: nat)
    requires Supported(c) && n <= Low(c) && JustReset(v)
    ensures VerifierAfter(c, v, g, n, 0) == v && GeneratorAfter(c, g, n, 0) == g
    ensures InStep(c, v, g, n) && v.numBits == 0
  {
  }

  lemma AfterOneMore(c: Config, v: Verifier, g: Word32, n: nat, m: nat)
    requires Supported(c) && n <= Low(c)
    ensures VerifierAfter(c, v, g, n, m + 1) == PushBits(c, VerifierAfter(c, v, g, n, m), NewBits(c, GeneratorAfter(c, g, n, m), n), n)
    ensures GeneratorAfter(c, g, n, m + 1) == AfterWord(c, GeneratorAfter(c, g, n, m), n)
  {
  }

  lemma OneMoreWord(m: nat, n: nat)
    requires m > 0
    ensures m * n == (m - 1) * n + n
  {
  }

  lemma {:induction false} InStepAfter(c: Config, v: Verifier, g: Word32, n: nat, m: nat)
    requires Supported(c) && 1 <= n <= Low(c) && v.lockThreshold > 0 && v.unlockThreshold > 0
    requires JustReset(v)
    ensures var w := VerifierAfter(c, v, g, n, m);
            && InStep(c, w, GeneratorAfter(c, g, n, m), n) && w.numBits == m * n
            && w.lockThreshold == v.lockThreshold && w.unlockThreshold == v.unlockThreshold
    decreases m
  {
    hide *;
    if m == 0 {
      InStepStart(c, v, g, n);
    } else {
      InStepAfter(c, v, g, n, m - 1);
      InStepKept(c, VerifierAfter(c, v, g, n, m - 1), GeneratorAfter(c, g, n, m - 1), n);
      AfterOneMore(c, v, g, n, m - 1);
      OneMoreWord(m, n);
    }
  }

  /** From the data alone the verifier synchronises with any generator of the same taps, whatever either register
      holds: it never counts an error, has locked once the register length, the threshold and one word of bits have
      arrived, and locks exactly once. */
  lemma VerifierLocksOnce(c: Config, v: Verifier, g: Word32, n: nat, m: nat)
    requires Supported(c) && 1 <= n <= Low(c) && v.lockThreshold > 0 && v.unlockThreshold > 0
    requires JustReset(v)
    ensures var w := VerifierAfter(c, v, g, n, m);
            && w.numBitErrors == 0 && w.numBits == m * n && w.lockCount <= 1 && (w.locked <==> w.lockCount == 1)
            && (m * n >= High(c) ==> w.prbsReg == GeneratorAfter(c, g, n, m))
            && (m * n >= High(c) + v.lockThreshold + n ==> w.locked)
            && (w.locked ==> m * n >= v.lockThreshold)
  {
    InStepAfter(c, v, g, n, m);
    var w := VerifierAfter(c, v, g, n, m);
    if w.phase == Init && m * n >= High(c) {
      assert false;
    }
  }

  /** Once locked, the verifier stays locked on the same stream. */
  lemma {:induction false} StaysLocked(c: Config, v: Verifier, g: Word32, n: nat, m: nat, k: nat)
    requires Supported(c) && 1 <= n <= Low(c) && v.lockThreshold > 0 && v.unlockThreshold > 0
    requires JustReset(v) && m <= k && VerifierAfter(c, v, g, n, m).locked
    ensures VerifierAfter(c, v, g, n, k).locked
    decreases k
  {
    hide *;
    if m < k {
      StaysLocked(c, v, g, n, m, k - 1);
      LockedKept(c, v, g, n, k - 1);
    }
  }

  lemma LockedKept(c: Config, v: Verifier, g: Word32, n: nat, k: nat)
    requires Supported(c) && 1 <= n <= Low(c) && v.lockThreshold > 0 && v.unlockThreshold > 0
    requires JustReset(v) && VerifierAfter(c, v, g, n, k).locked
    ensures VerifierAfter(c, v, g, n, k + 1).locked
  {
    hide PushBits, AfterWord, NewBits, High, Low, Supported, Highest, Lowest;
    InStepAfter(c, v, g, n, k);
    InStepKept(c, VerifierAfter(c, v, g, n, k), GeneratorAfter(c, g, n, k), n);
  }

  // ---------------------------------------------------------------- arbitrary data

  function PushAll(c: Config, v: Verifier, words: seq<Word32>, n: nat): Verifier
    requires Supported(c) && n <= Low(c)
    decreases |words|
  {
    if words == [] then v else PushBits(c, PushAll(c, v, words[..|words| - 1], n), words[|words| - 1], n)
  }

  /** The word is the one that the verifier's own generator gives next. */
  predicate Clean(c: Config, v: Verifier, word: Word32, n: nat)
    requires Supported(c) && n <= Low(c)
  {
    Masked(word, n) == NewBits(c, v.prbsReg, n)
  }

  /** No bit error is counted exactly for a clean word. */
  lemma CleanIff(c: Config, v: Verifier, word: Word32, n: nat)
    requires Supported(c) && n <= Low(c)
    ensures |WrongBits(c, v.prbsReg, word, n)| == 0 <==> Clean(c, v, word, n)
  {
    hide NewBits;
    var wrong, a, b := WrongBits(c, v.prbsReg, word, n), Masked(word, n), NewBits(c, v.prbsReg, n);
    NoneAbove(c, v.prbsReg, n);
    if wrong == {} {
      forall i | 0 <= i < 32
        ensures a[i] == b[i]
      {
        assert i < n ==> i !in wrong;
      }
    }
    if a == b {
      assert forall i :: 0 <= i < n ==> word[i] == a[i] == b[i];
      assert wrong == {};
    }
  }

  lemma NoneAbove(c: Config, reg: Word32, n: nat)
    requires Supported(c) && n <= Low(c)
    ensures forall i :: n <= i < 32 ==> !NewBits(c, reg, n)[i]
  {
    hide Feedback;
  }

  /** What a word does to a verifier that has never locked. */
  lemma PushBeforeLock(c: Config, v: Verifier, word: Word32, n: nat)
    requires Supported(c) && n <= Low(c) && v.phase != Locked
    ensures var w := PushBits(c, v, word, n);
            && w.lockThreshold == v.lockThreshold
            && w.success == (if v.phase == Init then v.success else if Clean(c, v, word, n) then v.success + n else 0)
            && (w.phase == Locked <==> w.lockCount == v.lockCount + 1)
            && (w.phase != Locked ==> w.lockCount == v.lockCount)
            && (w.phase == Locked ==> w.success >= w.lockThreshold && v.phase == Locking)
  {
    hide WrongBits, Masked, NewBits, AfterWord, Or, ShiftLeft, Clean;
    CleanIff(c, v, word, n);
  }

  /** A verifier that has never locked is not locked now. */
  lemma {:induction false} NeverLocked(c: Config, v: Verifier, words: seq<Word32>, n: nat)
    requires Supported(c) && n <= Low(c) && JustReset(v) && PushAll(c, v, words, n).lockCount == 0
    ensures PushAll(c, v, words, n).phase != Locked
    ensures words != [] ==> PushAll(c, v, words[..|words| - 1], n).lockCount == 0
    decreases |words|
  {
    hide PushBits;
    if words != [] {
      var u := PushAll(c, v, words[..|words| - 1], n);
      LocksNeverFall(c, u, words[|words| - 1], n);
      NeverLocked(c, v, words[..|words| - 1], n);
      PushBeforeLock(c, u, words[|words| - 1], n);
    }
  }

  lemma LocksNeverFall(c: Config, v: Verifier, word: Word32, n: nat)
    requires Supported(c) && n <= Low(c)
    ensures PushBits(c, v, word, n).lockCount >= v.lockCount
  {
    hide WrongBits, Masked, NewBits, AfterWord, Or, ShiftLeft;
  }

  /** The last k of the words were clean when they arrived. */
  ghost predicate CleanSince(c: Config, v: Verifier, words: seq<Word32>, n: nat, k: nat)
    requires Supported(c) && n <= Low(c)
  {
    k <= |words| && forall j :: |words| - k <= j < |words| ==> Clean(c, PushAll(c, v, words[..j], n), words[j], n)
  }

  lemma CleanExtends(c: Config, v: Verifier, words: seq<Word32>, n: nat, k: nat)
    requires Supported(c) && n <= Low(c) && words != []
    requires CleanSince(c, v, words[..|words| - 1], n, k)
    requires Clean(c, PushAll(c, v, words[..|words| - 1], n), words[|words| - 1], n)
    ensures CleanSince(c, v, words, n, k + 1)
  {
    hide Clean, PushAll;
    var front := words[..|words| - 1];
    forall j | |words| - (k + 1) <= j < |words|
      ensures Clean(c, PushAll(c, v, words[..j], n), words[j], n)
    {
      if j < |front| {
        assert front[..j] == words[..j] && front[j] == words[j];
      }
    }
  }

  lemma CleanNone(c: Config, v: Verifier, words: seq<Word32>, n: nat)
    requires Supported(c) && n <= Low(c)
    ensures CleanSince(c, v, words, n, 0)
  {
  }

  /** Before the first lock the count of good bits is that of the clean words that arrived last. */
  lemma {:induction false} CleanRun(c: Config, v: Verifier, words: seq<Word32>, n: nat) returns (k: nat)
    requires Supported(c) && n <= Low(c) && JustReset(v) && PushAll(c, v, words, n).lockCount == 0
    ensures var w := PushAll(c, v, words, n);
            w.success == k * n && w.lockThreshold == v.lockThreshold && (w.phase == Init ==> k == 0)
    ensures CleanSince(c, v, words, n, k)
    decreases |words|
  {
    hide PushBits, Clean, CleanSince;
    NeverLocked(c, v, words, n);
    CleanNone(c, v, words, n);
    if words == [] {
      k := 0;
    } else {
      var m := |words| - 1;
      var u := PushAll(c, v, words[..m], n);
      k := CleanRun(c, v, words[..m], n);
      NeverLocked(c, v, words[..m], n);
      PushBeforeLock(c, u, words[m], n);
      StaysBehindInit(c, u, words[m], n);
      if u.phase == Locking && Clean(c, u, words[m], n) {
        CleanExtends(c, v, words, n, k);
        k := k + 1;
      } else {
        k := 0;
      }
    }
  }

  lemma StaysBehindInit(c: Config, v: Verifier, word: Word32, n: nat)
    requires Supported(c) && n <= Low(c)
    ensures PushBits(c, v, word, n).phase == Init ==> v.phase == Init
  {
    hide WrongBits, Masked, NewBits, AfterWord, Or, ShiftLeft;
  }

  /** Whatever data arrive after a reset, the verifier locks for the first time only when words with at least the lock
      threshold of bits have just arrived without an error. */
  lemma LocksOnlyAfterCleanBits(c: Config, v: Verifier, words: seq<Word32>, n: nat) returns (k: nat)
    requires Supported(c) && n <= Low(c) && JustReset(v) && v.lockThreshold > 0 && words != []
    requires PushAll(c, v, words[..|words| - 1], n).lockCount == 0 && PushAll(c, v, words, n).lockCount > 0
    ensures k * n >= v.lockThreshold && CleanSince(c, v, words, n, k)
  {
    hide PushBits, Clean, CleanSince;
    var m := |words| - 1;
    var u := PushAll(c, v, words[..m], n);
    k := CleanRun(c, v, words[..m], n);
    NeverLocked(c, v, words[..m], n);
    PushBeforeLock(c, u, words[m], n);
    CleanExtends(c, v, words, n, k);
    k := k + 1;
  }

  /** Unlocking leaves the count of good bits as it was, so a verifier that has lost lock is locked again by the next
      word, however short, if and only if that is clean. */
  lemma RelocksAtOnce(c: Config, v: Verifier, word: Word32, n: nat, next: Word32, m: nat)
    requires Supported(c) && n <= Low(c) && m <= Low(c)
    requires v.phase == Locked && v.success >= v.lockThreshold > 0
    requires PushBits(c, v, word, n).phase == Locking
    ensures var w := PushBits(c, v, word, n);
            !w.locked && (PushBits(c, w, next, m).locked <==> Clean(c, w, next, m))
  {
    hide NewBits, AfterWord, WrongBits, Masked, Clean;
    var w := PushBits(c, v, word, n);
    CleanIff(c, w, next, m);
  }

  /** The word with every bit wrong. */
  function Inverted(c: Config, v: Verifier, n: nat): Word32
    requires Supported(c) && n <= Low(c)
  {
    Not(NewBits(c, v.prbsReg, n))
  }

  lemma InvertedIsWrong(c: Config, v: Verifier, n: nat)
    requires Supported(c) && 1 <= n <= Low(c)
    ensures |WrongBits(c, v.prbsReg, Inverted(c, v, n), n)| > 0
  {
    hide NewBits;
    assert 0 in WrongBits(c, v.prbsReg, Inverted(c, v, n), n);
  }

  /** Wrong words unlock: each adds an error. */
  lemma {:induction false} WrongWordsUnlock(c: Config, v: Verifier, n: nat) returns (words: seq<Word32>)
    requires Supported(c) && 1 <= n <= Low(c) && v.phase == Locked
    ensures words != []
    ensures var w := PushAll(c, v, words, n);
            w.phase == Locking && !w.locked && w.success == v.success && w.lockCount == v.lockCount
            && w.lockThreshold == v.lockThreshold
    ensures PushAll(c, v, words[..|words| - 1], n).phase == Locked
    ensures PushAll(c, v, words[..|words| - 1], n).success == v.success
    decreases if v.numBitErrors < v.unlockThreshold then v.unlockThreshold - v.numBitErrors else 0
  {
    hide NewBits, AfterWord, WrongBits, Masked, Inverted;
    InvertedIsWrong(c, v, n);
    var bad := Inverted(c, v, n);
    var u := PushBits(c, v, bad, n);
    PushOne(c, v, bad, n);
    if u.phase == Locking {
      words := [bad];
      assert words[..0] == [];
    } else {
      var rest := WrongWordsUnlock(c, u, n);
      words := [bad] + rest;
      PushFront(c, v, bad, rest, n);
      assert words[..|words| - 1] == [bad] + rest[..|rest| - 1];
      PushFront(c, v, bad, rest[..|rest| - 1], n);
    }
  }

  lemma PushOne(c: Config, v: Verifier, word: Word32, n: nat)
    requires Supported(c) && n <= Low(c)
    ensures PushAll(c, v, [word], n) == PushBits(c, v, word, n)
  {
    hide PushBits;
    assert [word][..0] == [];
    assert PushAll(c, v, [word][..0], n) == v;
  }

  lemma {:induction false} PushFront(c: Config, v: Verifier, word: Word32, words: seq<Word32>, n: nat)
    requires Supported(c) && n <= Low(c)
    ensures PushAll(c, v, [word] + words, n) == PushAll(c, PushBits(c, v, word, n), words, n)
    decreases |words|
  {
    hide PushBits;
    if words == [] {
      assert [word] + words == [word];
      PushOne(c, v, word, n);
    } else {
      var m := |words| - 1;
      assert ([word] + words)[..m + 1] == [word] + words[..m];
      PushFront(c, v, word, words[..m], n);
    }
  }

  /** While locked, the count of good bits stays where the lock found it. */
  lemma PushWhenLocked(c: Config, v: Verifier, word: Word32, n: nat)
    requires Supported(c) && n <= Low(c) && v.phase == Locked
    ensures var w := PushBits(c, v, word, n); w.success == v.success && w.lockThreshold == v.lockThreshold
  {
    hide WrongBits, Masked, NewBits, AfterWord;
  }

  lemma {:induction false} LockedIsCounted(c: Config, v: Verifier, words: seq<Word32>, n: nat)
    requires Supported(c) && n <= Low(c) && JustReset(v)
    ensures var w := PushAll(c, v, words, n);
            w.lockThreshold == v.lockThreshold && (w.phase == Locked ==> w.success >= w.lockThreshold)
    decreases |words|
  {
    hide PushBits;
    if words != [] {
      var m := |words| - 1;
      LockedIsCounted(c, v, words[..m], n);
      var u := PushAll(c, v, words[..m], n);
      if u.phase == Locked {
        PushWhenLocked(c, u, words[m], n);
      } else {
        PushBeforeLock(c, u, words[m], n);
      }
    }
  }

  /** It happens, from every state after reset in which the verifier is locked: fed wrong words until it loses lock and
      then one clean word, it is locked once more. */
  lemma LosesAndRegainsLock(c: Config, v: Verifier, before: seq<Word32>, n: nat) returns (words: seq<Word32>)
    requires Supported(c) && 1 <= n <= Low(c) && JustReset(v) && v.lockThreshold > 0
    requires PushAll(c, v, before, n).phase == Locked
    ensures var u := PushAll(c, v, before, n);
            && |words| >= 2 && !PushAll(c, u, words[..|words| - 1], n).locked
            && PushAll(c, u, words, n).locked && PushAll(c, u, words, n).lockCount == u.lockCount + 1
  {
    hide NewBits, AfterWord, WrongBits, Masked, Clean;
    LockedIsCounted(c, v, before, n);
    var locked := PushAll(c, v, before, n);
    var wrong := WrongWordsUnlock(c, locked, n);
    var u := PushAll(c, locked, wrong, n);
    var good := NewBits(c, u.prbsReg, n);
    words := wrong + [good];
    assert words[..|words| - 1] == wrong;
    GoodIsClean(c, u, n);
    CleanIff(c, u, good, n);
  }

  lemma GoodIsClean(c: Config, v: Verifier, n: nat)
    requires Supported(c) && n <= Low(c)
    ensures Clean(c, v, NewBits(c, v.prbsReg, n), n)
  {
  }

  /** One bit as a word. */
  function BitWord(bit: bool): Word32 { seq(32, i requires 0 <= i < 32 => i == 0 && bit) }

  /** A single bit is wrong exactly if it is not the one that the generator's next step feeds back. */
  lemma ErrorsOfBit(c: Config, reg: Word32, bit: bool)
    requires Supported(c)
    ensures Advance(c, reg)[0] == NewBits(c, reg, 1)[0]
    ensures |WrongBits(c, reg, BitWord(bit), 1)| == if bit != Advance(c, reg)[0] then 1 else 0
  {
    WordIsLowBits(c, reg, 1, 0);
    hide NewBits, AfterWord;
    var wrong := WrongBits(c, reg, BitWord(bit), 1);
    assert wrong == if bit != Advance(c, reg)[0] then {0} else {};
  }

  /** The number of ones of a register is that of the places that hold them. */
  lemma {:induction false} PopCountIsOnes(v: Vector)
    ensures PopCount(v) == |set i: nat | 0 <= i < |v| && v[i]|
    decreases |v|
  {
    var ones := set i: nat | 0 <= i < |v| && v[i];
    if v == [] {
      assert ones == {};
    } else {
      var n := |v| - 1;
      PopCountIsOnes(v[..n]);
      var front := set i: nat | 0 <= i < n && v[..n][i];
      assert ones == if v[n] then front + {n} else front;
    }
  }

  /** __builtin_popcount of the difference counts the wrong bits. */
  lemma PopCountIsWrongBits(c: Config, reg: Word32, word: Word32, n: nat)
    requires Supported(c) && n <= Low(c)
    ensures PopCount(Xor(Masked(word, n), NewBits(c, reg, n))) == |WrongBits(c, reg, word, n)|
  {
    hide NewBits, PopCount;
    NoneAbove(c, reg, n);
    var x := Xor(Masked(word, n), NewBits(c, reg, n));
    PopCountIsOnes(x);
    assert (set i: nat | 0 <= i < |x| && x[i]) == WrongBits(c, reg, word, n);
  }

  /** How many of the first k bits of a word, pushed one by one, are not the bits of as many single generator steps. */
  function BitErrors(c: Config, reg: Word32, word: Word32, n: nat, k: nat): nat
    requires Supported(c) && k <= n <= Low(c)
    decreases k
  {
    if k == 0 then 0
    else BitErrors(c, reg, word, n, k - 1) + (if word[n - k] != AdvanceN(c, reg, k)[0] then 1 else 0)
  }

  lemma {:induction false} BitErrorsAreHighBits(c: Config, reg: Word32, word: Word32, n: nat, k: nat)
    requires Supported(c) && k <= n <= Low(c)
    ensures BitErrors(c, reg, word, n, k) == |set i | i in WrongBits(c, reg, word, n) && i >= n - k|
    decreases k
  {
    hide NewBits, AdvanceN;
    var wrong := WrongBits(c, reg, word, n);
    var high := set i | i in wrong && i >= n - k;
    if k == 0 {
      assert high == {};
    } else {
      BitErrorsAreHighBits(c, reg, word, n, k - 1);
      WordBits(c, reg, n, k - 1);
      var before := set i | i in wrong && i >= n - (k - 1);
      assert high == if n - k in wrong then before + {n - k} else before;
    }
  }

  /** A word counts as many errors as its bits pushed one by one. */
  lemma WordErrorsAreBitErrors(c: Config, reg: Word32, word: Word32, n: nat)
    requires Supported(c) && n <= Low(c)
    ensures |WrongBits(c, reg, word, n)| == BitErrors(c, reg, word, n, n)
  {
    hide NewBits, BitErrors;
    BitErrorsAreHighBits(c, reg, word, n, n);
    assert (set i | i in WrongBits(c, reg, word, n) && i >= 0) == WrongBits(c, reg, word, n);
  }

  /** The verifier after the first k bits of a word, pushed one by one. */
  function PushEach(c: Config, v: Verifier, word: Word32, n: nat, k: nat): Verifier
    requires Supported(c) && k <= n <= Low(c)
    decreases k
  {
    if k == 0 then v else PushBits(c, PushEach(c, v, word, n, k - 1), BitWord(word[n - k]), 1)
  }

  lemma {:induction false} LockedBits(c: Config, v: Verifier, word: Word32, n: nat, k: nat)
    requires Supported(c) && k <= n <= Low(c) && v.phase == Locked
    requires v.numBitErrors + BitErrors(c, v.prbsReg, word, n, k) < v.unlockThreshold
    ensures PushEach(c, v, word, n, k)
            == v.(prbsReg := AdvanceN(c, v.prbsReg, k), numBits := v.numBits + k,
                  numBitErrors := v.numBitErrors + BitErrors(c, v.prbsReg, word, n, k))
    decreases k
  {
    hide NewBits, AfterWord, WrongBits, BitWord;
    if k > 0 {
      LockedBits(c, v, word, n, k - 1);
      ErrorsOfBit(c, AdvanceN(c, v.prbsReg, k - 1), word[n - k]);
    }
  }

  /** While the errors stay below the unlock threshold, pushing a word to a locked verifier is pushing its bits. */
  lemma WordIsItsBits(c: Config, v: Verifier, word: Word32, n: nat)
    requires Supported(c) && 1 <= n <= Low(c) && v.phase == Locked
    requires v.numBitErrors + |WrongBits(c, v.prbsReg, word, n)| < v.unlockThreshold
    ensures PushBits(c, v, word, n) == PushEach(c, v, word, n, n)
  {
    hide NewBits, AfterWord, WrongBits, BitWord, BitErrors, AdvanceN, PushEach;
    WordErrorsAreBitErrors(c, v.prbsReg, word, n);
    LockedBits(c, v, word, n, n);
    WordIsSteps(c, v.prbsReg, n);
  }

  lemma OneBitWord(bit: bool)
    ensures Masked(BitWord(bit), 1) == BitWord(bit)
  {
  }

  // ---------------------------------------------------------------- losing lock

  /** Wrong bits of a list of words against the generator running on from a register. */
  function TotalErrors(c: Config, reg: Word32, words: seq<Word32>, n: nat): nat
    requires Supported(c) && n <= Low(c)
    decreases |words|
  {
    if words == [] then 0
    else
      var m := |words| - 1;
      TotalErrors(c, reg, words[..m], n) + |WrongBits(c, GeneratorAfter(c, reg, n, m), words[m], n)|
  }

  /** Locked before, between and behind the words. */
  predicate KeepsLock(c: Config, v: Verifier, words: seq<Word32>, n: nat)
    requires Supported(c) && n <= Low(c)
    decreases |words|
  {
    PushAll(c, v, words, n).locked && (words != [] ==> KeepsLock(c, v, words[..|words| - 1], n))
  }

  /** A word unlocks exactly when the errors reach the threshold; then the counters start again. */
  lemma UnlockIff(c: Config, v: Verifier, word: Word32, n: nat)
    requires Supported(c) && n <= Low(c) && v.phase == Locked && v.locked
    ensures var w, errors := PushBits(c, v, word, n), v.numBitErrors + |WrongBits(c, v.prbsReg, word, n)|;
            && w.prbsReg == AfterWord(c, v.prbsReg, n) && w.unlockThreshold == v.unlockThreshold
            && (w.locked <==> errors < v.unlockThreshold) && (w.locked <==> w.phase == Locked)
            && (w.locked ==> w.numBitErrors == errors && w.numBits == v.numBits + n)
            && (!w.locked ==> w.phase == Locking && w.numBitErrors == 0 && w.numBits == 0)
  {
    hide WrongBits, NewBits, AfterWord;
  }

  lemma {:induction false} KeepsLockIffFrom(c: Config, v: Verifier, words: seq<Word32>, n: nat)
    requires Supported(c) && n <= Low(c) && v.phase == Locked && v.locked && v.numBitErrors < v.unlockThreshold
    ensures var w, errors := PushAll(c, v, words, n), v.numBitErrors + TotalErrors(c, v.prbsReg, words, n);
            && (KeepsLock(c, v, words, n) <==> errors < v.unlockThreshold)
            && (KeepsLock(c, v, words, n) ==>
                  && w.phase == Locked && w.locked && w.numBitErrors == errors && w.unlockThreshold == v.unlockThreshold
                  && w.prbsReg == GeneratorAfter(c, v.prbsReg, n, |words|))
    decreases |words|
  {
    hide PushBits, WrongBits, AfterWord;
    if words != [] {
      var m := |words| - 1;
      KeepsLockIffFrom(c, v, words[..m], n);
      if KeepsLock(c, v, words[..m], n) {
        UnlockIff(c, PushAll(c, v, words[..m], n), words[m], n);
      }
    }
  }

  /** A locked verifier keeps its lock through any words if and only if their wrong bits, against the generator running on,
      leave its error count below the unlock threshold; and while it does, it counts exactly these errors. */
  lemma KeepsLockIff(c: Config, v: Verifier, words: seq<Word32>, n: nat)
    requires Supported(c) && n <= Low(c) && v.phase == Locked && v.locked && v.numBitErrors < v.unlockThreshold
    ensures var errors := v.numBitErrors + TotalErrors(c, v.prbsReg, words, n);
            && (KeepsLock(c, v, words, n) <==> errors < v.unlockThreshold)
            && (KeepsLock(c, v, words, n) ==> PushAll(c, v, words, n).numBitErrors == errors)
  {
    hide KeepsLock, TotalErrors, PushAll;
    KeepsLockIffFrom(c, v, words, n);
  }

  /** Looking for lock before, between and behind the words. */
  predicate KeepsLocking(c: Config, v: Verifier, words: seq<Word32>, n: nat)
    requires Supported(c) && n <= Low(c)
    decreases |words|
  {
    PushAll(c, v, words, n).phase == Locking && (words != [] ==> KeepsLocking(c, v, words[..|words| - 1], n))
  }

  /** What a word does to a verifier that is looking for lock. */
  lemma LockingStep(c: Config, v: Verifier, word: Word32, n: nat)
    requires Supported(c) && n <= Low(c) && v.phase == Locking
    ensures var w := PushBits(c, v, word, n);
            && w.prbsReg == AfterWord(c, v.prbsReg, n) && w.unlockThreshold == v.unlockThreshold
            && w.lockThreshold == v.lockThreshold
            && w.numBitErrors == v.numBitErrors + |WrongBits(c, v.prbsReg, word, n)|
            && (w.phase == Locked && v.lockThreshold > 0 ==> w.locked && Clean(c, v, word, n))
  {
    hide WrongBits, NewBits, AfterWord, Clean;
    CleanIff(c, v, word, n);
  }

  lemma {:induction false} LockingCounts(c: Config, v: Verifier, words: seq<Word32>, n: nat)
    requires Supported(c) && n <= Low(c) && KeepsLocking(c, v, words, n)
    ensures var w := PushAll(c, v, words, n);
            && w.phase == Locking && w.lockThreshold == v.lockThreshold && w.unlockThreshold == v.unlockThreshold
            && w.numBitErrors == v.numBitErrors + TotalErrors(c, v.prbsReg, words, n)
            && w.prbsReg == GeneratorAfter(c, v.prbsReg, n, |words|)
    decreases |words|
  {
    hide PushBits, WrongBits, AfterWord;
    if words != [] {
      var m := |words| - 1;
      LockingCounts(c, v, words[..m], n);
      LockingStep(c, PushAll(c, v, words[..m], n), words[m], n);
    }
  }

  /** Errors met while looking for lock stay in the count: a lock that was just found survives a word without an error if and
      only if fewer errors than the unlock threshold were counted before it. */
  lemma FreshLockLasts(c: Config, v: Verifier, words: seq<Word32>, word: Word32, next: Word32, n: nat)
    requires Supported(c) && n <= Low(c) && v.lockThreshold > 0 && KeepsLocking(c, v, words, n)
    requires var w := PushBits(c, PushAll(c, v, words, n), word, n); w.phase == Locked && Clean(c, w, next, n)
    ensures var w := PushBits(c, PushAll(c, v, words, n), word, n);
            w.locked
            && (PushBits(c, w, next, n).locked <==> v.numBitErrors + TotalErrors(c, v.prbsReg, words, n) < v.unlockThreshold)
  {
    hide PushBits, PushAll, WrongBits, TotalErrors, KeepsLocking, Clean;
    LockingCounts(c, v, words, n);
    var u := PushAll(c, v, words, n);
    var w := PushBits(c, u, word, n);
    LockingStep(c, u, word, n);
    CleanIff(c, u, word, n);
    CleanIff(c, w, next, n);
    UnlockIff(c, w, next, n);
  }

  class PrbsVerifier {
    const prbs: Generator
    var phase: Phase
    var initReg: Word32
    var lockThreshold: nat
    var unlockThreshold: nat
    var success: nat
    var numBits: nat
    var numBitErrors: nat
    var locked: bool
    var lockCount: nat

    function State(): Verifier
      reads this, prbs
    {
      Verifier(phase, initReg, prbs.reg, lockThreshold, unlockThreshold, success, numBits, numBitErrors, locked, lockCount)
    }

    constructor (taps: seq<nat>, invert: bool)
      requires Supported(Config(taps, invert))
      ensures JustReset(State()) && prbs.Settings() == Config(taps, invert) && fresh(prbs)
      ensures lockThreshold == 2048 && unlockThreshold == 128
    {
      prbs := new Generator(taps, Bits(0, 32), invert);
      phase, initReg, success := Init, Bits(0, 32), 0;
      lockThreshold, unlockThreshold := 2048, 128;
      numBits, numBitErrors, locked, lockCount := 0, 0, false, 0;
    }

    method Reset()
      modifies this
      ensures JustReset(State())
      ensures initReg == old(initReg) && lockThreshold == old(lockThreshold) && unlockThreshold == old(unlockThreshold)
    {
      numBits, numBitErrors, locked, lockCount := 0, 0, false, 0;
      success := 0;
      phase := Init;
    }

    /** Asking the generator for more bits than its lowest tap has throws; ok says that it did not. */
    method Push(word: Word32, n: nat) returns (ok: bool)
      requires Supported(prbs.Settings()) && n < 32
      modifies this, prbs
      ensures ok == (old(phase) == Init || n <= Low(prbs.Settings()))
      ensures n <= Low(prbs.Settings()) ==> State() == PushBits(prbs.Settings(), old(State()), word, n)
      ensures old(phase) == Init ==> State() == Collect(prbs.Settings(), old(State()), word, n)
      ensures !ok ==> var v := old(State()); State() == v.(numBits := if v.phase == Locked then v.numBits + n else v.numBits)
    {
      hide PopCount, WrongBits, Masked, NewBits, AfterWord, Xor, Or, ShiftLeft, High, Low;
      var reg := Masked(word, n);
      ok := true;
      if phase == Init {
        initReg := Or(ShiftLeft(initReg, n), reg);
        numBits := numBits + n;
        if numBits >= High(prbs.Settings()) {
          prbs.SetReg(initReg);
          phase := Locking;
        }
      } else {
        if phase == Locked {
          numBits := numBits + n;
        }
        ghost var before := prbs.reg;
        var expected := prbs.GetWord(n);
        if expected == None {
          return false;
        }
        var errors := PopCount(Xor(reg, expected.value));
        PopCountIsWrongBits(prbs.Settings(), before, word, n);
        if phase == Locking {
          numBits := numBits + n;
        }
        numBitErrors := numBitErrors + errors;
        if phase == Locking {
          success := if errors > 0 then 0 else success + n;
          if success >= lockThreshold {
            locked := true;
            lockCount := lockCount + 1;
            phase := Locked;
          }
        } else if numBitErrors >= unlockThreshold {
          numBits := 0;
          locked := false;
          numBitErrors := 0;
          phase := Locking;
        }
      }
    }

    /** The bit-at-a-time form does what the word form does with words of one bit. */
    method PushBit(bit: bool)
      requires Supported(prbs.Settings())
      modifies this, prbs
      ensures State() == PushBits(prbs.Settings(), old(State()), BitWord(bit), 1)
    {
      hide PopCount, WrongBits, Masked, NewBits, AfterWord, Xor, Or, ShiftLeft, BitWord, High, Low;
      OneBitWord(bit);
      if phase == Init {
        initReg := Or(ShiftLeft(initReg, 1), BitWord(bit));
        numBits := numBits + 1;
        if numBits >= High(prbs.Settings()) {
          prbs.SetReg(initReg);
          phase := Locking;
        }
      } else {
        ErrorsOfBit(prbs.Settings(), prbs.reg, bit);
        var expected := prbs.GetBit();
        var error := bit != expected;
        numBits := numBits + 1;
        if error {
          numBitErrors := numBitErrors + 1;
        }
        if phase == Locking {
          success := if error then 0 else success + 1;
          if success >= lockThreshold {
            locked := true;
            lockCount := lockCount + 1;
            phase := Locked;
          }
        } else if numBitErrors >= unlockThreshold {
          numBits := 0;
          locked := false;
          numBitErrors := 0;
          phase := Locking;
        }
      }
    }
  }
}
