/** Single-clock ring buffer with a fall-through output register. */
module SyncFifo {
  import opened BitVectors
  import opened Wrapping

  /** The ring has 2^n rows, of which one stays free. */
  datatype Regs<T> = Regs(n: nat, ram: seq<T>, readPointer: nat, writePointer: nat, out: T, outValid: bool)

  predicate WellFormed<T>(s: Regs<T>) {
    s.n >= 1 && |s.ram| == Pow2(s.n) && s.readPointer < |s.ram| && s.writePointer < |s.ram|
  }

  function Initial<T>(n: nat, zero: T): (s: Regs<T>)
    requires n >= 1
    ensures WellFormed(s) && Contents(s) == []
  {
    Regs(n, seq(Pow2(n), _ => zero), 0, 0, zero, false)
  }

  /** Rows in use: write_pointer - read_pointer, modulo the number of rows. */
  function Used<T>(s: Regs<T>): (k: nat)
    requires WellFormed(s)
    ensures k < |s.ram|
  {
    if s.writePointer >= s.readPointer then s.writePointer - s.readPointer
    else s.writePointer + |s.ram| - s.readPointer
  }

  predicate Full<T>(s: Regs<T>)
    requires WellFormed(s)
  {
    Used(s) == |s.ram| - 1
  }

  predicate RingEmpty<T>(s: Regs<T>) { s.readPointer == s.writePointer }

  predicate FwftRead<T>(s: Regs<T>, re: bool) { re || !s.outValid }

  function Step<T>(s: Regs<T>, we: bool, data: T, re: bool): (s': Regs<T>)
    requires WellFormed(s)
    ensures WellFormed(s') && s'.n == s.n
  {
    var write, fetch := we && !Full(s), FwftRead(s, re);
    Regs(s.n,
         if write then s.ram[s.writePointer := data] else s.ram,
         if fetch && !RingEmpty(s) then Next(s.readPointer, |s.ram|) else s.readPointer,
         if write then Next(s.writePointer, |s.ram|) else s.writePointer,
         if fetch then s.ram[s.readPointer] else s.out,
         if fetch then !RingEmpty(s) else s.outValid)
  }

  /** The row i places after the read pointer. */
  function Row<T>(s: Regs<T>, i: nat): nat
    requires WellFormed(s) && i < |s.ram|
  {
    if s.readPointer + i < |s.ram| then s.readPointer + i else s.readPointer + i - |s.ram|
  }

  function Ring<T>(s: Regs<T>): (r: seq<T>)
    requires WellFormed(s)
    ensures |r| == Used(s)
  {
    seq(Used(s), i requires 0 <= i < Used(s) => s.ram[Row(s, i)])
  }

  /** The words held, oldest first. */
  function Contents<T>(s: Regs<T>): seq<T>
    requires WellFormed(s)
  {
    (if s.outValid then [s.out] else []) + Ring(s)
  }

  /** The ring loses its oldest word to a fetch and gains the written word. */
  lemma RingStep<T>(s: Regs<T>, we: bool, data: T, re: bool)
    requires WellFormed(s)
    ensures var fetched := FwftRead(s, re) && !RingEmpty(s);
            Ring(Step(s, we, data, re)) == (if fetched then Ring(s)[1..] else Ring(s)) + (if we && !Full(s) then [data] else [])
  {
    hide Pow2;
    var s' := Step(s, we, data, re);
    var k := if FwftRead(s, re) && !RingEmpty(s) then 1 else 0;
    var write := we && !Full(s);
    assert Used(s') == Used(s) - k + (if write then 1 else 0);
    forall i | 0 <= i < Used(s) - k
      ensures Row(s', i) == Row(s, i + k) != s.writePointer
    {
    }
    if write {
      assert Row(s', Used(s) - k) == s.writePointer;
    }
  }

  /** What the output register and the ring hold. */
  lemma ContentsParts<T>(s: Regs<T>)
    requires WellFormed(s)
    ensures s.outValid ==> Contents(s) == [s.out] + Ring(s) && Contents(s)[1..] == Ring(s)
    ensures !s.outValid ==> Contents(s) == Ring(s)
  {
  }

  /** The ring with its output register is a queue: a read takes the oldest word exactly when the register is valid,
      a write appends exactly when the ring does not hold all words that it can, one less than its rows, and a word behind
      an idle register moves into it. */
  lemma StepIsQueue<T>(s: Regs<T>, we: bool, data: T, re: bool)
    requires WellFormed(s)
    ensures var s' := Step(s, we, data, re);
            && Contents(s') == (if re && s.outValid then Contents(s)[1..] else Contents(s))
                               + (if we && !Full(s) then [data] else [])
            && (s'.outValid <==> (s.outValid && !re) || Ring(s) != [])
            && (s.outValid && !re ==> s'.out == s.out)
    ensures Full(s) <==> |Ring(s)| == Pow2(s.n) - 1
  {
    var s' := Step(s, we, data, re);
    RingStep(s, we, data, re);
    ContentsParts(s);
    ContentsParts(s');
    if FwftRead(s, re) && !RingEmpty(s) {
      FetchedIsOldest(s, we, data, re);
    }
  }

  lemma FetchedIsOldest<T>(s: Regs<T>, we: bool, data: T, re: bool)
    requires WellFormed(s) && FwftRead(s, re) && !RingEmpty(s)
    ensures var s' := Step(s, we, data, re); s'.outValid && Ring(s) == [s'.out] + Ring(s)[1..]
  {
    assert Row(s, 0) == s.readPointer;
  }

  class Fifo<T> {
    const n: nat
    const ram: array<T>
    var readPointer: nat
    var writePointer: nat
    var out: T
    var outValid: bool

    function Registers(): Regs<T>
      reads this, ram
    {
      Regs(n, ram[..], readPointer, writePointer, out, outValid)
    }

    constructor (n: nat, zero: T)
      requires n >= 1
      ensures Registers() == Initial(n, zero) && fresh(ram)
    {
      this.n := n;
      ram := new T[Pow2(n)](_ => zero);
      readPointer, writePointer, out, outValid := 0, 0, zero, false;
      new;
      assert ram[..] == Initial(n, zero).ram;
    }

    method Clock(we: bool, data: T, re: bool)
      requires WellFormed(Registers())
      modifies this, ram
      ensures Registers() == Step(old(Registers()), we, data, re)
    {
      var emptySig := readPointer == writePointer;
      var fullSig := Full(Registers());
      if re || !outValid {
        out := ram[readPointer];
        outValid := !emptySig;
        if !emptySig {
          readPointer := Next(readPointer, ram.Length);
        }
      }
      if we && !fullSig {
        ram[writePointer] := data;
        writePointer := Next(writePointer, ram.Length);
      }
    }
  }
}
