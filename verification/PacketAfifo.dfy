/** Store-and-forward packet FIFO between two clocks: asynchronous FIFO, skid buffer, ring buffer, packet counter. */
module PacketAfifo {
  import opened BitVectors
  import opened EndMarks
  import A = AsyncFifo
  import F = SyncFifo

  /** The read clock domain behind the asynchronous FIFO; numPackets is a 5-bit counter. */
  datatype Regs<T> = Regs(fifo: F.Regs<Word<T>>, expansion: Word<T>, expansionValid: bool, numPackets: nat, readPacket: bool)

  predicate WellFormed<T>(s: Regs<T>) { F.WellFormed(s.fifo) }

  function Initial<T>(n: nat, zero: Word<T>): (s: Regs<T>)
    requires n >= 1
    ensures WellFormed(s)
  {
    Regs(F.Initial(n, zero), zero, false, 0, false)
  }

  /** The skid buffer passes its held word on before it accepts another. */
  function SkidOut<T>(s: Regs<T>, input: Word<T>): Word<T> {
    if s.expansionValid then s.expansion else input
  }

  predicate FifoRe<T>(s: Regs<T>, ready: bool) { s.readPacket && ready }

  /** m_axis_tvalid. */
  predicate TValid<T>(s: Regs<T>) { s.readPacket && s.fifo.outValid }

  predicate LastIn<T>(s: Regs<T>, valid: bool, input: Word<T>)
    requires WellFormed(s)
  {
    (s.expansionValid || valid) && !F.Full(s.fifo) && SkidOut(s, input).last
  }

  predicate LastOut<T>(s: Regs<T>, ready: bool) { FifoRe(s, ready) && s.fifo.outValid && s.fifo.out.last }

  /** One read-clock edge: valid and input are the asynchronous FIFO's output, ready is m_axis_tready. */
  function Step<T>(s: Regs<T>, valid: bool, input: Word<T>, ready: bool): (s': Regs<T>)
    requires WellFormed(s)
    ensures WellFormed(s')
  {
    var stalled := F.Full(s.fifo);
    var capture := stalled && valid && !s.expansionValid;
    Regs(F.Step(s.fifo, s.expansionValid || valid, SkidOut(s, input), FifoRe(s, ready)),
         if capture then input else s.expansion,
         stalled && (s.expansionValid || valid),
         if LastIn(s, valid, input) && !LastOut(s, ready) then (s.numPackets + 1) % 32
         else if !LastIn(s, valid, input) && LastOut(s, ready) then (s.numPackets + 31) % 32
         else s.numPackets,
         if LastOut(s, ready) then false else s.readPacket || s.numPackets != 0)
  }

  /** The words that leave at this edge. */
  function Leaves<T>(s: Regs<T>, ready: bool): seq<Word<T>> {
    if TValid(s) && ready then [s.fifo.out] else []
  }

  function Stored<T>(s: Regs<T>): seq<Word<T>>
    requires WellFormed(s)
  {
    F.Contents(s.fifo)
  }

  function Skid<T>(s: Regs<T>): seq<Word<T>> { if s.expansionValid then [s.expansion] else [] }

  /** The counter is the number of stored end-of-packet words modulo 32, and the read gate is open only over a valid
      output word that has an end-of-packet word at or behind it. */
  ghost predicate Inv<T>(s: Regs<T>) {
    && WellFormed(s)
    && s.numPackets == Lasts(Stored(s)) % 32
    && (s.readPacket ==> s.fifo.outValid && Lasts(Stored(s)) > 0)
  }

  /** Conservation: what leaves, what is stored and what the skid buffer holds follow the input in order. */
  lemma StepConserves<T>(s: Regs<T>, valid: bool, input: Word<T>, ready: bool)
    requires Inv(s)
    ensures var s' := Step(s, valid, input, ready);
            Leaves(s, ready) + Stored(s') + Skid(s')
            == Stored(s) + Skid(s) + (if valid && !s.expansionValid then [input] else [])
  {
    hide F.Contents, F.Ring, F.Used, F.Full, F.Step, Pow2;
    var s' := Step(s, valid, input, ready);
    F.StepIsQueue(s.fifo, s.expansionValid || valid, SkidOut(s, input), FifoRe(s, ready));
    F.ContentsParts(s.fifo);
  }

  /** The words stored before the cycle that stay stored. */
  function Kept<T>(s: Regs<T>, ready: bool): seq<Word<T>>
    requires Inv(s)
  {
    F.ContentsParts(s.fifo);
    if Leaves(s, ready) != [] then Stored(s)[1..] else Stored(s)
  }

  lemma LastsKept<T>(s: Regs<T>, ready: bool)
    requires Inv(s)
    ensures Lasts(Stored(s)) == Lasts(Kept(s, ready)) + (if LastOut(s, ready) then 1 else 0)
    ensures s.fifo.outValid && FifoRe(s, ready) ==> Kept(s, ready) == F.Ring(s.fifo)
    ensures Lasts(Stored(s)) > 0 && !s.fifo.outValid ==> F.Ring(s.fifo) != []
  {
    hide F.Contents, F.Ring, F.Used, Pow2, Lasts;
    F.ContentsParts(s.fifo);
    LastsOfNone<T>();
    if Leaves(s, ready) != [] {
      LastsSplit(Stored(s), 1);
      assert Stored(s)[..1] == [s.fifo.out];
      LastsOfOne(s.fifo.out);
    }
  }

  function Added<T>(s: Regs<T>, valid: bool, input: Word<T>): seq<Word<T>>
    requires WellFormed(s)
  {
    if (s.expansionValid || valid) && !F.Full(s.fifo) then [SkidOut(s, input)] else []
  }

  lemma StoredStep<T>(s: Regs<T>, valid: bool, input: Word<T>, ready: bool)
    requires Inv(s)
    ensures var s' := Step(s, valid, input, ready);
            && Stored(s') == Kept(s, ready) + Added(s, valid, input)
            && (s'.fifo.outValid <==> (s.fifo.outValid && !FifoRe(s, ready)) || F.Ring(s.fifo) != [])
            && (s.fifo.outValid && !FifoRe(s, ready) ==> s'.fifo.out == s.fifo.out)
  {
    hide F.Contents, F.Ring, F.Used, F.Full, F.Step, Pow2, Lasts;
    F.ContentsParts(s.fifo);
    F.StepIsQueue(s.fifo, s.expansionValid || valid, SkidOut(s, input), FifoRe(s, ready));
  }

  lemma LastsStep<T>(s: Regs<T>, valid: bool, input: Word<T>, ready: bool)
    requires Inv(s)
    ensures Lasts(Stored(Step(s, valid, input, ready))) == Lasts(Kept(s, ready)) + (if LastIn(s, valid, input) then 1 else 0)
  {
    hide Step, Kept, Stored, F.Full, F.WellFormed, Lasts;
    StoredStep(s, valid, input, ready);
    LastsAppend(Kept(s, ready), Added(s, valid, input));
    LastsOfNone<T>();
    LastsOfOne(SkidOut(s, input));
  }

  lemma StepKeepsInv<T>(s: Regs<T>, valid: bool, input: Word<T>, ready: bool)
    requires Inv(s)
    ensures Inv(Step(s, valid, input, ready))
  {
    hide F.Contents, F.Ring, F.Used, F.Full, F.Step, F.WellFormed, Stored, Pow2, Lasts, Kept;
    StoredStep(s, valid, input, ready);
    LastsStep(s, valid, input, ready);
    LastsKept(s, ready);
    FiveBitCounter(Lasts(Stored(s)));
    if Kept(s, ready) == [] {
      LastsOfNone<T>();
    }
  }

  lemma FiveBitCounter(n: nat)
    ensures (n % 32 + 1) % 32 == (n + 1) % 32
    ensures n > 0 ==> (n % 32 + 31) % 32 == (n - 1) % 32
    ensures n % 32 != 0 ==> n > 0
  {
  }

  /** The output never runs dry inside a packet: once valid it stays valid until the end-of-packet word has left, and
      a word that is not taken does not change. */
  lemma ValidUntilLast<T>(s: Regs<T>, valid: bool, input: Word<T>, ready: bool)
    requires Inv(s) && TValid(s)
    ensures var s' := Step(s, valid, input, ready);
            && ((ready && s.fifo.out.last) || TValid(s'))
            && (!ready ==> TValid(s') && s'.fifo.out == s.fifo.out)
  {
    StepKeepsInv(s, valid, input, ready);
  }

  /** A closed gate opens at the next edge if and only if the number of complete stored packets is not a multiple of
      32: with 32 or 64 packets waiting the 5-bit counter reads zero. */
  lemma GateOpensIff<T>(s: Regs<T>, valid: bool, input: Word<T>, ready: bool)
    requires Inv(s) && !s.readPacket
    ensures Step(s, valid, input, ready).readPacket <==> Lasts(Stored(s)) % 32 != 0
  {
  }

  // ---------------------------------------------------------------- runs of the read domain

  /** What the read domain sees in a cycle: a word from the asynchronous FIFO, and m_axis_tready. */
  datatype Cycle<T> = Cycle(valid: bool, word: Word<T>, ready: bool)

  function ReadRun<T>(s: Regs<T>, cycles: seq<Cycle<T>>): (s': Regs<T>)
    requires WellFormed(s)
    ensures WellFormed(s')
    decreases |cycles|
  {
    if cycles == [] then s
    else ReadRun(Step(s, cycles[0].valid, cycles[0].word, cycles[0].ready), cycles[1..])
  }

  /** The words that leave during a run. */
  function Left<T>(s: Regs<T>, cycles: seq<Cycle<T>>): seq<Word<T>>
    requires WellFormed(s)
    decreases |cycles|
  {
    if cycles == [] then []
    else Leaves(s, cycles[0].ready) + Left(Step(s, cycles[0].valid, cycles[0].word, cycles[0].ready), cycles[1..])
  }

  /** No end-of-packet word is stored during the run. */
  predicate NoneEnds<T>(s: Regs<T>, cycles: seq<Cycle<T>>)
    requires WellFormed(s)
    decreases |cycles|
  {
    cycles != [] ==>
      && !LastIn(s, cycles[0].valid, cycles[0].word)
      && NoneEnds(Step(s, cycles[0].valid, cycles[0].word, cycles[0].ready), cycles[1..])
  }

  predicate Stuck<T>(s: Regs<T>)
    requires WellFormed(s)
  {
    !s.readPacket && Lasts(Stored(s)) == 32
  }

  lemma StuckStep<T>(s: Regs<T>, valid: bool, input: Word<T>, ready: bool)
    requires Inv(s) && Stuck(s) && !LastIn(s, valid, input)
    ensures var s' := Step(s, valid, input, ready); Inv(s') && Stuck(s') && Leaves(s, ready) == []
  {
    hide F.Contents, F.Ring, F.Used, F.Full, F.Step, F.WellFormed, Stored, Pow2, Lasts, Kept;
    StepKeepsInv(s, valid, input, ready);
    LastsStep(s, valid, input, ready);
    LastsKept(s, ready);
  }

  /** The stall: with exactly 32 packets behind a closed gate nothing leaves, however long the receiver is ready, until
      another packet ends. */
  lemma {:induction false} StuckAt32<T>(s: Regs<T>, cycles: seq<Cycle<T>>)
    requires Inv(s) && Stuck(s) && NoneEnds(s, cycles)
    ensures Stuck(ReadRun(s, cycles)) && Left(s, cycles) == []
    decreases |cycles|
  {
    if cycles != [] {
      StuckStep(s, cycles[0].valid, cycles[0].word, cycles[0].ready);
      hide Inv, Stuck, Step, Leaves, LastIn;
      StuckAt32(Step(s, cycles[0].valid, cycles[0].word, cycles[0].ready), cycles[1..]);
    }
  }

  /** k one-word packets that arrive while the receiver is not ready. */
  function Filling<T>(x: T, k: nat): (c: seq<Cycle<T>>)
    ensures |c| == k
  {
    seq(k, _ => Cycle(true, Word(true, x), false))
  }

  /** The read domain after k of them. */
  ghost predicate Filled<T>(s: Regs<T>, n: nat, k: nat) {
    && Inv(s) && !s.expansionValid && |s.fifo.ram| == Pow2(n) && |Stored(s)| == k && Lasts(Stored(s)) == k
    && (k >= 2 ==> s.readPacket) && (forall j :: 0 <= j < k ==> Stored(s)[j].last)
  }

  lemma FillStep<T>(s: Regs<T>, n: nat, k: nat, x: T)
    requires Filled(s, n, k) && k + 1 < Pow2(n) && k < 33
    ensures Filled(Step(s, true, Word(true, x), false), n, k + 1)
  {
    hide F.Ring, F.Used, Lasts, Pow2, F.Step;
    StepKeepsInv(s, true, Word(true, x), false);
    StoredStep(s, true, Word(true, x), false);
    LastsStep(s, true, Word(true, x), false);
    LastsKept(s, false);
    RoomFor(s);
    F.StepIsQueue(s.fifo, true, Word(true, x), false);
  }

  lemma RoomFor<T>(s: Regs<T>)
    requires WellFormed(s) && |Stored(s)| + 1 < |s.fifo.ram|
    ensures !F.Full(s.fifo)
  {
    F.ContentsParts(s.fifo);
  }

  lemma {:induction false} FillRun<T>(s: Regs<T>, n: nat, k: nat, m: nat, x: T)
    requires Filled(s, n, k) && k + m < Pow2(n) && k + m <= 33
    ensures WellFormed(s) && Filled(ReadRun(s, Filling(x, m)), n, k + m)
    decreases m
  {
    hide Filled, Step, Pow2;
    FilledIsWellFormed(s, n, k);
    if m > 0 {
      FillStep(s, n, k, x);
      assert Filling(x, m)[1..] == Filling(x, m - 1);
      FillRun(Step(s, true, Word(true, x), false), n, k + 1, m - 1, x);
    }
  }

  lemma FilledIsWellFormed<T>(s: Regs<T>, n: nat, k: nat)
    requires Filled(s, n, k)
    ensures WellFormed(s)
  {
  }

  lemma FilledStart<T>(n: nat, zero: Word<T>)
    requires n >= 1
    ensures Filled(Initial(n, zero), n, 0)
  {
    LastsOfNone<T>();
  }

  lemma SixtyFour(n: nat)
    requires n >= 6
    ensures Pow2(n) >= 64
    decreases n
  {
    if n == 6 {
      assert Pow2(3) == 8 && Pow2(5) == 32;
    } else {
      SixtyFour(n - 1);
    }
  }

  /** The stall is reached: 33 one-word packets arrive before the receiver takes the first one, and the 32 left behind it
      are stuck. */
  lemma StallIsReached<T>(n: nat, zero: Word<T>, x: T)
    requires n >= 6
    ensures var s := ReadRun(Initial(n, zero), Filling(x, 33) + [Cycle(false, zero, true)]); Inv(s) && Stuck(s)
  {
    hide Inv, Step, Pow2, Stored, Lasts, F.Step, F.Contents;
    SixtyFour(n);
    FilledStart(n, zero);
    FillRun(Initial(n, zero), n, 0, 33, x);
    var s := ReadRun(Initial(n, zero), Filling(x, 33));
    ReadRunAppend(Initial(n, zero), Filling(x, 33), [Cycle(false, zero, true)]);
    OneCycle(s, Cycle(false, zero, true));
    TakeOne(s, n, zero);
  }

  lemma {:induction false} ReadRunAppend<T>(s: Regs<T>, a: seq<Cycle<T>>, b: seq<Cycle<T>>)
    requires WellFormed(s)
    ensures ReadRun(s, a + b) == ReadRun(ReadRun(s, a), b)
    decreases |a|
  {
    hide Step;
    if a == [] {
      assert a + b == b;
    } else {
      assert (a + b)[1..] == a[1..] + b;
      ReadRunAppend(Step(s, a[0].valid, a[0].word, a[0].ready), a[1..], b);
    }
  }

  lemma OneCycle<T>(s: Regs<T>, c: Cycle<T>)
    requires WellFormed(s)
    ensures ReadRun(s, [c]) == Step(s, c.valid, c.word, c.ready)
  {
    hide Step;
    assert [c][1..] == [];
    assert ReadRun(s, [c]) == ReadRun(Step(s, c.valid, c.word, c.ready), []);
  }

  lemma TakeOne<T>(s: Regs<T>, n: nat, zero: Word<T>)
    requires Filled(s, n, 33)
    ensures var s' := Step(s, false, zero, true); Inv(s') && Stuck(s')
  {
    hide F.Ring, F.Used, Lasts, Pow2, F.Step, F.Full;
    StepKeepsInv(s, false, zero, true);
    LastsStep(s, false, zero, true);
    LastsKept(s, true);
    F.ContentsParts(s.fifo);
    assert Stored(s)[0].last;
  }

  // ---------------------------------------------------------------- packets come out

  function Readies<T>(cycles: seq<Cycle<T>>): nat {
    if cycles == [] then 0 else Readies(cycles[1..]) + (if cycles[0].ready then 1 else 0)
  }

  /** The words up to and including the first end of a packet. */
  ghost predicate Oldest<T>(words: seq<Word<T>>, p: seq<Word<T>>) {
    p != [] && p <= words && p[|p| - 1].last && forall j :: 0 <= j < |p| - 1 ==> !p[j].last
  }

  lemma SendStep<T>(s: Regs<T>, c: Cycle<T>, p: seq<Word<T>>)
    requires Inv(s) && s.readPacket && Oldest(Stored(s), p)
    ensures var s' := Step(s, c.valid, c.word, c.ready);
            && Inv(s')
            && Leaves(s, c.ready) == (if c.ready then [p[0]] else [])
            && (!c.ready ==> s'.readPacket && Oldest(Stored(s'), p))
            && (c.ready && |p| > 1 ==> s'.readPacket && Oldest(Stored(s'), p[1..]))
  {
    hide F.Ring, F.Used, F.Full, F.Step, F.Contents, Lasts, Pow2;
    StepKeepsInv(s, c.valid, c.word, c.ready);
    StoredStep(s, c.valid, c.word, c.ready);
    F.ContentsParts(s.fifo);
  }

  lemma {:induction false} SendRun<T>(s: Regs<T>, cycles: seq<Cycle<T>>, p: seq<Word<T>>)
    requires Inv(s) && s.readPacket && Oldest(Stored(s), p) && Readies(cycles) >= |p|
    ensures WellFormed(s) && p <= Left(s, cycles)
    decreases |cycles|
  {
    assert WellFormed(s) && p != [];
    hide Inv, Step, Stored, Leaves, Lasts;
    assert cycles != [];
    var c := cycles[0];
    SendStep(s, c, p);
    var s' := Step(s, c.valid, c.word, c.ready);
    if !c.ready {
      SendRun(s', cycles[1..], p);
    } else if |p| > 1 {
      SendRun(s', cycles[1..], p[1..]);
      assert p == [p[0]] + p[1..];
    }
  }

  /** Progress: with 1 to 31 complete packets stored, the oldest one leaves first and whole once the receiver has been
      ready for as many cycles as it has words and one more, whatever arrives meanwhile. */
  lemma OldestComesOut<T>(s: Regs<T>, cycles: seq<Cycle<T>>, p: seq<Word<T>>)
    requires Inv(s) && 1 <= Lasts(Stored(s)) <= 31 && Oldest(Stored(s), p) && Readies(cycles) >= |p| + 1
    ensures WellFormed(s) && p <= Left(s, cycles)
  {
    if s.readPacket {
      SendRun(s, cycles, p);
    } else {
      OpenStep(s, cycles[0], p);
      SendRun(Step(s, cycles[0].valid, cycles[0].word, cycles[0].ready), cycles[1..], p);
    }
    hide Step, Stored, Lasts, Oldest;
  }

  /** A closed gate opens at once, and what is stored stays stored. */
  lemma OpenStep<T>(s: Regs<T>, c: Cycle<T>, p: seq<Word<T>>)
    requires Inv(s) && !s.readPacket && 1 <= Lasts(Stored(s)) <= 31 && Oldest(Stored(s), p)
    ensures var s' := Step(s, c.valid, c.word, c.ready);
            Inv(s') && s'.readPacket && Oldest(Stored(s'), p) && Leaves(s, c.ready) == []
  {
    hide F.Ring, F.Used, F.Full, F.Step, F.Contents, Lasts, Pow2;
    StepKeepsInv(s, c.valid, c.word, c.ready);
    StoredStep(s, c.valid, c.word, c.ready);
  }

  // ---------------------------------------------------------------- both clock domains

  /** One or both clocks rise: word and valid are the write port, ready is m_axis_tready. */
  datatype Event<T> =
    | WriteEdge(valid: bool, word: Word<T>)
    | ReadEdge(ready: bool)
    | BothEdges(valid: bool, word: Word<T>, ready: bool, writeMask: seq<bool>, readMask: seq<bool>)

  datatype System<T> = System(afifo: A.History<Word<T>>, rd: Regs<T>, delivered: seq<Word<T>>)

  ghost predicate SystemWellFormed<T>(y: System<T>) { A.WellFormed(y.afifo.hw) && WellFormed(y.rd) }

  ghost function Start<T>(n: nat, zero: Word<T>): System<T>
    requires n >= 2
  {
    System(A.Start(n, zero), Initial(n, zero), [])
  }

  /** The asynchronous FIFO is read whenever the skid buffer can take a word. */
  ghost function AfifoEvent<T>(y: System<T>, e: Event<T>): A.Event<Word<T>> {
    var re := !y.rd.expansionValid;
    match e
    case WriteEdge(valid, word) => A.WriteEdge(valid, word)
    case ReadEdge(_) => A.ReadEdge(re)
    case BothEdges(valid, word, _, writeMask, readMask) => A.BothEdges(valid, word, re, writeMask, readMask)
  }

  ghost function Observe<T>(y: System<T>, e: Event<T>): (y': System<T>)
    requires SystemWellFormed(y)
    ensures SystemWellFormed(y')
  {
    var r := y.afifo.hw.read;
    System(A.Observe(y.afifo, AfifoEvent(y, e)),
           if e.WriteEdge? then y.rd else Step(y.rd, r.outputValid, r.output, e.ready),
           if e.WriteEdge? then y.delivered else y.delivered + Leaves(y.rd, e.ready))
  }

  ghost function Run<T>(y: System<T>, events: seq<Event<T>>): (y': System<T>)
    requires SystemWellFormed(y)
    ensures SystemWellFormed(y')
    decreases |events|
  {
    if events == [] then y else Run(Observe(y, events[0]), events[1..])
  }

  ghost predicate SystemInv<T>(y: System<T>) {
    && A.Inv(y.afifo) && Inv(y.rd)
    && y.afifo.taken == y.delivered + Stored(y.rd) + Skid(y.rd)
  }

  lemma SystemStep<T>(y: System<T>, e: Event<T>)
    requires SystemInv(y)
    ensures SystemInv(Observe(y, e))
  {
    assert SystemWellFormed(y);
    hide A.Inv, A.AfterRead, A.AfterWrite, A.AfterRamWrite, Stored, Inv, Step, A.Step;
    var y' := Observe(y, e);
    A.InvStep(y.afifo, AfifoEvent(y, e));
    if !e.WriteEdge? {
      var r := y.afifo.hw.read;
      StepKeepsInv(y.rd, r.outputValid, r.output, e.ready);
      StepConserves(y.rd, r.outputValid, r.output, e.ready);
      var input := if r.outputValid && !y.rd.expansionValid then [r.output] else [];
      assert y'.afifo.taken == y.afifo.taken + input;
      Regroup(y.delivered, Stored(y.rd), Skid(y.rd), input, Leaves(y.rd, e.ready), Stored(y'.rd), Skid(y'.rd));
    }
  }

  lemma Regroup<T>(d: seq<T>, st: seq<T>, sk: seq<T>, i: seq<T>, l: seq<T>, st': seq<T>, sk': seq<T>)
    requires l + st' + sk' == st + sk + i
    ensures d + l + st' + sk' == d + st + sk + i
  {
    assert d + l + st' + sk' == d + (l + st' + sk');
    assert d + st + sk + i == d + (st + sk + i);
  }

  lemma {:induction false} SystemRun<T>(y: System<T>, events: seq<Event<T>>)
    requires SystemInv(y)
    ensures SystemInv(Run(y, events))
    decreases |events|
  {
    if events != [] {
      SystemStep(y, events[0]);
      SystemRun(Observe(y, events[0]), events[1..]);
    }
  }

  lemma SystemStart<T>(n: nat, zero: Word<T>)
    requires n >= 2
    ensures SystemInv(Start(n, zero))
  {
    A.InvStart(n, zero);
  }

  lemma Reachable<T>(n: nat, zero: Word<T>, events: seq<Event<T>>)
    requires n >= 2
    ensures SystemInv(Run(Start(n, zero), events))
  {
    SystemStart(n, zero);
    SystemRun(Start(n, zero), events);
  }

  lemma DeliveredIsPrefix<T>(y: System<T>)
    requires SystemInv(y)
    ensures y.delivered <= y.afifo.accepted
  {
    A.TakenIsPrefix(y.afifo);
    hide *;
    PrefixOfPrefix(y.delivered, Stored(y.rd), Skid(y.rd), y.afifo.taken, y.afifo.accepted);
  }

  lemma PrefixOfPrefix<T>(d: seq<T>, a: seq<T>, b: seq<T>, taken: seq<T>, accepted: seq<T>)
    requires taken == d + a + b && taken <= accepted
    ensures d <= accepted
  {
  }

  /** For every interleaving of the clocks and every stall pattern, words leave in the order they were accepted at the
      write port, and none is lost: what was accepted is what was delivered, followed by what FIFO and skid buffer hold
      and by what is still in the asynchronous FIFO, which is no more than fits there. */
  lemma LeavesInWriteOrder<T>(n: nat, zero: Word<T>, events: seq<Event<T>>)
    requires n >= 2
    ensures var y := Run(Start(n, zero), events);
            && y.delivered <= y.afifo.accepted
            && y.delivered + Stored(y.rd) + Skid(y.rd) == y.afifo.taken <= y.afifo.accepted
            && |y.afifo.accepted| <= |y.afifo.taken| + Pow2(y.afifo.hw.n) + 3
  {
    hide A.Inv, Run, Stored, Skid;
    Reachable(n, zero, events);
    var y := Run(Start(n, zero), events);
    DeliveredIsPrefix(y);
    A.TakenIsPrefix(y.afifo);
    OutstandingBound(y.afifo);
  }

  lemma OutstandingBound<T>(h: A.History<T>)
    requires A.Inv(h)
    ensures |h.accepted| <= |h.taken| + Pow2(h.hw.n) + 3
  {
  }

  /** Output valid, once high, does not drop before the end-of-packet word has left, however many packets are stored,
      and the counter is the number of stored packets whenever that is below 32. */
  ghost predicate NeverDry<T>(y: System<T>, e: Event<T>)
    requires SystemWellFormed(y)
  {
    && (y.rd.readPacket ==> TValid(y.rd))
    && (TValid(y.rd) ==> TValid(Observe(y, e).rd) || (!e.WriteEdge? && e.ready && y.rd.fifo.out.last))
    && (Lasts(Stored(y.rd)) < 32 ==> y.rd.numPackets == Lasts(Stored(y.rd)))
  }

  lemma NeverDryInsidePacket<T>(n: nat, zero: Word<T>, events: seq<Event<T>>, e: Event<T>)
    requires n >= 2
    ensures NeverDry(Run(Start(n, zero), events), e)
  {
    Reachable(n, zero, events);
    InvMeansNeverDry(Run(Start(n, zero), events), e);
  }

  lemma InvMeansNeverDry<T>(y: System<T>, e: Event<T>)
    requires SystemInv(y)
    ensures NeverDry(y, e)
  {
    hide A.Observe, A.Inv, Step, F.Contents;
    if TValid(y.rd) && !e.WriteEdge? {
      ValidUntilLast(y.rd, y.afifo.hw.read.outputValid, y.afifo.hw.read.output, e.ready);
    }
  }

  /** The read clock domain as clocked processes around the ring buffer. */
  class ReadDomain<T(==)> {
    const fifo: F.Fifo<Word<T>>
    var expansion: Word<T>
    var expansionValid: bool
    var numPackets: nat
    var readPacket: bool

    function Registers(): Regs<T>
      reads this, fifo, fifo.ram
    {
      Regs(fifo.Registers(), expansion, expansionValid, numPackets, readPacket)
    }

    constructor (n: nat, zero: Word<T>)
      requires n >= 1
      ensures Registers() == Initial(n, zero) && fresh(fifo) && fresh(fifo.ram)
    {
      fifo := new F.Fifo(n, zero);
      expansion, expansionValid, numPackets, readPacket := zero, false, 0, false;
    }

    method Clock(valid: bool, input: Word<T>, ready: bool)
      requires WellFormed(Registers())
      modifies this, fifo, fifo.ram
      ensures Registers() == Step(old(Registers()), valid, input, ready)
    {
      hide Pow2, F.Step, F.Full;
      var fifoDin := if expansionValid then expansion else input;
      var fifoWe := expansionValid || valid;
      var fifoFull := F.Full(fifo.Registers());
      var fifoRe := readPacket && ready;
      var lastIn := fifoWe && !fifoFull && fifoDin.last;
      var lastOut := fifoRe && fifo.outValid && fifo.out.last;
      fifo.Clock(fifoWe, fifoDin, fifoRe);
      if fifoFull && valid && !expansionValid {
        expansion := input;
      }
      expansionValid := fifoFull && fifoWe;
      readPacket := !lastOut && (readPacket || numPackets != 0);
      if lastIn && !lastOut {
        numPackets := (numPackets + 1) % 32;
      } else if !lastIn && lastOut {
        numPackets := (numPackets + 31) % 32;
      }
    }
  }
}
