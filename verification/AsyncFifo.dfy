/** Dual-clock FIFO with Gray pointers, two-flop synchronisers and a three-slot fall-through read stage. */
module AsyncFifo {
  import opened BitVectors
  import opened ByteStream
  import opened GrayCode
  import opened Wrapping

  datatype WriteSide = WriteSide(addr: nat, pointer: Vector, full: bool, sync1: Vector, sync2: Vector)

  datatype ReadSide<T> = ReadSide(
    addr: nat, pointer: Vector, empty: bool, sync1: Vector, sync2: Vector,
    fifoQ: T, fifoValid: bool, buffer: T, bufferValid: bool, output: T, outputValid: bool)

  /** n is the log2 depth; pointers carry one bit more. */
  datatype Regs<T> = Regs(n: nat, write: WriteSide, read: ReadSide<T>, ram: seq<T>)

  /** One or both clocks rise; the masks say which changing pointer bits the other side captures as new. */
  datatype Event<T> =
    | WriteEdge(en: bool, data: T)
    | ReadEdge(en: bool)
    | BothEdges(wen: bool, wdata: T, ren: bool, writeMask: seq<bool>, readMask: seq<bool>)

  predicate WellFormed<T>(s: Regs<T>) {
    && s.n >= 2 && |s.ram| == Pow2(s.n)
    && s.write.addr < Pow2(s.n + 1) && s.read.addr < Pow2(s.n + 1)
    && |s.write.pointer| == |s.write.sync1| == |s.write.sync2| == s.n + 1
    && |s.read.pointer| == |s.read.sync1| == |s.read.sync2| == s.n + 1
  }

  function Initial<T>(n: nat, zero: T): (s: Regs<T>)
    requires n >= 2
    ensures WellFormed(s)
  {
    var p := Gray(0, n + 1);
    Regs(n, WriteSide(0, p, false, p, p), ReadSide(0, p, true, p, p, zero, false, zero, false, zero, false),
         seq(Pow2(n), _ => zero))
  }

  predicate WriteAccepted(w: WriteSide, en: bool) { en && !w.full }

  function AfterWrite(n: nat, w: WriteSide, en: bool, sample: Vector): (w': WriteSide)
    requires n >= 2 && |w.sync2| == n + 1 && w.addr < Pow2(n + 1)
    ensures w'.addr < Pow2(n + 1)
  {
    var next := if WriteAccepted(w, en) then Next(w.addr, Pow2(n + 1)) else w.addr;
    var pointer := Gray(next, n + 1);
    WriteSide(next, pointer, FullTest(pointer, w.sync2), sample, w.sync1)
  }

  function AfterRamWrite<T>(n: nat, ram: seq<T>, w: WriteSide, en: bool, data: T): (ram': seq<T>)
    requires |ram| == Pow2(n) && w.addr < Pow2(n + 1)
    ensures |ram'| == |ram|
  {
    if WriteAccepted(w, en) then ram[Low(w.addr, Pow2(n)) := data] else ram
  }

  predicate FifoRead<T>(r: ReadSide<T>) { !r.empty && !(r.fifoValid && r.bufferValid && r.outputValid) }

  predicate UpdateOutput<T>(r: ReadSide<T>, en: bool) { (r.bufferValid || r.fifoValid) && (en || !r.outputValid) }

  predicate UpdateBuffer<T>(r: ReadSide<T>, en: bool) { r.fifoValid && r.bufferValid == UpdateOutput(r, en) }

  function AfterRead<T>(n: nat, ram: seq<T>, r: ReadSide<T>, en: bool, sample: Vector): (r': ReadSide<T>)
    requires |ram| == Pow2(n) && r.addr < Pow2(n + 1)
    ensures r'.addr < Pow2(n + 1)
  {
    var next := if FifoRead(r) then Next(r.addr, Pow2(n + 1)) else r.addr;
    var pointer := Gray(next, n + 1);
    var toBuffer, toOutput := UpdateBuffer(r, en), UpdateOutput(r, en);
    ReadSide(
      next, pointer, pointer == r.sync2, sample, r.sync1,
      if FifoRead(r) then ram[Low(r.addr, Pow2(n))] else r.fifoQ,
      FifoRead(r) || (r.fifoValid && !toBuffer && !toOutput),
      if toBuffer then r.fifoQ else r.buffer,
      toBuffer || (r.bufferValid && !toOutput),
      if toOutput then if r.bufferValid then r.buffer else r.fifoQ else r.output,
      toOutput || (r.outputValid && !en))
  }

  function Step<T>(s: Regs<T>, e: Event<T>): (s': Regs<T>)
    requires WellFormed(s)
    ensures WellFormed(s') && s'.n == s.n
  {
    match e
    case WriteEdge(en, data) =>
      s.(write := AfterWrite(s.n, s.write, en, s.read.pointer),
         ram := AfterRamWrite(s.n, s.ram, s.write, en, data))
    case ReadEdge(en) =>
      s.(read := AfterRead(s.n, s.ram, s.read, en, s.write.pointer))
    case BothEdges(wen, wdata, ren, writeMask, readMask) =>
      var w := AfterWrite(s.n, s.write, wen, s.write.sync1);
      var r := AfterRead(s.n, s.ram, s.read, ren, s.read.sync1);
      s.(write := w.(sync1 := Sample(s.read.pointer, r.pointer, readMask)),
         read := r.(sync1 := Sample(s.write.pointer, w.pointer, writeMask)),
         ram := AfterRamWrite(s.n, s.ram, s.write, wen, wdata))
  }

  /** The words that the two ports show to be accepted and taken by this event: what is offered while the full flag is
      low, and what is requested while the output is valid. */
  function Accepts<T>(s: Regs<T>, e: Event<T>): seq<T> {
    match e
    case WriteEdge(en, data) => if en && !s.write.full then [data] else []
    case ReadEdge(_) => []
    case BothEdges(wen, wdata, _, _, _) => if wen && !s.write.full then [wdata] else []
  }

  function Takes<T>(s: Regs<T>, e: Event<T>): seq<T> {
    match e
    case WriteEdge(_, _) => []
    case ReadEdge(en) => if en && s.read.outputValid then [s.read.output] else []
    case BothEdges(_, _, ren, _, _) => if ren && s.read.outputValid then [s.read.output] else []
  }

  /** The registers with the unbounded counts they stand for: every word accepted and taken so far, and the write
      and read counts that the synchroniser flops hold. */
  datatype History<T> = History(hw: Regs<T>, accepted: seq<T>, taken: seq<T>, w1: nat, w2: nat, r1: nat, r2: nat)

  function Written<T>(h: History<T>): nat { |h.accepted| }

  /** Words in the fall-through stage, oldest first. */
  function Slots<T>(r: ReadSide<T>): seq<T> {
    (if r.outputValid then [r.output] else []) + (if r.bufferValid then [r.buffer] else [])
    + (if r.fifoValid then [r.fifoQ] else [])
  }

  function Fetched<T>(h: History<T>): nat { |h.taken| + |Slots(h.hw.read)| }

  function Start<T>(n: nat, zero: T): History<T>
    requires n >= 2
  {
    History(Initial(n, zero), [], [], 0, 0, 0, 0)
  }

  /** A flop that captured the new pointer of a simultaneous edge holds the new count, otherwise the old one. */
  ghost function Observe<T>(h: History<T>, e: Event<T>): (h': History<T>)
    requires WellFormed(h.hw)
    ensures WellFormed(h'.hw)
  {
    var hw := Step(h.hw, e);
    var w, r := Written(h), Fetched(h);
    var moved := if FifoRead(h.hw.read) then 1 else 0;
    var next := h.(hw := hw, accepted := h.accepted + Accepts(h.hw, e), taken := h.taken + Takes(h.hw, e));
    match e
    case WriteEdge(_, _) => next.(r1 := r, r2 := h.r1)
    case ReadEdge(_) => next.(w1 := w, w2 := h.w1)
    case BothEdges(_, _, _, _, _) =>
      next.(r1 := if hw.write.sync1 == h.hw.read.pointer then r else r + moved, r2 := h.r1,
            w1 := if hw.read.sync1 == h.hw.write.pointer then w else w + |Accepts(h.hw, e)|, w2 := h.w1)
  }

  ghost function Run<T>(h: History<T>, events: seq<Event<T>>): (h': History<T>)
    requires WellFormed(h.hw)
    ensures WellFormed(h'.hw)
    decreases |events|
  {
    if events == [] then h else Run(Observe(h, events[0]), events[1..])
  }

  // ---------------------------------------------------------------- the invariant

  function Pointer(n: nat, count: nat): (v: Vector)
    ensures |v| == n + 1
  {
    Gray(Wrap(count, Pow2(n + 1)), n + 1)
  }

  ghost predicate WriteInv(n: nat, w: WriteSide, count: nat, r1: nat, r2: nat) {
    && w.addr == Wrap(count, Pow2(n + 1)) && w.pointer == Pointer(n, count)
    && w.sync1 == Pointer(n, r1) && w.sync2 == Pointer(n, r2)
    && r2 <= r1 && count <= r2 + Pow2(n)
    && (if w.full then count >= Pow2(n) else count < r2 + Pow2(n))
  }

  ghost predicate ReadInv<T>(n: nat, r: ReadSide<T>, count: nat, w1: nat, w2: nat) {
    && r.addr == Wrap(count, Pow2(n + 1)) && r.pointer == Pointer(n, count)
    && r.sync1 == Pointer(n, w1) && r.sync2 == Pointer(n, w2)
    && w2 <= w1 && count <= w2
    && (!r.empty ==> count < w2)
  }

  ghost predicate RamInv<T>(n: nat, ram: seq<T>, accepted: seq<T>, fetched: nat) {
    && |ram| == Pow2(n)
    && forall i :: fetched <= i < |accepted| ==> ram[Wrap(i, Pow2(n))] == accepted[i]
  }

  ghost predicate Inv<T>(h: History<T>) {
    && WellFormed(h.hw)
    && WriteInv(h.hw.n, h.hw.write, Written(h), h.r1, h.r2)
    && ReadInv(h.hw.n, h.hw.read, Fetched(h), h.w1, h.w2)
    && h.r1 <= Fetched(h) && h.w1 <= Written(h)
    && RamInv(h.hw.n, h.hw.ram, h.accepted, Fetched(h))
    && h.taken + Slots(h.hw.read) == h.accepted[..Fetched(h)]
  }

  // ---------------------------------------------------------------- pointer facts

  /** Equal pointers mean equal counts, as long as the counts are within one lap. */
  lemma PointersEqual(n: nat, a: nat, b: nat)
    requires a <= b < a + Pow2(n + 1)
    ensures Pointer(n, a) == Pointer(n, b) <==> a == b
  {
    var m := Pow2(n + 1);
    GrayInjective(Wrap(a, m), Wrap(b, m), n + 1);
    if a < b {
      WrapDistinct(a, b, m);
    }
  }

  lemma DoublePow(n: nat)
    ensures Pow2(n + 1) == 2 * Pow2(n)
  {
  }

  /** The full comparison of the write pointer with a read pointer holds exactly when every slot is in use. */
  lemma PointersFull(n: nat, r: nat, w: nat)
    requires n >= 1 && r <= w <= r + Pow2(n)
    ensures FullTest(Pointer(n, w), Pointer(n, r)) <==> w == r + Pow2(n)
  {
    DoublePow(n);
    hide Pow2, Wrap, Gray, FullTest;
    var m := Pow2(n + 1);
    WrapAdvance(r, w - r, m);
    FullTestIsHalfApart(Wrap(w, m), Wrap(r, m), n + 1);
    HalfLap(Wrap(w, m), Wrap(r, m), w - r, Pow2(n));
  }

  lemma HalfLap(a: nat, b: nat, d: nat, half: nat)
    requires b < 2 * half && d <= half && a == if b + d < 2 * half then b + d else b + d - 2 * half
    ensures (a == b + half || b == a + half) <==> d == half
  {
  }

  lemma NextPointer(n: nat, count: nat, mask: seq<bool>)
    ensures Next(Wrap(count, Pow2(n + 1)), Pow2(n + 1)) == Wrap(count + 1, Pow2(n + 1))
    ensures Sample(Pointer(n, count), Pointer(n, count + 1), mask) in [Pointer(n, count), Pointer(n, count + 1)]
    ensures Sample(Pointer(n, count), Pointer(n, count), mask) == Pointer(n, count)
  {
    var m := Pow2(n + 1);
    WrapNext(count, m);
    SampleIsOldOrNew(Wrap(count, m), Wrap(count + 1, m), n + 1, mask);
    SampleIsOldOrNew(Wrap(count, m), Wrap(count, m), n + 1, mask);
  }

  // ---------------------------------------------------------------- one edge of each clock

  lemma WriteSideStep(n: nat, w: WriteSide, en: bool, count: nat, r0: nat, r1: nat, r2: nat)
    requires n >= 2 && WriteInv(n, w, count, r1, r2) && r2 <= count && r1 <= r0
    ensures var count' := if WriteAccepted(w, en) then count + 1 else count;
            var w' := AfterWrite(n, w, en, Pointer(n, r0));
            WriteInv(n, w', count', r0, r1) && (w'.full <==> count' == r2 + Pow2(n))
  {
    var count' := if WriteAccepted(w, en) then count + 1 else count;
    NextPointer(n, count, []);
    PointersFull(n, r2, count');
  }

  lemma ReadSideStep<T>(n: nat, ram: seq<T>, r: ReadSide<T>, en: bool, count: nat, w0: nat, w1: nat, w2: nat)
    requires |ram| == Pow2(n) && ReadInv(n, r, count, w1, w2) && w1 <= w0 && w2 <= count + Pow2(n)
    ensures var count' := if FifoRead(r) then count + 1 else count;
            var r' := AfterRead(n, ram, r, en, Pointer(n, w0));
            ReadInv(n, r', count', w0, w1) && (r'.empty <==> count' == w2)
  {
    var count' := if FifoRead(r) then count + 1 else count;
    NextPointer(n, count, []);
    PointersEqual(n, count', w2);
  }

  /** The fall-through stage keeps order: what it holds after the edge, preceded by what was taken, is what it held
      before followed by the word fetched from the RAM. */
  lemma FallThroughStep<T>(n: nat, ram: seq<T>, r: ReadSide<T>, en: bool, sample: Vector)
    requires |ram| == Pow2(n) && r.addr < Pow2(n + 1)
    ensures (if en && r.outputValid then [r.output] else []) + Slots(AfterRead(n, ram, r, en, sample))
            == Slots(r) + (if FifoRead(r) then [ram[Low(r.addr, Pow2(n))]] else [])
  {
    var r' := AfterRead(n, ram, r, en, sample);
    if FifoRead(r) {
      assert r'.fifoQ == ram[Low(r.addr, Pow2(n))];
    }
  }

  /** Writing never overwrites a slot that is still to be fetched. */
  lemma RamWriteStep<T>(n: nat, ram: seq<T>, w: WriteSide, en: bool, data: T, accepted: seq<T>, fetched: nat)
    requires RamInv(n, ram, accepted, fetched) && fetched <= |accepted|
    requires w.addr == Wrap(|accepted|, Pow2(n + 1))
    requires WriteAccepted(w, en) ==> |accepted| < fetched + Pow2(n)
    ensures RamInv(n, AfterRamWrite(n, ram, w, en, data), accepted + (if WriteAccepted(w, en) then [data] else []), fetched)
  {
    if WriteAccepted(w, en) {
      var d := Pow2(n);
      WrapLow(|accepted|, d);
      forall i | fetched <= i < |accepted|
        ensures Wrap(i, d) != Wrap(|accepted|, d)
      {
        WrapDistinct(i, |accepted|, d);
      }
    }
  }

  lemma RamReadAddress(n: nat, count: nat)
    ensures Low(Wrap(count, Pow2(n + 1)), Pow2(n)) == Wrap(count, Pow2(n))
  {
    WrapLow(count, Pow2(n));
  }

  lemma Conserve<T>(taken: seq<T>, out: seq<T>, slots: seq<T>, slots': seq<T>, word: seq<T>, accepted: seq<T>, fetched: nat)
    requires out + slots' == slots + word
    requires fetched + |word| <= |accepted| && word == accepted[fetched..fetched + |word|]
    requires taken + slots == accepted[..fetched]
    ensures |out| + |slots'| == |slots| + |word|
    ensures (taken + out) + slots' == accepted[..fetched + |word|]
  {
    assert |out + slots'| == |slots + word|;
    assert (taken + out) + slots' == taken + (out + slots') == (taken + slots) + word;
  }

  /** What the read side of any event does to the words in flight. */
  lemma ReadConserves<T>(n: nat, ram: seq<T>, r: ReadSide<T>, en: bool, sample: Vector, taken: seq<T>, accepted: seq<T>)
    requires |ram| == Pow2(n) && r.addr < Pow2(n + 1)
    requires var fetched := |taken| + |Slots(r)|;
             && fetched <= |accepted|
             && (FifoRead(r) ==> fetched < |accepted| && ram[Low(r.addr, Pow2(n))] == accepted[fetched])
             && taken + Slots(r) == accepted[..fetched]
    ensures var r' := AfterRead(n, ram, r, en, sample);
            var taken' := taken + (if en && r.outputValid then [r.output] else []);
            var fetched' := |taken| + |Slots(r)| + (if FifoRead(r) then 1 else 0);
            && |taken'| + |Slots(r')| == fetched'
            && taken' + Slots(r') == accepted[..fetched']
  {
    hide AfterRead, Slots;
    var fetched := |taken| + |Slots(r)|;
    var out := if en && r.outputValid then [r.output] else [];
    var word := if FifoRead(r) then [ram[Low(r.addr, Pow2(n))]] else [];
    FallThroughStep(n, ram, r, en, sample);
    assert word == accepted[fetched..fetched + |word|];
    Conserve(taken, out, Slots(r), Slots(AfterRead(n, ram, r, en, sample)), word, accepted, fetched);
  }

  /** The slot that the next fetch reads holds the next word. */
  lemma NextWord<T>(h: History<T>)
    requires Inv(h) && FifoRead(h.hw.read)
    ensures Fetched(h) < Written(h) && h.hw.ram[Low(h.hw.read.addr, Pow2(h.hw.n))] == h.accepted[Fetched(h)]
  {
    RamReadAddress(h.hw.n, Fetched(h));
  }

  /** The write half of an edge, when the pointer captured from the read side stands for count r0. */
  lemma WriteHalf<T>(h: History<T>, en: bool, data: T, r0: nat)
    requires Inv(h) && h.r1 <= r0
    ensures var n, w := h.hw.n, h.hw.write;
            var w' := AfterWrite(n, w, en, Pointer(n, r0));
            var accepted' := h.accepted + (if WriteAccepted(w, en) then [data] else []);
            && WriteInv(n, w', |accepted'|, r0, h.r1)
            && RamInv(n, AfterRamWrite(n, h.hw.ram, w, en, data), accepted', Fetched(h))
            && (w'.full <==> |accepted'| == h.r2 + Pow2(n))
            && w'.pointer == Pointer(n, |accepted'|)
  {
    hide AfterWrite, AfterRamWrite, FullTest, Gray, Pow2, Wrap, Pointer;
    WriteSideStep(h.hw.n, h.hw.write, en, Written(h), r0, h.r1, h.r2);
    RamWriteStep(h.hw.n, h.hw.ram, h.hw.write, en, data, h.accepted, Fetched(h));
  }

  /** The words after the read half of an edge. */
  lemma ReadHalfWords<T>(h: History<T>, en: bool, sample: Vector)
    requires Inv(h)
    ensures var r' := AfterRead(h.hw.n, h.hw.ram, h.hw.read, en, sample);
            var taken' := h.taken + (if en && h.hw.read.outputValid then [h.hw.read.output] else []);
            var fetched' := Fetched(h) + (if FifoRead(h.hw.read) then 1 else 0);
            |taken'| + |Slots(r')| == fetched' <= Written(h) && taken' + Slots(r') == h.accepted[..fetched']
  {
    hide Inv, AfterRead, Slots, Gray, Wrap, FifoRead;
    FetchFacts(h);
    ReadConserves(h.hw.n, h.hw.ram, h.hw.read, en, sample, h.taken, h.accepted);
  }

  lemma FetchFacts<T>(h: History<T>)
    requires Inv(h)
    ensures var n, r := h.hw.n, h.hw.read;
            && |h.hw.ram| == Pow2(n) && r.addr < Pow2(n + 1)
            && Fetched(h) == |h.taken| + |Slots(r)| <= Written(h) && h.taken + Slots(r) == h.accepted[..Fetched(h)]
            && (FifoRead(r) ==> Fetched(h) < |h.accepted| && h.hw.ram[Low(r.addr, Pow2(n))] == h.accepted[Fetched(h)])
  {
    if FifoRead(h.hw.read) {
      NextWord(h);
    }
  }

  /** The read half of an edge, when the pointer captured from the write side stands for count w0. */
  lemma ReadHalf<T>(h: History<T>, en: bool, w0: nat)
    requires Inv(h) && h.w1 <= w0
    ensures var n, r := h.hw.n, h.hw.read;
            var r' := AfterRead(n, h.hw.ram, r, en, Pointer(n, w0));
            var taken' := h.taken + (if en && r.outputValid then [r.output] else []);
            var fetched' := Fetched(h) + (if FifoRead(r) then 1 else 0);
            && |taken'| + |Slots(r')| == fetched' <= Written(h)
            && taken' + Slots(r') == h.accepted[..fetched']
            && ReadInv(n, r', fetched', w0, h.w1)
            && (r'.empty <==> fetched' == h.w2)
            && r'.pointer == Pointer(n, fetched')
  {
    var n, r := h.hw.n, h.hw.read;
    ReadSideStep(n, h.hw.ram, r, en, Fetched(h), w0, h.w1, h.w2);
    ReadHalfWords(h, en, Pointer(n, w0));
    hide AfterRead, FullTest, Gray, Pow2, Pointer, Next, Low, Wrap, RamInv, Slots, WriteInv;
  }

  lemma WriteEdgeStep<T>(h: History<T>, en: bool, data: T)
    requires Inv(h)
    ensures Inv(Observe(h, WriteEdge(en, data)))
  {
    hide AfterWrite, AfterRead, AfterRamWrite, FullTest, Gray, Pow2, Pointer, Sample, Next, Low, Wrap;
    var h' := Observe(h, WriteEdge(en, data));
    WriteHalf(h, en, data, Fetched(h));
    assert h'.taken == h.taken;
    assert h'.accepted[..Fetched(h)] == h.accepted[..Fetched(h)];
  }

  lemma ReadEdgeStep<T>(h: History<T>, en: bool)
    requires Inv(h)
    ensures Inv(Observe(h, ReadEdge(en)))
  {
    hide AfterWrite, AfterRead, AfterRamWrite, FullTest, Gray, Pow2, Pointer, Sample, Next, Low, Wrap;
    var h' := Observe(h, ReadEdge(en));
    ReadHalf(h, en, Written(h));
    assert h'.accepted == h.accepted;
  }

  /** A sample taken while the pointer moves stands for the count before or after the move. */
  lemma SampledCount(n: nat, count: nat, count': nat, mask: seq<bool>)
    requires count' == count || count' == count + 1
    ensures var v := Sample(Pointer(n, count), Pointer(n, count'), mask);
            v == Pointer(n, if v == Pointer(n, count) then count else count')
  {
    NextPointer(n, count, mask);
  }

  /** What is captured from the other clock reaches nothing but the first synchroniser flop. */
  lemma SampleReachesOneFlop<T>(s: Regs<T>, wen: bool, ren: bool, v: Vector, v': Vector, u: Vector, u': Vector)
    requires WellFormed(s)
    ensures AfterWrite(s.n, s.write, wen, v') == AfterWrite(s.n, s.write, wen, v).(sync1 := v')
    ensures AfterRead(s.n, s.ram, s.read, ren, u') == AfterRead(s.n, s.ram, s.read, ren, u).(sync1 := u')
  {
  }

  /** With both edges at once the write side sees a read count from before or after the edge. */
  lemma WriteSideOfBoth<T>(h: History<T>, wen: bool, wdata: T, ren: bool, writeMask: seq<bool>, readMask: seq<bool>)
    requires Inv(h)
    ensures var h' := Observe(h, BothEdges(wen, wdata, ren, writeMask, readMask));
            Fetched(h) <= h'.r1 && h'.hw.write == AfterWrite(h.hw.n, h.hw.write, wen, Pointer(h.hw.n, h'.r1))
  {
    var s, h' := h.hw, Observe(h, BothEdges(wen, wdata, ren, writeMask, readMask));
    BothObserved(h, wen, wdata, ren, writeMask, readMask);
    SidePointers(h, wen, wdata, ren);
    var p := Pointer(s.n, h'.r1);
    hide *;
    CapturedCount(s.n, Fetched(h), FifoRead(s.read), readMask, s.read.pointer,
                  AfterRead(s.n, s.ram, s.read, ren, s.read.sync1).pointer, h'.r1);
    SampleReachesOneFlop(s, wen, ren, s.write.sync1, p, p, p);
  }

  /** And the read side a write count from before or after it. */
  lemma ReadSideOfBoth<T>(h: History<T>, wen: bool, wdata: T, ren: bool, writeMask: seq<bool>, readMask: seq<bool>)
    requires Inv(h)
    ensures var h' := Observe(h, BothEdges(wen, wdata, ren, writeMask, readMask));
            Written(h) <= h'.w1 && h'.hw.read == AfterRead(h.hw.n, h.hw.ram, h.hw.read, ren, Pointer(h.hw.n, h'.w1))
  {
    var s, h' := h.hw, Observe(h, BothEdges(wen, wdata, ren, writeMask, readMask));
    BothObserved(h, wen, wdata, ren, writeMask, readMask);
    SidePointers(h, wen, wdata, ren);
    var p := Pointer(s.n, h'.w1);
    hide *;
    CapturedCount(s.n, Written(h), WriteAccepted(s.write, wen), writeMask, s.write.pointer,
                  AfterWrite(s.n, s.write, wen, s.write.sync1).pointer, h'.w1);
    SampleReachesOneFlop(s, wen, ren, p, p, s.read.sync1, p);
  }

  /** A captured pointer stands for the count from before or after the edge. */
  lemma CapturedCount(n: nat, count: nat, moved: bool, mask: seq<bool>, before: Vector, after: Vector, captured: nat)
    requires before == Pointer(n, count) && after == Pointer(n, count + (if moved then 1 else 0))
    requires captured == count + (if Sample(before, after, mask) != before && moved then 1 else 0)
    ensures Sample(before, after, mask) == Pointer(n, captured)
    ensures count <= captured <= count + (if moved then 1 else 0)
  {
    hide *;
    SampledCount(n, count, count + (if moved then 1 else 0), mask);
  }

  /** The registers and counts after both edges at once. */
  lemma BothObserved<T>(h: History<T>, wen: bool, wdata: T, ren: bool, writeMask: seq<bool>, readMask: seq<bool>)
    requires Inv(h)
    ensures var s, h' := h.hw, Observe(h, BothEdges(wen, wdata, ren, writeMask, readMask));
            var write, read := AfterWrite(s.n, s.write, wen, s.write.sync1), AfterRead(s.n, s.ram, s.read, ren, s.read.sync1);
            var toWrite, toRead := Sample(s.read.pointer, read.pointer, readMask), Sample(s.write.pointer, write.pointer, writeMask);
            && WellFormed(s)
            && h'.hw.write == write.(sync1 := toWrite) && h'.hw.read == read.(sync1 := toRead)
            && h'.r1 == Fetched(h) + (if toWrite != s.read.pointer && FifoRead(s.read) then 1 else 0)
            && h'.w1 == Written(h) + (if toRead != s.write.pointer && WriteAccepted(s.write, wen) then 1 else 0)
            && h'.w1 <= |h'.accepted| == Written(h) + (if WriteAccepted(s.write, wen) then 1 else 0)
  {
    hide AfterWrite, AfterRead, AfterRamWrite, Gray, Pow2, Pointer, Sample, Wrap, RamInv;
  }

  /** The pointers of both sides after an edge, whatever they capture. */
  lemma SidePointers<T>(h: History<T>, wen: bool, wdata: T, ren: bool)
    requires Inv(h)
    ensures var n, w, r := h.hw.n, h.hw.write, h.hw.read;
            && AfterWrite(n, w, wen, w.sync1).pointer == Pointer(n, Written(h) + (if WriteAccepted(w, wen) then 1 else 0))
            && AfterRead(n, h.hw.ram, r, ren, r.sync1).pointer == Pointer(n, Fetched(h) + (if FifoRead(r) then 1 else 0))
            && w.pointer == Pointer(n, Written(h)) && r.pointer == Pointer(n, Fetched(h))
  {
    NextPointer(h.hw.n, Written(h), []);
    NextPointer(h.hw.n, Fetched(h), []);
    hide FullTest, Gray, Pow2, Sample, Next, Low, Wrap, RamInv;
  }

  lemma BothEdgesStep<T>(h: History<T>, wen: bool, wdata: T, ren: bool, writeMask: seq<bool>, readMask: seq<bool>)
    requires Inv(h)
    ensures Inv(Observe(h, BothEdges(wen, wdata, ren, writeMask, readMask)))
  {
    hide AfterWrite, AfterRead, AfterRamWrite, FullTest, Gray, Pow2, Pointer, Sample, Next, Low, Wrap;
    var e := BothEdges(wen, wdata, ren, writeMask, readMask);
    var h' := Observe(h, e);
    var r' := Fetched(h) + (if FifoRead(h.hw.read) then 1 else 0);
    WriteSideOfBoth(h, wen, wdata, ren, writeMask, readMask);
    ReadSideOfBoth(h, wen, wdata, ren, writeMask, readMask);
    BothObserved(h, wen, wdata, ren, writeMask, readMask);
    WriteHalf(h, wen, wdata, h'.r1);
    ReadHalf(h, ren, h'.w1);
    assert h'.accepted[..r'] == h.accepted[..r'];
  }

  lemma {:induction false} InvStep<T>(h: History<T>, e: Event<T>)
    requires Inv(h)
    ensures Inv(Observe(h, e))
  {
    match e {
      case WriteEdge(en, data) => WriteEdgeStep(h, en, data);
      case ReadEdge(en) => ReadEdgeStep(h, en);
      case BothEdges(wen, wdata, ren, writeMask, readMask) => BothEdgesStep(h, wen, wdata, ren, writeMask, readMask);
    }
  }

  lemma {:induction false} InvRun<T>(h: History<T>, events: seq<Event<T>>)
    requires Inv(h)
    ensures Inv(Run(h, events)) && Run(h, events).hw.n == h.hw.n
    decreases |events|
  {
    if events != [] {
      InvStep(h, events[0]);
      InvRun(Observe(h, events[0]), events[1..]);
    }
  }

  lemma InvStart<T>(n: nat, zero: T)
    requires n >= 2
    ensures Inv(Start(n, zero))
  {
  }

  // ---------------------------------------------------------------- main results

  /** No loss, duplication or reordering: in every interleaving of the two clocks, however the pointer bits resolve,
      the words taken are a prefix of the words accepted, and the rest are in the RAM or the fall-through stage. */
  lemma TakenIsPrefixOfAccepted<T>(n: nat, zero: T, events: seq<Event<T>>)
    requires n >= 2
    ensures var h := Run(Start(n, zero), events);
            && h.taken <= h.accepted
            && |h.accepted| <= |h.taken| + Pow2(n) + 3
  {
    InvStart(n, zero);
    InvRun(Start(n, zero), events);
    var h := Run(Start(n, zero), events);
    TakenIsPrefix(h);
  }

  /** Occupancy never leaves 0..2^n, synchronised pointers never run ahead of the real ones, a low full flag means a
      free slot, it is never high before a whole RAM has been written, a low empty flag means the addressed slot holds the
      next word, and the two ports never meet. */
  ghost predicate FlagsSafe<T>(h: History<T>)
    requires WellFormed(h.hw)
  {
    var w, r, n, s := Written(h), Fetched(h), h.hw.n, h.hw;
    && r <= w <= r + Pow2(n)
    && (exists rs: nat :: rs <= r && w <= rs + Pow2(n) && s.write.sync2 == Pointer(n, rs))
    && (exists ws: nat :: r <= ws <= w && s.read.sync2 == Pointer(n, ws))
    && (if s.write.full then w >= Pow2(n) else w < r + Pow2(n))
    && (!s.read.empty ==> r < w && s.ram[Low(s.read.addr, Pow2(n))] == h.accepted[r])
    && (!s.write.full && !s.read.empty ==> Low(s.write.addr, Pow2(n)) != Low(s.read.addr, Pow2(n)))
  }

  /** The flags are stale but safe, in every reachable state. */
  lemma FlagsAreSafe<T>(n: nat, zero: T, events: seq<Event<T>>)
    requires n >= 2
    ensures FlagsSafe(Run(Start(n, zero), events))
  {
    InvStart(n, zero);
    InvRun(Start(n, zero), events);
    InvMeansSafe(Run(Start(n, zero), events));
  }

  lemma InvMeansSafe<T>(h: History<T>)
    requires Inv(h)
    ensures FlagsSafe(h)
  {
    var w, r, n, s := Written(h), Fetched(h), h.hw.n, h.hw;
    assert s.write.sync2 == Pointer(n, h.r2);
    assert s.read.sync2 == Pointer(n, h.w2);
    RamReadAddress(n, r);
    RamReadAddress(n, w);
    if !s.write.full && !s.read.empty {
      WrapDistinct(r, w, Pow2(n));
    }
  }

  // ---------------------------------------------------------------- nothing gets stuck

  /** Read-clock edges of an event list that come with the read enable. */
  function Reads<T>(events: seq<Event<T>>): (k: nat)
    ensures k <= |events|
  {
    if events == [] then 0
    else Reads(events[1..]) + match events[0]
                              case WriteEdge(_, _) => 0
                              case ReadEdge(en) => if en then 1 else 0
                              case BothEdges(_, _, ren, _, _) => if ren then 1 else 0
  }

  /** Reading edges at which no word will be taken, at most, until the first t accepted words have been: while the pointer
      passes the synchroniser, while the empty flag follows it, and while the first word falls through. */
  function Bubbles<T>(r: ReadSide<T>, taken: nat, w1: nat, w2: nat, t: nat): nat {
    var behind := r.bufferValid || r.fifoValid;
    if w1 < t then 5
    else if w2 < t then 4
    else if taken + |Slots(r)| >= t then (if r.outputValid then 0 else 1)
    else (if r.empty then 1 else 0) + (if !r.outputValid && !behind then 2 else if !r.outputValid || !behind then 1 else 0)
  }

  /** Reading edges that are still needed, at most, until the first t accepted words have been taken. */
  function Work<T>(r: ReadSide<T>, taken: nat, w1: nat, w2: nat, t: nat): nat {
    if taken >= t then 0 else t - taken + Bubbles(r, taken, w1, w2, t)
  }

  function WorkLeft<T>(h: History<T>, t: nat): nat { Work(h.hw.read, |h.taken|, h.w1, h.w2, t) }

  /** A read edge never adds work, and with the read enable, or with no word shown, it removes some as long as one of the
      words is not taken. */
  lemma WorkStep<T>(n: nat, ram: seq<T>, r: ReadSide<T>, en: bool, sample: Vector, taken: nat, w0: nat, w1: nat, w2: nat, t: nat)
    requires |ram| == Pow2(n) && r.addr < Pow2(n + 1)
    requires var fetched := taken + |Slots(r)|;
             && fetched <= w2 <= w1 <= w0 && t <= w0 && (FifoRead(r) ==> fetched < w2)
             && (AfterRead(n, ram, r, en, sample).empty <==> fetched + (if FifoRead(r) then 1 else 0) == w2)
    ensures var taken' := taken + (if en && r.outputValid then 1 else 0);
            var work' := Work(AfterRead(n, ram, r, en, sample), taken', w0, w1, t);
            && work' <= Work(r, taken, w1, w2, t)
            && ((en || !r.outputValid) && taken < t ==> work' < Work(r, taken, w1, w2, t))
  {
    hide Pow2, Gray, Next, Low;
  }

  /** The read half of any edge, as far as the work is concerned. */
  lemma ReadWork<T>(h: History<T>, en: bool, w0: nat, t: nat)
    requires Inv(h) && h.w1 <= w0 && t <= w0
    ensures var r' := AfterRead(h.hw.n, h.hw.ram, h.hw.read, en, Pointer(h.hw.n, w0));
            var work' := Work(r', |h.taken| + (if en && h.hw.read.outputValid then 1 else 0), w0, h.w1, t);
            work' <= WorkLeft(h, t) && ((en || !h.hw.read.outputValid) && |h.taken| < t ==> work' < WorkLeft(h, t))
  {
    ReadHalf(h, en, w0);
    hide AfterRead, AfterWrite, Pointer, Pow2, Wrap, RamInv, Work;
    WorkStep(h.hw.n, h.hw.ram, h.hw.read, en, Pointer(h.hw.n, w0), |h.taken|, w0, h.w1, h.w2, t);
  }

  lemma WorkAtReadEdge<T>(h: History<T>, en: bool, t: nat)
    requires Inv(h) && t <= Written(h)
    ensures var h' := Observe(h, ReadEdge(en));
            && WorkLeft(h', t) <= WorkLeft(h, t)
            && ((en || !h.hw.read.outputValid) && |h.taken| < t ==> WorkLeft(h', t) < WorkLeft(h, t))
  {
    ReadWork(h, en, Written(h), t);
    hide AfterRead, Pointer, Pow2, Wrap, RamInv, Work, Inv;
  }

  lemma WorkAtBothEdges<T>(h: History<T>, wen: bool, wdata: T, ren: bool, writeMask: seq<bool>, readMask: seq<bool>, t: nat)
    requires Inv(h) && t <= Written(h)
    ensures var h' := Observe(h, BothEdges(wen, wdata, ren, writeMask, readMask));
            && WorkLeft(h', t) <= WorkLeft(h, t)
            && ((ren || !h.hw.read.outputValid) && |h.taken| < t ==> WorkLeft(h', t) < WorkLeft(h, t))
  {
    var h' := Observe(h, BothEdges(wen, wdata, ren, writeMask, readMask));
    ReadSideOfBoth(h, wen, wdata, ren, writeMask, readMask);
    ReadWork(h, ren, h'.w1, t);
    assert h'.w2 == h.w1 && |h'.taken| == |h.taken| + (if ren && h.hw.read.outputValid then 1 else 0);
    hide *;
    WorkLeftIs(h', t);
  }

  lemma WorkLeftIs<T>(h: History<T>, t: nat)
    ensures WorkLeft(h, t) == Work(h.hw.read, |h.taken|, h.w1, h.w2, t)
  {
  }

  /** No event adds work, and every reading one removes some. */
  lemma WorkDecreases<T>(h: History<T>, e: Event<T>, t: nat)
    requires Inv(h) && t <= Written(h)
    ensures var h' := Observe(h, e);
            && WorkLeft(h', t) <= WorkLeft(h, t)
            && (Reads([e]) == 1 && |h.taken| < t ==> WorkLeft(h', t) < WorkLeft(h, t))
            && (!e.WriteEdge? && !h.hw.read.outputValid && |h.taken| < t ==> WorkLeft(h', t) < WorkLeft(h, t))
  {
    assert [e][1..] == [];
    hide AfterRead, AfterWrite, AfterRamWrite, Work, Inv;
    match e {
      case WriteEdge(_, _) =>
      case ReadEdge(en) => WorkAtReadEdge(h, en, t);
      case BothEdges(wen, wdata, ren, writeMask, readMask) =>
        WorkAtBothEdges(h, wen, wdata, ren, writeMask, readMask, t);
    }
  }

  /** Enough reading edges, among any others, take the first t words. */
  lemma {:induction false} WorkDrains<T>(h: History<T>, events: seq<Event<T>>, t: nat)
    requires Inv(h) && t <= Written(h) && (|h.taken| >= t || WorkLeft(h, t) <= Reads(events))
    ensures |Run(h, events).taken| >= t
    decreases |events|
  {
    if events == [] {
      if |h.taken| < t {
        SomeWork(h, t);
      }
    } else {
      OneEvent(h, events);
      hide *;
      InvStep(h, events[0]);
      WorkDecreases(h, events[0], t);
      ReadsOne(events);
      WorkDrains(Observe(h, events[0]), events[1..], t);
    }
  }

  lemma OneEvent<T>(h: History<T>, events: seq<Event<T>>)
    requires Inv(h) && events != []
    ensures var h' := Observe(h, events[0]);
            Run(h, events) == Run(h', events[1..]) && Written(h) <= Written(h') && |h.taken| <= |h'.taken|
  {
    hide Step;
  }

  lemma SomeWork<T>(h: History<T>, t: nat)
    requires |h.taken| < t
    ensures WorkLeft(h, t) > 0
  {
  }

  lemma ReadsOne<T>(events: seq<Event<T>>)
    requires events != []
    ensures Reads(events) == Reads([events[0]]) + Reads(events[1..]) && Reads([events[0]]) <= 1
  {
    assert [events[0]][1..] == [];
  }

  lemma TakenIsPrefix<T>(h: History<T>)
    requires Inv(h)
    ensures |h.taken| <= |h.accepted| && h.taken == h.accepted[..|h.taken|]
  {
    assert h.taken == (h.taken + Slots(h.hw.read))[..|h.taken|];
    assert h.accepted[..Fetched(h)][..|h.taken|] == h.accepted[..|h.taken|];
  }

  /** Every accepted word comes out, one with every reading edge: from any reachable state, whatever else either clock does,
      once a reading edge for every word not yet taken and five more have occurred, all words accepted by now have been
      taken. */
  lemma ReaderDrainsEverything<T>(n: nat, zero: T, before: seq<Event<T>>, events: seq<Event<T>>)
    requires n >= 2
    requires var h := Run(Start(n, zero), before); Reads(events) >= |h.accepted| - |h.taken| + 5
    ensures var h := Run(Start(n, zero), before); h.accepted <= Run(h, events).taken
  {
    InvStart(n, zero);
    InvRun(Start(n, zero), before);
    var h := Run(Start(n, zero), before);
    TakenIsPrefix(h);
    WorkBound(h, Written(h));
    WorkDrains(h, events, Written(h));
    InvRun(h, events);
    TakenIsPrefix(Run(h, events));
    AcceptedGrows(h, events);
    hide Inv, Run, WorkLeft;
  }

  lemma WorkBound<T>(h: History<T>, t: nat)
    requires |h.taken| <= t
    ensures WorkLeft(h, t) <= t - |h.taken| + 5
  {
  }

  lemma {:induction false} AcceptedGrows<T>(h: History<T>, events: seq<Event<T>>)
    requires WellFormed(h.hw)
    ensures h.accepted <= Run(h, events).accepted
    decreases |events|
  {
    if events != [] {
      var h' := Observe(h, events[0]);
      assert h.accepted <= h'.accepted;
      hide Observe;
      AcceptedGrows(h', events[1..]);
    }
  }

  /** Edges of the read clock. */
  function ReadEdges<T>(events: seq<Event<T>>): nat {
    if events == [] then 0 else ReadEdges(events[1..]) + (if events[0].WriteEdge? then 0 else 1)
  }

  /** A word that is shown stays until it is taken. */
  lemma ShownStays<T>(h: History<T>, e: Event<T>)
    requires Inv(h) && Reads([e]) == 0
    ensures Observe(h, e).taken == h.taken
    ensures h.hw.read.outputValid ==> Observe(h, e).hw.read.outputValid
  {
    hide Gray, Pow2, Low, Next, Sample, AfterWrite, AfterRamWrite;
    assert [e][1..] == [];
  }

  lemma {:induction false} ShownRun<T>(h: History<T>, events: seq<Event<T>>, t: nat)
    requires Inv(h) && t <= Written(h) && |h.taken| < t && Reads(events) == 0
    requires h.hw.read.outputValid || WorkLeft(h, t) <= ReadEdges(events)
    ensures WellFormed(h.hw) && Run(h, events).hw.read.outputValid
    decreases |events|
  {
    hide Inv, Observe, WorkLeft, WellFormed;
    InvIsWellFormed(h);
    if events == [] {
      SomeWork(h, t);
    } else {
      ReadsOne(events);
      ShownStays(h, events[0]);
      WorkDecreases(h, events[0], t);
      InvStep(h, events[0]);
      OneEvent(h, events);
      ShownRun(Observe(h, events[0]), events[1..], t);
    }
  }

  /** The first word falls through: from any reachable state with a word accepted and not taken, six read edges without the
      read enable, among any write edges, show a word at the output. */
  lemma FirstWordFallsThrough<T>(n: nat, zero: T, before: seq<Event<T>>, events: seq<Event<T>>)
    requires n >= 2 && Reads(events) == 0 && ReadEdges(events) >= 6
    requires var h := Run(Start(n, zero), before); |h.taken| < |h.accepted|
    ensures Run(Run(Start(n, zero), before), events).hw.read.outputValid
  {
    hide Inv, Observe, WorkLeft;
    InvStart(n, zero);
    InvRun(Start(n, zero), before);
    var h := Run(Start(n, zero), before);
    WorkBound(h, |h.taken| + 1);
    ShownRun(h, events, |h.taken| + 1);
  }

  /** The write enable is low at every write-clock edge. */
  predicate NoWrites<T>(events: seq<Event<T>>) {
    forall i :: 0 <= i < |events| ==> match events[i]
                                      case WriteEdge(en, _) => !en
                                      case ReadEdge(_) => true
                                      case BothEdges(wen, _, _, _, _) => !wen
  }

  /** Edges of the write clock. */
  function WriteEdges<T>(events: seq<Event<T>>): nat {
    if events == [] then 0 else WriteEdges(events[1..]) + (if events[0].ReadEdge? then 0 else 1)
  }

  /** k write edges after a slot was free the write side has seen it: w words written, f fetched when it was free. */
  ghost predicate Seen<T>(h: History<T>, w: nat, f: nat, k: nat) {
    && Inv(h) && Written(h) == w < f + Pow2(h.hw.n) && f <= Fetched(h)
    && (k >= 1 ==> h.r1 >= f) && (k >= 2 ==> h.r2 >= f) && (k >= 3 ==> !h.hw.write.full)
  }

  lemma SeenAtWrite<T>(h: History<T>, en: bool, data: T, w: nat, f: nat, k: nat)
    requires Seen(h, w, f, k) && Accepts(h.hw, WriteEdge(en, data)) == []
    ensures Seen(Observe(h, WriteEdge(en, data)), w, f, k + 1)
  {
    hide AfterRead, AfterWrite, AfterRamWrite, Pointer, Pow2, Wrap, RamInv, Sample;
    InvStep(h, WriteEdge(en, data));
    WriteHalf(h, en, data, Fetched(h));
  }

  lemma SeenAtRead<T>(h: History<T>, en: bool, w: nat, f: nat, k: nat)
    requires Seen(h, w, f, k)
    ensures Seen(Observe(h, ReadEdge(en)), w, f, k)
  {
    hide AfterRead, AfterWrite, AfterRamWrite, Pointer, Pow2, Wrap, RamInv, Sample;
    InvStep(h, ReadEdge(en));
    ReadHalf(h, en, Written(h));
  }

  lemma SeenAtBoth<T>(h: History<T>, wen: bool, wdata: T, ren: bool, writeMask: seq<bool>, readMask: seq<bool>, w: nat, f: nat, k: nat)
    requires Seen(h, w, f, k) && Accepts(h.hw, BothEdges(wen, wdata, ren, writeMask, readMask)) == []
    ensures Seen(Observe(h, BothEdges(wen, wdata, ren, writeMask, readMask)), w, f, k + 1)
  {
    hide Inv, AfterRead, AfterWrite, AfterRamWrite, Pointer, Pow2, Sample;
    var e := BothEdges(wen, wdata, ren, writeMask, readMask);
    InvStep(h, e);
    InvIsWellFormed(h);
    WriteSideOfBoth(h, wen, wdata, ren, writeMask, readMask);
    ReadSideOfBoth(h, wen, wdata, ren, writeMask, readMask);
    OrderedCounts(h);
    WriteHalf(h, wen, wdata, Observe(h, e).r1);
    ReadHalf(h, ren, Observe(h, e).w1);
  }

  lemma OrderedCounts<T>(h: History<T>)
    requires Inv(h)
    ensures h.r2 <= h.r1 <= Fetched(h) && h.w2 <= h.w1 <= Written(h)
  {
  }

  lemma SeenStep<T>(h: History<T>, e: Event<T>, w: nat, f: nat, k: nat)
    requires Seen(h, w, f, k) && Accepts(h.hw, e) == []
    ensures Seen(Observe(h, e), w, f, if e.ReadEdge? then k else k + 1)
  {
    hide Seen, Observe, Accepts;
    match e {
      case WriteEdge(en, data) => SeenAtWrite(h, en, data, w, f, k);
      case ReadEdge(en) => SeenAtRead(h, en, w, f, k);
      case BothEdges(wen, wdata, ren, writeMask, readMask) =>
        SeenAtBoth(h, wen, wdata, ren, writeMask, readMask, w, f, k);
    }
  }

  lemma {:induction false} SeenRun<T>(h: History<T>, events: seq<Event<T>>, w: nat, f: nat, k: nat)
    requires Seen(h, w, f, k) && NoWrites(events) && k + WriteEdges(events) >= 3
    ensures !Run(h, events).hw.write.full
    decreases |events|
  {
    if events != [] {
      assert NoWrites(events[1..]);
      SeenStep(h, events[0], w, f, k);
      hide Seen, Observe, NoWrites;
      SeenRun(Observe(h, events[0]), events[1..], w, f, if events[0].ReadEdge? then k else k + 1);
    }
  }

  /** Freed space is seen: once three write edges without a write have occurred, among any read edges, the full flag of a
      FIFO with a free slot is low. */
  lemma FreeSlotIsSeen<T>(n: nat, zero: T, before: seq<Event<T>>, events: seq<Event<T>>)
    requires n >= 2 && NoWrites(events) && WriteEdges(events) >= 3
    requires var h := Run(Start(n, zero), before); Written(h) < Fetched(h) + Pow2(n)
    ensures !Run(Run(Start(n, zero), before), events).hw.write.full
  {
    InvStart(n, zero);
    InvRun(Start(n, zero), before);
    var h := Run(Start(n, zero), before);
    SeenRun(h, events, Written(h), Fetched(h), 0);
  }

  /** One edge of either clock, or one of each, as the environment chooses it; the write port is the writer's. */
  datatype Tick = WriteTick | ReadTick(en: bool) | BothTick(ren: bool, writeMask: seq<bool>, readMask: seq<bool>)

  /** A writer with words left holds the write enable and its next word, and goes on to the one after it when an edge
      finds the full flag low. */
  datatype Writer<T> = Writer(fifo: History<T>, left: seq<T>)

  function Driven<T>(w: Writer<T>, zero: T, t: Tick): Event<T> {
    var en, data := w.left != [], if w.left != [] then w.left[0] else zero;
    match t
    case WriteTick => WriteEdge(en, data)
    case ReadTick(ren) => ReadEdge(ren)
    case BothTick(ren, writeMask, readMask) => BothEdges(en, data, ren, writeMask, readMask)
  }

  ghost function WriterStep<T>(w: Writer<T>, zero: T, t: Tick): (w': Writer<T>)
    requires WellFormed(w.fifo.hw)
    ensures WellFormed(w'.fifo.hw)
  {
    Writer(Observe(w.fifo, Driven(w, zero, t)),
           if w.left != [] && !t.ReadTick? && !w.fifo.hw.write.full then w.left[1..] else w.left)
  }

  ghost function WriterRun<T>(w: Writer<T>, zero: T, ticks: seq<Tick>): (w': Writer<T>)
    requires WellFormed(w.fifo.hw)
    ensures WellFormed(w'.fifo.hw)
    decreases |ticks|
  {
    if ticks == [] then w else WriterRun(WriterStep(w, zero, ticks[0]), zero, ticks[1..])
  }

  function ReadTicks(ticks: seq<Tick>): nat {
    if ticks == [] then 0
    else ReadTicks(ticks[1..]) + match ticks[0]
                                 case WriteTick => 0
                                 case ReadTick(en) => if en then 1 else 0
                                 case BothTick(ren, _, _) => if ren then 1 else 0
  }

  function WriteTicks(ticks: seq<Tick>): nat {
    if ticks == [] then 0 else WriteTicks(ticks[1..]) + (if ticks[0].ReadTick? then 0 else 1)
  }

  /** Among any other edges, nine edges with the read enable and then four edges of the write clock. */
  ghost predicate Round(ticks: seq<Tick>) {
    exists k :: 0 <= k <= |ticks| && ReadTicks(ticks[..k]) >= 9 && WriteTicks(ticks[k..]) >= 4
  }

  /** What the writer has left and what was accepted make up the same words all along. */
  lemma WriterStepKeeps<T>(w: Writer<T>, zero: T, t: Tick)
    requires Inv(w.fifo)
    ensures var w' := WriterStep(w, zero, t);
            && Inv(w'.fifo) && w'.fifo.hw.n == w.fifo.hw.n
            && w'.fifo.accepted + w'.left == w.fifo.accepted + w.left
            && |w'.left| <= |w.left| && |w.fifo.taken| <= |w'.fifo.taken|
  {
    hide Inv, Step;
    InvIsWellFormed(w.fifo);
    InvStep(w.fifo, Driven(w, zero, t));
  }

  lemma InvIsWellFormed<T>(h: History<T>)
    requires Inv(h)
    ensures WellFormed(h.hw)
  {
  }

  lemma {:induction false} WriterRunKeeps<T>(w: Writer<T>, zero: T, ticks: seq<Tick>)
    requires Inv(w.fifo)
    ensures WellFormed(w.fifo.hw)
    ensures var w' := WriterRun(w, zero, ticks);
            && Inv(w'.fifo) && w'.fifo.hw.n == w.fifo.hw.n
            && w'.fifo.accepted + w'.left == w.fifo.accepted + w.left
            && |w'.left| <= |w.left| && |w.fifo.taken| <= |w'.fifo.taken|
    decreases |ticks|
  {
    hide Inv, WriterStep;
    InvIsWellFormed(w.fifo);
    if ticks != [] {
      WriterStepKeeps(w, zero, ticks[0]);
      WriterRunKeeps(WriterStep(w, zero, ticks[0]), zero, ticks[1..]);
    }
  }

  lemma {:induction false} WriterRunAppend<T>(w: Writer<T>, zero: T, a: seq<Tick>, b: seq<Tick>)
    requires WellFormed(w.fifo.hw)
    ensures WriterRun(w, zero, a + b) == WriterRun(WriterRun(w, zero, a), zero, b)
    decreases |a|
  {
    hide WriterStep, WellFormed;
    if a == [] {
      assert a + b == b;
    } else {
      assert (a + b)[1..] == a[1..] + b;
      WriterRunAppend(WriterStep(w, zero, a[0]), zero, a[1..], b);
    }
  }

  /** Reading edges take the first t words beside the writer. */
  lemma {:induction false} WriterDrains<T>(w: Writer<T>, zero: T, ticks: seq<Tick>, t: nat)
    requires Inv(w.fifo) && t <= Written(w.fifo) && (|w.fifo.taken| >= t || WorkLeft(w.fifo, t) <= ReadTicks(ticks))
    ensures WellFormed(w.fifo.hw) && |WriterRun(w, zero, ticks).fifo.taken| >= t
    decreases |ticks|
  {
    hide Inv, Observe, WorkLeft, WellFormed;
    InvIsWellFormed(w.fifo);
    if ticks == [] {
      if |w.fifo.taken| < t {
        SomeWork(w.fifo, t);
      }
    } else {
      var e := Driven(w, zero, ticks[0]);
      WorkDecreases(w.fifo, e, t);
      WriterStepKeeps(w, zero, ticks[0]);
      assert [e][1..] == [];
      WriterDrains(WriterStep(w, zero, ticks[0]), zero, ticks[1..], t);
    }
  }

  /** With a free slot, four write edges get a word accepted. */
  lemma {:induction false} WriterGetsOne<T>(w: Writer<T>, zero: T, ticks: seq<Tick>, f: nat, k: nat)
    requires Seen(w.fifo, Written(w.fifo), f, k) && w.left != [] && k + WriteTicks(ticks) >= 4 && k <= 3
    ensures WellFormed(w.fifo.hw) && |WriterRun(w, zero, ticks).left| < |w.left|
    decreases |ticks|
  {
    hide Inv, Observe, WellFormed;
    InvIsWellFormed(w.fifo);
    assert ticks != [];
    var w' := WriterStep(w, zero, ticks[0]);
    WriterStepKeeps(w, zero, ticks[0]);
    if |w'.left| < |w.left| {
      WriterRunKeeps(w', zero, ticks[1..]);
    } else {
      SeenStep(w.fifo, Driven(w, zero, ticks[0]), Written(w.fifo), f, k);
      WriterGetsOne(w', zero, ticks[1..], f, if ticks[0].ReadTick? then k else k + 1);
    }
  }

  /** A round gets at least one word accepted. */
  lemma RoundGetsOne<T>(w: Writer<T>, zero: T, ticks: seq<Tick>)
    requires Inv(w.fifo) && w.left != [] && Round(ticks)
    ensures WellFormed(w.fifo.hw) && |WriterRun(w, zero, ticks).left| < |w.left|
  {
    hide Inv, Observe, WorkLeft, WellFormed, WriterRun, ReadTicks, WriteTicks;
    InvIsWellFormed(w.fifo);
    var k :| 0 <= k <= |ticks| && ReadTicks(ticks[..k]) >= 9 && WriteTicks(ticks[k..]) >= 4;
    var w1 := WriterRun(w, zero, ticks[..k]);
    WriterRunKeeps(w, zero, ticks[..k]);
    WriterRunKeeps(w1, zero, ticks[k..]);
    WriterRunAppend(w, zero, ticks[..k], ticks[k..]);
    assert ticks[..k] + ticks[k..] == ticks;
    if |w1.left| == |w.left| {
      assert Written(w1.fifo) == Written(w.fifo) by {
        assert |w1.fifo.accepted + w1.left| == |w.fifo.accepted + w.left|;
      }
      var t := |w.fifo.taken| + 4;
      FillBounds(w.fifo);
      if t <= Written(w.fifo) {
        WorkBound(w.fifo, t);
        WriterDrains(w, zero, ticks[..k], t);
      }
      SeenNothingYet(w1.fifo);
      WriterGetsOne(w1, zero, ticks[k..], Fetched(w1.fifo), 0);
    }
  }

  lemma FillBounds<T>(h: History<T>)
    requires Inv(h)
    ensures Written(h) <= |h.taken| + 3 + Pow2(h.hw.n)
    ensures Pow2(h.hw.n) >= 4
  {
    assert Pow2(h.hw.n) == 4 * Pow2(h.hw.n - 2);
  }

  lemma SeenNothingYet<T>(h: History<T>)
    requires Inv(h) && Written(h) < |h.taken| + Pow2(h.hw.n)
    ensures Seen(h, Written(h), Fetched(h), 0)
  {
  }

  lemma {:induction false} RoundsGetAll<T>(w: Writer<T>, zero: T, rounds: seq<seq<Tick>>)
    requires Inv(w.fifo) && |rounds| >= |w.left| && forall i :: 0 <= i < |rounds| ==> Round(rounds[i])
    ensures WellFormed(w.fifo.hw)
    ensures var w' := WriterRun(w, zero, Flatten(rounds)); w'.left == [] && w'.fifo.accepted == w.fifo.accepted + w.left
    decreases |rounds|
  {
    hide Inv, WellFormed, Round, WriterRun;
    InvIsWellFormed(w.fifo);
    WriterRunKeeps(w, zero, Flatten(rounds));
    var w' := WriterRun(w, zero, Flatten(rounds));
    if w.left != [] {
      var w1 := WriterRun(w, zero, rounds[0]);
      WriterRunKeeps(w, zero, rounds[0]);
      RoundGetsOne(w, zero, rounds[0]);
      WriterRunAppend(w, zero, rounds[0], Flatten(rounds[1..]));
      RoundsGetAll(w1, zero, rounds[1..]);
    }
    assert w'.left == [];
    assert w'.fifo.accepted + [] == w'.fifo.accepted;
  }

  /** The writer gets through: from any reachable state a writer that holds the enable gets every word of any list
      accepted, in order and with nothing in between, as soon as there were as many rounds of reading and writing edges as
      it has words. */
  lemma WriterGetsEveryWord<T>(n: nat, zero: T, before: seq<Event<T>>, words: seq<T>, rounds: seq<seq<Tick>>)
    requires n >= 2 && |rounds| >= |words| && forall i :: 0 <= i < |rounds| ==> Round(rounds[i])
    ensures var h := Run(Start(n, zero), before);
            WriterRun(Writer(h, words), zero, Flatten(rounds)).fifo.accepted == h.accepted + words
  {
    hide Inv, Round, WriterRun;
    InvStart(n, zero);
    InvRun(Start(n, zero), before);
    RoundsGetAll(Writer(Run(Start(n, zero), before), words), zero, rounds);
  }

  // ---------------------------------------------------------------- the clocked entity

  /** Two-flop synchroniser of a Gray pointer. */
  class PointerSync {
    var q1: Vector
    var q2: Vector

    constructor (zero: Vector)
      ensures q1 == q2 == zero
    {
      q1, q2 := zero, zero;
    }

    method Clock(din: Vector)
      modifies this
      ensures q1 == din && q2 == old(q1)
    {
      q1, q2 := din, q1;
    }
  }

  /** The slots in front of the RAM's output register. */
  class FallThrough<T> {
    var fifoValid: bool
    var buffer: T
    var bufferValid: bool
    var output: T
    var outputValid: bool

    constructor (zero: T)
      ensures !fifoValid && !bufferValid && !outputValid && buffer == output == zero
    {
      fifoValid, buffer, bufferValid, output, outputValid := false, zero, false, zero, false;
    }

    method Clock(en: bool, fetch: bool, fifoQ: T)
      modifies this
      ensures var toOutput := (old(bufferValid) || old(fifoValid)) && (en || !old(outputValid));
              var toBuffer := old(fifoValid) && old(bufferValid) == toOutput;
              && fifoValid == (fetch || (old(fifoValid) && !toBuffer && !toOutput))
              && bufferValid == (toBuffer || (old(bufferValid) && !toOutput))
              && outputValid == (toOutput || (old(outputValid) && !en))
              && buffer == (if toBuffer then fifoQ else old(buffer))
              && output == (if !toOutput then old(output) else if old(bufferValid) then old(buffer) else fifoQ)
    {
      var toOutput := (bufferValid || fifoValid) && (en || !outputValid);
      var toBuffer := fifoValid && bufferValid == toOutput;
      if toOutput {
        output := if bufferValid then buffer else fifoQ;
        outputValid := true;
      } else if en {
        outputValid := false;
      }
      if toBuffer {
        buffer := fifoQ;
        bufferValid := true;
      } else if toOutput {
        bufferValid := false;
      }
      if fetch {
        fifoValid := true;
      } else if toBuffer || toOutput {
        fifoValid := false;
      }
    }
  }

  class Fifo<T> {
    const n: nat
    const ram: array<T>
    const fwft: FallThrough<T>
    const readSync: PointerSync   // the read pointer, in the write clock domain
    const writeSync: PointerSync  // the write pointer, in the read clock domain
    var writeAddr: nat
    var writePointer: Vector
    var full: bool
    var readAddr: nat
    var readPointer: Vector
    var empty: bool
    var fifoQ: T

    function Registers(): Regs<T>
      reads this, ram, fwft, readSync, writeSync
    {
      Regs(n, WriteSide(writeAddr, writePointer, full, readSync.q1, readSync.q2),
           ReadSide(readAddr, readPointer, empty, writeSync.q1, writeSync.q2,
                    fifoQ, fwft.fifoValid, fwft.buffer, fwft.bufferValid, fwft.output, fwft.outputValid),
           ram[..])
    }

    ghost predicate Valid()
      reads this, ram, fwft, readSync, writeSync
    {
      WellFormed(Registers()) && readSync != writeSync
    }

    constructor (n: nat, zero: T)
      requires n >= 2
      ensures Valid() && fresh(ram) && fresh(fwft) && fresh(readSync) && fresh(writeSync)
      ensures Registers() == Initial(n, zero)
    {
      var p := Gray(0, n + 1);
      this.n := n;
      ram := new T[Pow2(n)](_ => zero);
      readSync := new PointerSync(p);
      writeSync := new PointerSync(p);
      writeAddr, writePointer, full := 0, p, false;
      readAddr, readPointer, empty := 0, p, true;
      fifoQ := zero;
      fwft := new FallThrough(zero);
      new;
      assert ram[..] == Initial(n, zero).ram;
    }

    /** Everything that the write clock drives; captured is what the pointer synchroniser samples. */
    method WriteProcess(en: bool, data: T, captured: Vector)
      requires Valid() && |captured| == n + 1
      modifies this`writeAddr, this`writePointer, this`full, ram, readSync
      ensures Valid()
      ensures var s := old(Registers());
              Registers() == s.(write := AfterWrite(n, s.write, en, captured), ram := AfterRamWrite(n, s.ram, s.write, en, data))
    {
      var next := writeAddr;
      if en && !full {
        ram[Low(writeAddr, ram.Length)] := data;
        next := Next(writeAddr, 2 * ram.Length);
      }
      writeAddr := next;
      writePointer := Gray(next, n + 1);
      full := FullTest(writePointer, readSync.q2);
      readSync.Clock(captured);
    }

    /** Everything that the read clock drives. */
    method ReadProcess(en: bool, captured: Vector)
      requires Valid() && |captured| == n + 1
      modifies this`readAddr, this`readPointer, this`empty, this`fifoQ, fwft, writeSync
      ensures Valid()
      ensures var s := old(Registers()); Registers() == s.(read := AfterRead(n, s.ram, s.read, en, captured))
    {
      assert 2 * ram.Length == Pow2(n + 1);
      hide Pow2, Gray;
      var fetch := !empty && !(fwft.fifoValid && fwft.bufferValid && fwft.outputValid);
      fwft.Clock(en, fetch, fifoQ);
      if fetch {
        fifoQ := ram[Low(readAddr, ram.Length)];
        readAddr := Next(readAddr, 2 * ram.Length);
      }
      readPointer := Gray(readAddr, n + 1);
      empty := readPointer == writeSync.q2;
      writeSync.Clock(captured);
    }

    method ClockWrite(en: bool, data: T)
      requires Valid()
      modifies this`writeAddr, this`writePointer, this`full, ram, readSync
      ensures Valid() && Registers() == Step(old(Registers()), WriteEdge(en, data))
    {
      WriteProcess(en, data, readPointer);
    }

    method ClockRead(en: bool)
      requires Valid()
      modifies this`readAddr, this`readPointer, this`empty, this`fifoQ, fwft, writeSync
      ensures Valid() && Registers() == Step(old(Registers()), ReadEdge(en))
    {
      ReadProcess(en, writePointer);
    }

    /** Both clocks rise together; each synchroniser may catch any mixture of old and new pointer bits. */
    method ClockBoth(wen: bool, wdata: T, ren: bool, writeMask: seq<bool>, readMask: seq<bool>)
      requires Valid()
      modifies this, ram, fwft, readSync, writeSync
      ensures Valid() && Registers() == Step(old(Registers()), BothEdges(wen, wdata, ren, writeMask, readMask))
    {
      ghost var s := Registers();
      var writeBefore, readBefore := writePointer, readPointer;
      ReadProcess(ren, writePointer);
      var toWrite := Sample(readBefore, readPointer, readMask);
      WriteProcess(wen, wdata, toWrite);
      writeSync.q1 := Sample(writeBefore, writePointer, writeMask);
      SampleReachesOneFlop(s, wen, ren, s.write.sync1, toWrite, s.read.sync1, s.write.pointer);
    }
  }
}
