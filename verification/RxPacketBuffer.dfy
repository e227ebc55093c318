/** Receive packet buffer: words are written as they arrive, and a packet that ends bad is taken back. */
module RxPacketBuffer {
  import opened BitVectors
  import opened EndMarks
  import opened Wrapping

  /** 2^n rows; the pointers carry one bit more, the two counters wrap at 2^n. */
  datatype Regs<T> = Regs(
    n: nat, ram: seq<Word<T>>, readPointer: nat, writePointer: nat, lengthCounter: nat,
    dout: Word<T>, outValid: bool, goodPackets: nat)

  /** What arrives in one cycle; bad is the tuser flag, read only on a last word. */
  datatype Input<T> = Idle | Arrive(word: Word<T>, bad: bool)

  function Rows<T>(s: Regs<T>): nat { Pow2(s.n) }

  predicate WellFormed<T>(s: Regs<T>) {
    && |s.ram| == Rows(s) && s.readPointer < 2 * Rows(s) && s.writePointer < 2 * Rows(s)
    && s.lengthCounter < Rows(s) && s.goodPackets < Rows(s)
  }

  function Initial<T>(n: nat, zero: Word<T>): (s: Regs<T>)
    ensures WellFormed(s)
  {
    Regs(n, seq(Pow2(n), _ => zero), 0, 0, 0, zero, false, 0)
  }

  predicate Empty<T>(s: Regs<T>) { s.writePointer == s.readPointer }

  predicate Full<T>(s: Regs<T>) {
    Low(s.readPointer, Rows(s)) == Low(s.writePointer, Rows(s)) && s.readPointer != s.writePointer
  }

  predicate PacketGood<T>(i: Input<T>) { i.Arrive? && i.word.last && !i.bad }

  predicate FwftRead<T>(s: Regs<T>, i: Input<T>) { s.goodPackets != 0 || PacketGood(i) }

  predicate Written<T>(s: Regs<T>, i: Input<T>) { i.Arrive? && !Full(s) }

  predicate LastOut<T>(s: Regs<T>) { s.dout.last && s.outValid }

  /** write_pointer - packet_length_counter, modulo the pointer range. */
  function WoundBack<T>(s: Regs<T>): nat
    requires WellFormed(s)
  {
    if s.writePointer >= s.lengthCounter then s.writePointer - s.lengthCounter
    else s.writePointer + 2 * Rows(s) - s.lengthCounter
  }

  function Step<T>(s: Regs<T>, i: Input<T>): (s': Regs<T>)
    requires WellFormed(s)
    ensures WellFormed(s') && s'.n == s.n
  {
    var rows, write, fetch := Rows(s), Written(s, i), FwftRead(s, i);
    Regs(s.n,
         if write then s.ram[Low(s.writePointer, rows) := i.word] else s.ram,
         if fetch && !Empty(s) then Next(s.readPointer, 2 * rows) else s.readPointer,
         if !write then s.writePointer
         else if i.word.last && i.bad then WoundBack(s)
         else Next(s.writePointer, 2 * rows),
         if !write then s.lengthCounter else if i.word.last then 0 else Next(s.lengthCounter, rows),
         if fetch then s.ram[Low(s.readPointer, rows)] else s.dout,
         if fetch then !Empty(s) else s.outValid,
         if PacketGood(i) && !LastOut(s) then Next(s.goodPackets, rows)
         else if !PacketGood(i) && LastOut(s) then (if s.goodPackets == 0 then rows - 1 else s.goodPackets - 1)
         else s.goodPackets)
  }

  /** m_axis: the word presented in this cycle; there is no backpressure. */
  function Presents<T>(s: Regs<T>, i: Input<T>): seq<Word<T>> {
    if FwftRead(s, i) && s.outValid then [s.dout] else []
  }

  /** The registers with the good packets received so far, the words of the packet being received and the words
      presented. */
  datatype History<T> = History(hw: Regs<T>, good: seq<Word<T>>, current: seq<Word<T>>, delivered: seq<Word<T>>)

  function Observe<T>(h: History<T>, i: Input<T>): (h': History<T>)
    requires WellFormed(h.hw)
    ensures WellFormed(h'.hw)
  {
    var done := i.Arrive? && i.word.last;
    History(Step(h.hw, i),
            if PacketGood(i) then h.good + h.current + [i.word] else h.good,
            if done then [] else if i.Arrive? then h.current + [i.word] else h.current,
            h.delivered + Presents(h.hw, i))
  }

  function Stream<T>(h: History<T>): seq<Word<T>> { h.good + h.current }

  /** Words fetched from the RAM. */
  function Fetched<T>(h: History<T>): nat { |h.delivered| + (if h.hw.outValid then 1 else 0) }

  ghost predicate RamHolds<T>(ram: seq<Word<T>>, rows: nat, stream: seq<Word<T>>, from: nat)
  {
    rows > 0 && |ram| == rows && forall k :: from <= k < |stream| ==> ram[Wrap(k, rows)] == stream[k]
  }

  /** The pointers and the length counter stand for unbounded counts, at most one RAM apart. */
  ghost predicate Pointers<T>(h: History<T>) {
    var s, w, r, rows := h.hw, |h.good| + |h.current|, Fetched(h), Rows(h.hw);
    && WellFormed(s)
    && r <= w <= r + rows
    && s.writePointer == Wrap(w, 2 * rows) && s.readPointer == Wrap(r, 2 * rows)
    && s.lengthCounter == Wrap(|h.current|, rows)
  }

  /** The RAM holds the words still to be fetched; those fetched were presented or are in the output register. */
  ghost predicate Contents<T>(h: History<T>) {
    && RamHolds(h.hw.ram, Rows(h.hw), Stream(h), Fetched(h))
    && Fetched(h) <= |Stream(h)|
    && h.delivered + (if h.hw.outValid then [h.hw.dout] else []) == Stream(h)[..Fetched(h)]
  }

  /** good_packets_remaining counts the end-of-packet words of good packets that were not yet presented, and the read
      side is at most one word ahead of the good packets. */
  ghost predicate Counts<T>(h: History<T>) {
    && |h.delivered| <= |h.good| && Fetched(h) <= |h.good| + 1
    && Lasts(h.current) == 0 && (h.good != [] ==> h.good[|h.good| - 1].last)
    && h.hw.goodPackets == Lasts(h.good[|h.delivered|..])
  }

  ghost predicate Inv<T>(h: History<T>) { Pointers(h) && Contents(h) && Counts(h) }

  /** What the environment has to respect in a cycle: no overflow, and fewer than 2^n packets pending. */
  predicate Admissible<T>(s: Regs<T>, i: Input<T>) {
    && (i.Arrive? ==> !Full(s))
    && (PacketGood(i) && !LastOut(s) ==> s.goodPackets + 1 < Rows(s))
  }

  /** Words fetched from the RAM once this cycle is over. */
  function FetchedAfter<T>(h: History<T>, i: Input<T>): nat {
    Fetched(h) + (if FwftRead(h.hw, i) && !Empty(h.hw) then 1 else 0)
  }

  predicate EndsBad<T>(i: Input<T>) { i.Arrive? && i.word.last && i.bad }

  /** The read side has not fetched a word of the packet that now ends bad. */
  predicate NothingPrefetched<T>(h: History<T>, i: Input<T>) {
    EndsBad(i) ==> FetchedAfter(h, i) <= |h.good|
  }

  // ---------------------------------------------------------------- one cycle

  /** The pointer comparisons decide empty and full exactly. */
  lemma PointerTests<T>(s: Regs<T>, w: nat, r: nat)
    requires r <= w <= r + Rows(s)
    requires s.writePointer == Wrap(w, 2 * Rows(s)) && s.readPointer == Wrap(r, 2 * Rows(s))
    ensures Empty(s) <==> w == r
    ensures Full(s) <==> w == r + Rows(s)
  {
    var rows := Rows(s);
    WrapLow(w, rows);
    WrapLow(r, rows);
    WrapAdvance(r, w - r, rows);
    WrapAdvance(r, w - r, 2 * rows);
  }

  /** The word that a fetch loads is the next one of the stream. */
  lemma FetchedWord<T>(h: History<T>)
    requires Inv(h) && !Empty(h.hw)
    ensures Fetched(h) < |Stream(h)| && h.hw.ram[Low(h.hw.readPointer, Rows(h.hw))] == Stream(h)[Fetched(h)]
  {
    hide Lasts;
    PointerTests(h.hw, |Stream(h)|, Fetched(h));
    WrapLow(Fetched(h), Rows(h.hw));
  }

  /** A fetch presents the output register and loads the next word, or nothing when there is none. */
  lemma Fetch<T>(delivered: seq<T>, out: seq<T>, fetch: bool, empty: bool, next: T, stream: seq<T>, r: nat)
    requires r <= |stream| && delivered + out == stream[..r] && (!empty ==> r < |stream| && next == stream[r])
    ensures fetch && !empty ==> (delivered + out) + [next] == stream[..r + 1]
    ensures fetch && empty ==> (delivered + out) + [] == stream[..r]
    ensures !fetch ==> (delivered + []) + out == stream[..r]
  {
    assert !fetch ==> delivered + [] == delivered;
  }

  /** What a cycle does on the read side. */
  lemma ReadObserved<T>(h: History<T>, i: Input<T>)
    requires WellFormed(h.hw)
    ensures var s, h' := h.hw, Observe(h, i);
            && Low(s.readPointer, Rows(s)) < |s.ram|
            && h'.delivered == h.delivered + Presents(s, i)
            && h'.hw.readPointer == (if FwftRead(s, i) && !Empty(s) then Next(s.readPointer, 2 * Rows(s)) else s.readPointer)
            && h'.hw.outValid == (if FwftRead(s, i) then !Empty(s) else s.outValid)
            && h'.hw.dout == (if FwftRead(s, i) then s.ram[Low(s.readPointer, Rows(s))] else s.dout)
  {
    hide WoundBack, Full, Pow2;
  }

  /** Fetching takes the next word of the stream, and what is presented followed by the output register is what was
      fetched. */
  lemma ReadPart<T>(h: History<T>, i: Input<T>)
    requires Inv(h)
    ensures var h' := Observe(h, i);
            && Fetched(h') == FetchedAfter(h, i) <= |Stream(h)|
            && h'.hw.readPointer == Wrap(Fetched(h'), 2 * Rows(h.hw))
            && h'.delivered + (if h'.hw.outValid then [h'.hw.dout] else []) == Stream(h)[..Fetched(h')]
  {
    assert WellFormed(h.hw);
    ReadObserved(h, i);
    if !Empty(h.hw) {
      FetchedWord(h);
    }
    var s, r := h.hw, Fetched(h);
    WrapNext(r, 2 * Rows(s));
    var out := if s.outValid then [s.dout] else [];
    assert r <= |Stream(h)| && h.delivered + out == Stream(h)[..r];
    assert s.readPointer == Wrap(r, 2 * Rows(s));
    hide Wrap, Lasts, RamHolds, Pow2, Empty, Low, Next, Counts, Step, Observe, WellFormed, PacketGood, Stream, Contents, Pointers, Inv;
    Fetch(h.delivered, out, FwftRead(s, i), Empty(s), s.ram[Low(s.readPointer, Rows(s))], Stream(h), r);
  }

  lemma RamWrite<T>(ram: seq<Word<T>>, rows: nat, stream: seq<Word<T>>, from: nat, word: Word<T>)
    requires RamHolds(ram, rows, stream, from) && from <= |stream| < from + rows
    ensures RamHolds(ram[Wrap(|stream|, rows) := word], rows, stream + [word], from)
  {
    forall k | from <= k < |stream|
      ensures Wrap(k, rows) != Wrap(|stream|, rows)
    {
      WrapDistinct(k, |stream|, rows);
    }
  }

  /** The word in the output register is the next one of the stream to be presented; if it ends a packet, that packet
      is counted. */
  lemma OutputWord<T>(h: History<T>)
    requires Inv(h) && h.hw.outValid
    ensures |h.delivered| < |Stream(h)| && h.hw.dout == Stream(h)[|h.delivered|]
    ensures h.hw.dout.last ==> |h.delivered| < |h.good| && h.hw.goodPackets > 0
  {
    var d := |h.delivered|;
    assert Stream(h)[..Fetched(h)][d] == h.hw.dout;
    if h.hw.dout.last {
      if d >= |h.good| {
        assert h.current[d - |h.good|] == h.hw.dout;
        LastsBound(h.current, d - |h.good|);
      } else {
        assert h.good[d..][0] == h.hw.dout;
        LastsBound(h.good[d..], 0);
      }
    }
  }

  /** Presenting d' - d words of what is pending, then adding the words of a packet that ends well. */
  lemma CountPending<T>(good: seq<Word<T>>, added: seq<Word<T>>, d: nat, shown: seq<Word<T>>)
    requires d <= |good| && d + |shown| <= |good + added| && (good + added)[d..d + |shown|] == shown
    ensures Lasts((good + added)[d + |shown|..]) == Lasts(good[d..]) + Lasts(added) - Lasts(shown)
  {
    var all := good + added;
    assert all[d..] == good[d..] + added;
    LastsAppend(good[d..], added);
    LastsSplit(all[d..], |shown|);
    assert all[d..][..|shown|] == shown;
    assert all[d..][|shown|..] == all[d + |shown|..];
  }

  /** A good packet adds one end-of-packet word. */
  lemma CountAdded<T>(h: History<T>, i: Input<T>)
    requires Inv(h)
    ensures var added := if PacketGood(i) then h.current + [i.word] else [];
            Observe(h, i).good == h.good + added && Lasts(added) == if PacketGood(i) then 1 else 0
  {
    hide Step, Pointers, Contents, Wrap;
    if PacketGood(i) {
      LastsAppend(h.current, [i.word]);
      LastsOfOne(i.word);
    }
  }

  /** What is presented is the next word of the good packets, including one that ends in this cycle. */
  lemma ShownIsGood<T>(h: History<T>, i: Input<T>)
    requires Inv(h)
    ensures var good', shown, d := Observe(h, i).good, Presents(h.hw, i), |h.delivered|;
            && d + |shown| <= |good'| && good'[d..d + |shown|] == shown
            && Lasts(shown) == if LastOut(h.hw) then 1 else 0
  {
    hide Inv, Observe, Stream, Step, Lasts, WellFormed;
    InvBounds(h);
    var d, good' := |h.delivered|, Observe(h, i).good;
    NotPresented(h, i);
    CountAdded(h, i);
    LastsOfNone<T>();
    if FwftRead(h.hw, i) && h.hw.outValid {
      OutputWord(h);
      LastsOfOne(h.hw.dout);
      GoodAt(h, i, d);
      assert good'[d..d + 1] == [good'[d]];
    }
  }

  /** Words of the stream stay where they are when their packet turns out good. */
  lemma GoodAt<T>(h: History<T>, i: Input<T>, d: nat)
    requires WellFormed(h.hw) && d < |Stream(h)| && (PacketGood(i) || d < |h.good|)
    ensures d < |Observe(h, i).good| && Observe(h, i).good[d] == Stream(h)[d]
  {
    hide Step;
    if PacketGood(i) {
      assert Observe(h, i).good == Stream(h) + [i.word];
    }
  }

  /** The output register of a good packet is always presented; a prefetched word waits for the end of its packet. */
  lemma NotPresented<T>(h: History<T>, i: Input<T>)
    requires Inv(h)
    ensures !FwftRead(h.hw, i) ==> !LastOut(h.hw)
    ensures |h.delivered| == |h.good| && !PacketGood(i) ==> !FwftRead(h.hw, i)
  {
    if LastOut(h.hw) {
      OutputWord(h);
    }
    if |h.delivered| == |h.good| {
      assert h.good[|h.delivered|..] == [];
    }
    hide Pointers, Contents, Stream;
  }

  /** The counter follows the end-of-packet words that are stored and not yet presented. */
  lemma CountPart<T>(h: History<T>, i: Input<T>)
    requires Inv(h) && Admissible(h.hw, i)
    ensures var h' := Observe(h, i);
            |h'.delivered| <= |h'.good| && h'.hw.goodPackets == Lasts(h'.good[|h'.delivered|..])
  {
    hide Inv, Observe, Step, Lasts, Admissible;
    CountFacts(h, i);
    CountAdded(h, i);
    ShownIsGood(h, i);
    CounterStep(h, i);
    var added := if PacketGood(i) then h.current + [i.word] else [];
    CountPending(h.good, added, |h.delivered|, Presents(h.hw, i));
    assert Observe(h, i).good == h.good + added;
  }

  lemma CountFacts<T>(h: History<T>, i: Input<T>)
    requires Inv(h)
    ensures WellFormed(h.hw) && |Observe(h, i).delivered| == |h.delivered| + |Presents(h.hw, i)|
    ensures |h.delivered| <= |h.good| && h.hw.goodPackets == Lasts(h.good[|h.delivered|..])
  {
    hide Step, Contents, Lasts, Wrap;
  }

  /** The counter goes up with a good packet and down with a last word, and does not wrap. */
  lemma CounterStep<T>(h: History<T>, i: Input<T>)
    requires Inv(h) && Admissible(h.hw, i)
    ensures Observe(h, i).hw.goodPackets
            == h.hw.goodPackets + (if PacketGood(i) then 1 else 0) - (if LastOut(h.hw) then 1 else 0)
  {
    if LastOut(h.hw) {
      OutputWord(h);
    }
    hide Lasts, Wrap, RamHolds, Low, WoundBack, Empty, Full, Pow2, Stream, Pointers, Contents;
  }

  /** What a cycle does on the write side when nothing is taken back. */
  lemma WriteObserved<T>(h: History<T>, i: Input<T>)
    requires WellFormed(h.hw) && !EndsBad(i)
    ensures var s, h', rows, write := h.hw, Observe(h, i), Rows(h.hw), Written(h.hw, i);
            && Low(s.writePointer, rows) < |s.ram|
            && h'.hw.ram == (if write then s.ram[Low(s.writePointer, rows) := i.word] else s.ram)
            && h'.hw.writePointer == (if write then Next(s.writePointer, 2 * rows) else s.writePointer)
            && h'.hw.lengthCounter == (if !write then s.lengthCounter else if i.word.last then 0 else Next(s.lengthCounter, rows))
            && Stream(h') == Stream(h) + (if i.Arrive? then [i.word] else [])
            && h'.current == (if i.Arrive? then (if i.word.last then [] else h.current + [i.word]) else h.current)
  {
    hide WoundBack, Full, Pow2, Lasts;
    if i.Arrive? && !i.word.last {
      assert h.good + (h.current + [i.word]) == (h.good + h.current) + [i.word];
    }
    assert Stream(h) + [] == Stream(h);
  }

  lemma WrapNone(m: nat)
    requires m > 0
    ensures Wrap(0, m) == 0
  {
  }

  lemma NotFull<T>(h: History<T>, i: Input<T>)
    requires Inv(h) && Admissible(h.hw, i) && i.Arrive?
    ensures |Stream(h)| < Fetched(h) + Rows(h.hw)
  {
    hide Lasts, Wrap, RamHolds, Contents, Counts;
    PointerTests(h.hw, |Stream(h)|, Fetched(h));
  }

  lemma WritePointers<T>(h: History<T>, i: Input<T>)
    requires Pointers(h) && Admissible(h.hw, i) && !EndsBad(i)
    ensures var h', rows := Observe(h, i), Rows(h.hw);
            && h'.hw.writePointer == Wrap(|Stream(h')|, 2 * rows)
            && h'.hw.lengthCounter == Wrap(|h'.current|, rows)
            && Stream(h') == Stream(h) + (if i.Arrive? then [i.word] else [])
  {
    var rows := Rows(h.hw);
    WriteObserved(h, i);
    WrapNone(rows);
    WrapNext(|Stream(h)|, 2 * rows);
    WrapNext(|h.current|, rows);
    hide Step, Observe, Wrap, Low, Next, Full;
  }

  lemma WriteRam<T>(h: History<T>, i: Input<T>)
    requires Inv(h) && Admissible(h.hw, i) && !EndsBad(i)
    ensures RamHolds(Observe(h, i).hw.ram, Rows(h.hw), Stream(h) + (if i.Arrive? then [i.word] else []), Fetched(h))
  {
    var s, w, rows := h.hw, |Stream(h)|, Rows(h.hw);
    WriteObserved(h, i);
    if i.Arrive? {
      NotFull(h, i);
      WrapLow(w, rows);
      assert Low(s.writePointer, rows) == Wrap(w, rows);
      RamWrite(s.ram, rows, Stream(h), Fetched(h), i.word);
    } else {
      assert Stream(h) + [] == Stream(h);
    }
    hide RamHolds, Step, Observe, Wrap, Low, Next, Stream, Lasts;
  }

  /** Taking a packet back puts the write pointer at its start. */
  lemma RewindPointers<T>(h: History<T>, i: Input<T>)
    requires Pointers(h) && Admissible(h.hw, i) && EndsBad(i) && Fetched(h) <= |h.good|
    ensures var h' := Observe(h, i);
            && h'.hw.writePointer == Wrap(|h.good|, 2 * Rows(h.hw)) && h'.hw.lengthCounter == 0
            && h'.current == [] && Stream(h') == h.good
  {
    hide Pow2;
    var s, w, rows := h.hw, |Stream(h)|, Rows(h.hw);
    PointerTests(s, w, Fetched(h));
    assert |h.current| < rows && s.lengthCounter == |h.current|;
    WrapAdvance(|h.good|, |h.current|, 2 * rows);
    assert h.good + [] == h.good;
  }

  lemma RewindRam<T>(h: History<T>, i: Input<T>)
    requires Inv(h) && Admissible(h.hw, i) && EndsBad(i) && Fetched(h) <= |h.good|
    ensures RamHolds(Observe(h, i).hw.ram, Rows(h.hw), h.good, Fetched(h))
  {
    var s, w, rows := h.hw, |Stream(h)|, Rows(h.hw);
    assert WellFormed(s);
    NotFull(h, i);
    WrapLow(w, rows);
    assert Observe(h, i).hw.ram == s.ram[Wrap(w, rows) := i.word];
    RamWrite(s.ram, rows, Stream(h), Fetched(h), i.word);
    assert forall k :: 0 <= k < |h.good| ==> (Stream(h) + [i.word])[k] == h.good[k];
    hide Step, Observe, Wrap, Low, Lasts, Stream, Pow2, Counts;
  }

  lemma InvPointers<T>(h: History<T>, i: Input<T>)
    requires Inv(h)
    ensures WellFormed(h.hw) && Pointers(h) && Rows(Observe(h, i).hw) == Rows(h.hw) && WellFormed(Observe(h, i).hw)
  {
    hide Contents, Counts, Wrap;
  }

  lemma PointersStep<T>(h: History<T>, i: Input<T>)
    requires Inv(h) && Admissible(h.hw, i) && NothingPrefetched(h, i)
    ensures Pointers(Observe(h, i))
  {
    hide Inv, Contents, Counts, RamHolds, Step, Lasts, Wrap, Observe, WellFormed, Full, Admissible, Presents;
    InvPointers(h, i);
    ReadPart(h, i);
    if EndsBad(i) {
      RewindPointers(h, i);
      WrapNone(Rows(h.hw));
    } else {
      WritePointers(h, i);
      if i.Arrive? {
        NotFull(h, i);
      }
    }
  }

  lemma RamHoldsLater<T>(ram: seq<Word<T>>, rows: nat, stream: seq<Word<T>>, from: nat, to: nat)
    requires RamHolds(ram, rows, stream, from) && from <= to
    ensures RamHolds(ram, rows, stream, to)
  {
  }

  lemma ContentsStep<T>(h: History<T>, i: Input<T>)
    requires Inv(h) && Admissible(h.hw, i) && NothingPrefetched(h, i)
    ensures Contents(Observe(h, i))
  {
    hide Inv, Pointers, Counts, RamHolds, Step, Lasts, Wrap, Observe, WellFormed, Full, Admissible, Presents;
    InvPointers(h, i);
    var h' := Observe(h, i);
    ReadPart(h, i);
    if EndsBad(i) {
      RewindPointers(h, i);
      RewindRam(h, i);
      assert h.good == Stream(h)[..|h.good|];
    } else {
      WritePointers(h, i);
      WriteRam(h, i);
    }
    RamHoldsLater(h'.hw.ram, Rows(h.hw), Stream(h'), Fetched(h), Fetched(h'));
    assert Stream(h)[..Fetched(h')] == Stream(h')[..Fetched(h')];
  }

  lemma CountsStep<T>(h: History<T>, i: Input<T>)
    requires Inv(h) && Admissible(h.hw, i)
    ensures Counts(Observe(h, i))
  {
    CountPart(h, i);
    CurrentHasNoLast(h, i);
    PrefetchIsOneWord(h, i);
    GoodEndsWithLast(h, i);
    hide Lasts, Step, Fetched;
  }

  /** Every admissible cycle keeps the invariant, unless a packet ends bad after one of its words has been fetched. */
  lemma InvStep<T>(h: History<T>, i: Input<T>)
    requires Inv(h) && Admissible(h.hw, i) && NothingPrefetched(h, i)
    ensures Inv(Observe(h, i))
  {
    PointersStep(h, i);
    ContentsStep(h, i);
    CountsStep(h, i);
  }

  lemma GoodEndsWithLast<T>(h: History<T>, i: Input<T>)
    requires Inv(h)
    ensures var good' := Observe(h, i).good; good' != [] ==> good'[|good'| - 1].last
  {
  }

  lemma CurrentHasNoLast<T>(h: History<T>, i: Input<T>)
    requires Inv(h)
    ensures Lasts(Observe(h, i).current) == 0
  {
    if i.Arrive? && !i.word.last {
      LastsAppend(h.current, [i.word]);
      LastsOfOne(i.word);
    }
  }

  /** The read side is never more than one word ahead of the good packets. */
  lemma PrefetchIsOneWord<T>(h: History<T>, i: Input<T>)
    requires Inv(h) && Admissible(h.hw, i)
    ensures Fetched(Observe(h, i)) <= |Observe(h, i).good| + 1
  {
    ReadPart(h, i);
    assert |h.delivered| == |h.good| ==> h.good[|h.delivered|..] == [];
  }

  // ---------------------------------------------------------------- main results

  function Run<T>(h: History<T>, inputs: seq<Input<T>>): (h': History<T>)
    requires WellFormed(h.hw)
    ensures WellFormed(h'.hw)
    decreases |inputs|
  {
    if inputs == [] then h else Run(Observe(h, inputs[0]), inputs[1..])
  }

  function Start<T>(n: nat, zero: Word<T>): (h: History<T>)
    ensures WellFormed(h.hw)
  {
    History(Initial(n, zero), [], [], [])
  }

  /** No overflow and not too many packets, in every cycle. */
  predicate AllAdmissible<T>(h: History<T>, inputs: seq<Input<T>>)
    requires WellFormed(h.hw)
    decreases |inputs|
  {
    inputs != [] ==> Admissible(h.hw, inputs[0]) && AllAdmissible(Observe(h, inputs[0]), inputs[1..])
  }

  /** No packet ends bad in a cycle in which the registers say that one of its words is being or was fetched. */
  predicate NoLeak<T>(h: History<T>, inputs: seq<Input<T>>)
    requires WellFormed(h.hw)
    decreases |inputs|
  {
    inputs != [] ==> !(EndsBad(inputs[0]) && Leaks(h.hw)) && NoLeak(Observe(h, inputs[0]), inputs[1..])
  }

  lemma {:induction false} InvRun<T>(h: History<T>, inputs: seq<Input<T>>)
    requires Inv(h) && AllAdmissible(h, inputs) && NoLeak(h, inputs)
    ensures Inv(Run(h, inputs))
    decreases |inputs|
  {
    assert WellFormed(h.hw);
    hide Inv, Observe, Admissible, Leaks, EndsBad;
    if inputs != [] {
      SafeStep(h, inputs[0]);
      InvRun(Observe(h, inputs[0]), inputs[1..]);
    }
  }

  lemma InvMeansPrefix<T>(h: History<T>)
    requires Inv(h)
    ensures h.delivered <= h.good
  {
    assert forall k :: 0 <= k < |h.delivered| ==> Stream(h)[..Fetched(h)][k] == h.delivered[k] == h.good[k];
  }

  /** The words presented are a prefix of the good packets, whole packets having been dropped in between, and the
      counter is the number of good packets whose last word was not yet presented. */
  lemma DeliversGoodPackets<T>(n: nat, zero: Word<T>, inputs: seq<Input<T>>)
    requires AllAdmissible(Start(n, zero), inputs) && NoLeak(Start(n, zero), inputs)
    ensures var h := Run(Start(n, zero), inputs);
            h.delivered <= h.good && h.hw.goodPackets == Lasts(h.good[|h.delivered|..])
  {
    InvRun(Start(n, zero), inputs);
    InvMeansPrefix(Run(Start(n, zero), inputs));
  }

  /** A one-word good packet arrives next: the words presented are still a prefix of the good packets. */
  ghost predicate PrefixAfter<T>(h: History<T>, x: T)
    requires WellFormed(h.hw)
  {
    var h' := Observe(h, Arrive(Word(true, x), false)); h'.delivered <= h'.good
  }

  lemma InvMeansPrefixAfter<T>(h: History<T>, x: T)
    requires Inv(h)
    ensures WellFormed(h.hw) && PrefixAfter(h, x)
  {
    var i := Arrive(Word(true, x), false);
    InvMeansPrefix(h);
    ShownIsGood(h, i);
    CountAdded(h, i);
    hide Inv, Lasts, Step, Stream;
  }

  /** What a fetched word of a packet that ends bad leaves behind: all good words are presented, and the output register
      holds a word of the bad packet that does not end it. */
  lemma LeakedWord<T>(h: History<T>, i: Input<T>)
    requires Inv(h) && Admissible(h.hw, i) && EndsBad(i) && !NothingPrefetched(h, i)
    ensures var h' := Observe(h, i);
            && h'.good == h.good && h'.current == [] && |h'.delivered| == |h.good| && h'.delivered == h.good
            && h'.hw.outValid && !h'.hw.dout.last
  {
    var h' := Observe(h, i);
    ReadPart(h, i);
    PrefetchIsOneWord(h, i);
    ShownIsGood(h, i);
    CountAdded(h, i);
    LeakedObserved(h, i);
    hide Step, Observe, Pointers, Wrap, RamHolds, Lasts, Presents;
    LeakedSplit(h'.delivered, if h'.hw.outValid then [h'.hw.dout] else [], h.good, h.current);
    NoLastIn(h.current, 0);
  }

  lemma LeakedObserved<T>(h: History<T>, i: Input<T>)
    requires WellFormed(h.hw) && EndsBad(i)
    ensures var h' := Observe(h, i);
            h'.good == h.good && h'.current == [] && h'.delivered == h.delivered + Presents(h.hw, i)
  {
    hide Step;
  }

  /** One word more than the good ones was fetched, and not more than the good ones presented. */
  lemma LeakedSplit<T>(delivered: seq<T>, out: seq<T>, good: seq<T>, current: seq<T>)
    requires |out| <= 1 && |delivered| <= |good| && |delivered| + |out| == |good| + 1 <= |good + current|
    requires delivered + out == (good + current)[..|good| + 1]
    ensures delivered == good && current != [] && out == [current[0]]
  {
    assert delivered == (delivered + out)[..|good|] == good;
    assert out[0] == (delivered + out)[|good|] == current[0];
  }

  lemma NoLastIn<T>(ws: seq<Word<T>>, k: nat)
    requires k < |ws| && Lasts(ws) == 0
    ensures !ws[k].last
  {
    if ws[k].last {
      LastsBound(ws, k);
    }
  }

  /** Such a word is presented with the next good packet, whatever that is. */
  lemma LeakShows<T>(h: History<T>, i: Input<T>, x: T)
    requires Inv(h) && Admissible(h.hw, i) && EndsBad(i) && !NothingPrefetched(h, i)
    ensures WellFormed(h.hw) && !PrefixAfter(Observe(h, i), x)
  {
    LeakedWord(h, i);
    assert WellFormed(h.hw);
    hide Inv, Step, Admissible, NothingPrefetched;
    var h1, good := Observe(h, i), Arrive(Word(true, x), false);
    var h2 := Observe(h1, good);
    assert h2.delivered == h.good + [h1.hw.dout] && h2.good == h.good + [] + [Word(true, x)];
    assert h2.delivered[|h.good|] != h2.good[|h.good|];
  }

  /** What the registers show when a packet that now ends bad has been fetched from, or is being fetched from: a valid
      output word while no good packet is counted, or the last word of the last one while another word follows. */
  predicate Leaks<T>(s: Regs<T>) {
    s.outValid && (s.goodPackets == 0 || (s.goodPackets == 1 && s.dout.last && !Empty(s)))
  }

  /** With the last word of a packet presented next and one packet counted, that word is the last of the good ones. */
  lemma OnePending<T>(h: History<T>)
    requires Inv(h) && h.hw.outValid && |h.delivered| < |h.good|
    ensures h.hw.goodPackets == 1 && h.hw.dout.last <==> |h.delivered| == |h.good| - 1
  {
    OutputWord(h);
    var d, n := |h.delivered|, |h.good|;
    var rest := h.good[d..];
    assert rest[0] == h.good[d] == h.hw.dout && rest[n - 1 - d] == h.good[n - 1];
    if d == n - 1 {
      assert rest == [h.hw.dout];
      LastsOfOne(h.hw.dout);
    } else if h.hw.dout.last {
      LastsSplit(rest, 1);
      assert rest[..1] == [h.hw.dout];
      LastsOfOne(h.hw.dout);
      LastsBound(rest[1..], n - 2 - d);
    }
    hide Pointers, Contents, Step, Wrap;
  }

  lemma LeaksIff<T>(h: History<T>, i: Input<T>)
    requires Inv(h) && EndsBad(i)
    ensures NothingPrefetched(h, i) <==> !Leaks(h.hw)
  {
    PendingIsCounted(h);
    if h.hw.outValid && |h.delivered| < |h.good| {
      OnePending(h);
    }
    InvBounds(h);
    hide Inv, Empty;
  }

  /** The exact condition for one bad packet: in the cycle in which it ends, the registers do not show that one of its
      words is fetched. Then the whole invariant holds again; otherwise the next good packet makes the buffer present
      a word of it. */
  lemma TakenBackIff<T>(h: History<T>, i: Input<T>)
    requires Inv(h) && Admissible(h.hw, i) && EndsBad(i)
    ensures WellFormed(h.hw)
    ensures !Leaks(h.hw) ==> Inv(Observe(h, i)) && forall x: T :: PrefixAfter(Observe(h, i), x)
    ensures Leaks(h.hw) ==> forall x: T :: !PrefixAfter(Observe(h, i), x)
  {
    LeaksIff(h, i);
    InvBounds(h);
    hide Inv, Leaks, Observe, Admissible, NothingPrefetched, PrefixAfter, EndsBad;
    if NothingPrefetched(h, i) {
      InvStep(h, i);
      forall x: T ensures PrefixAfter(Observe(h, i), x) {
        InvMeansPrefixAfter(Observe(h, i), x);
      }
    } else {
      forall x: T ensures !PrefixAfter(Observe(h, i), x) {
        LeakShows(h, i, x);
      }
    }
  }

  lemma SafeStep<T>(h: History<T>, i: Input<T>)
    requires Inv(h) && Admissible(h.hw, i) && !(EndsBad(i) && Leaks(h.hw))
    ensures Inv(Observe(h, i))
  {
    if EndsBad(i) {
      LeaksIff(h, i);
    }
    hide Inv, Leaks, Admissible;
    InvStep(h, i);
  }

  /** At every moment of the run, should a good packet arrive next, the words presented are a prefix of the good packets. */
  ghost predicate PrefixThroughout<T(!new)>(h: History<T>, inputs: seq<Input<T>>)
    requires WellFormed(h.hw)
    decreases |inputs|
  {
    (forall x: T :: PrefixAfter(h, x)) && (inputs != [] ==> PrefixThroughout(Observe(h, inputs[0]), inputs[1..]))
  }

  lemma {:induction false} PrefixIffFrom<T(!new)>(h: History<T>, inputs: seq<Input<T>>)
    requires Inv(h) && AllAdmissible(h, inputs)
    ensures WellFormed(h.hw)
    ensures PrefixThroughout(h, inputs) <==> NoLeak(h, inputs)
    decreases |inputs|
  {
    InvBounds(h);
    hide Inv, Leaks, Observe, Admissible, NothingPrefetched, PrefixAfter, EndsBad;
    forall x: T ensures PrefixAfter(h, x) {
      InvMeansPrefixAfter(h, x);
    }
    if inputs != [] {
      var h' := Observe(h, inputs[0]);
      if EndsBad(inputs[0]) && Leaks(h.hw) {
        TakenBackIff(h, inputs[0]);
        assert !PrefixAfter(h', h.hw.dout.data);
      } else {
        SafeStep(h, inputs[0]);
        PrefixIffFrom(h', inputs[1..]);
      }
    }
  }

  /** The exact condition for whole runs without overflow: what is presented stays a prefix of the good packets if and
      only if no packet ends bad while the registers show that one of its words is fetched. */
  lemma PrefixIffNoLeak<T(!new)>(n: nat, zero: Word<T>, inputs: seq<Input<T>>)
    requires AllAdmissible(Start(n, zero), inputs)
    ensures PrefixThroughout(Start(n, zero), inputs) <==> NoLeak(Start(n, zero), inputs)
  {
    assert Inv(Start(n, zero));
    PrefixIffFrom(Start(n, zero), inputs);
  }

  /** A word of an unfinished packet was fetched before this cycle exactly when the output register is valid while no good
      packet is counted. */
  lemma PrefetchShows<T>(h: History<T>)
    requires Inv(h)
    ensures Fetched(h) > |h.good| <==> h.hw.outValid && h.hw.goodPackets == 0
  {
    var d := |h.delivered|;
    if d == |h.good| {
      assert h.good[d..] == [];
    } else {
      assert h.good[d..][|h.good| - 1 - d].last;
      LastsBound(h.good[d..], |h.good| - 1 - d);
    }
  }

  /** It does happen: a one-word good packet, a three-word bad one right behind it and another good packet make the
      buffer present a word of the bad packet. */
  lemma BadPacketLeaks()
    ensures var w := (last: bool, data: int) => Word(last, data);
            var inputs := [Arrive(w(true, 1), false), Arrive(w(false, 2), false), Arrive(w(false, 3), false),
                           Arrive(w(true, 4), true), Arrive(w(true, 5), false)];
            var h := Run(Start(2, w(false, 0)), inputs);
            && AllAdmissible(Start(2, w(false, 0)), inputs)
            && h.good == [w(true, 1), w(true, 5)] && h.delivered == [w(true, 1), w(false, 2)]
  {
    assert Pow2(2) == 4;
    var h0 := Start(2, Word(false, 0));
    var h1 := Observe(h0, Arrive(Word(true, 1), false));
    var h2 := Observe(h1, Arrive(Word(false, 2), false));
    var h3 := Observe(h2, Arrive(Word(false, 3), false));
    var h4 := Observe(h3, Arrive(Word(true, 4), true));
    var h5 := Observe(h4, Arrive(Word(true, 5), false));
    assert h2.hw.dout == Word(true, 1) && h2.hw.outValid && h2.hw.goodPackets == 1 && h2.hw.writePointer == 2;
    assert h3.hw.dout == Word(false, 2) && h3.hw.outValid && h3.hw.goodPackets == 0 && h3.delivered == [Word(true, 1)];
    assert h4.hw.writePointer == 1 && h4.hw.readPointer == 2 && h4.hw.outValid && h4.hw.dout == Word(false, 2);
    var i1, i2, i3 := Arrive(Word(true, 1), false), Arrive(Word(false, 2), false), Arrive(Word(false, 3), false);
    var i4, i5 := Arrive(Word(true, 4), true), Arrive(Word(true, 5), false);
    assert Admissible(h0.hw, i1) && Admissible(h1.hw, i2) && Admissible(h2.hw, i3) && Admissible(h3.hw, i4);
    assert Admissible(h4.hw, i5);
    RunFive(h0, i1, i2, i3, i4, i5);
  }

  lemma RunFive<T>(h: History<T>, i1: Input<T>, i2: Input<T>, i3: Input<T>, i4: Input<T>, i5: Input<T>)
    requires WellFormed(h.hw)
    ensures Run(h, [i1, i2, i3, i4, i5]) == Observe(Observe(Observe(Observe(Observe(h, i1), i2), i3), i4), i5)
    ensures var h1 := Observe(h, i1); var h2 := Observe(h1, i2); var h3 := Observe(h2, i3);
            (&& Admissible(h.hw, i1) && Admissible(h1.hw, i2) && Admissible(h2.hw, i3) && Admissible(h3.hw, i4)
             && Admissible(Observe(h3, i4).hw, i5))
            ==> AllAdmissible(h, [i1, i2, i3, i4, i5])
  {
    hide Observe, Run, WellFormed, AllAdmissible, Admissible;
    var w := [i1, i2, i3, i4, i5];
    assert w[0..] == w;
    RunFrom(h, w, 0);
    var h1 := Observe(h, w[0]);
    RunFrom(h1, w, 1);
    var h2 := Observe(h1, w[1]);
    RunFrom(h2, w, 2);
    var h3 := Observe(h2, w[2]);
    RunFrom(h3, w, 3);
    RunFrom(Observe(h3, w[3]), w, 4);
  }

  lemma RunFrom<T>(h: History<T>, w: seq<Input<T>>, k: nat)
    requires WellFormed(h.hw) && k < |w|
    ensures Run(h, w[k..]) == Run(Observe(h, w[k]), w[k + 1..])
    ensures k + 1 == |w| ==> Run(h, w[k..]) == Observe(h, w[k])
    ensures AllAdmissible(h, w[k..]) <==> Admissible(h.hw, w[k]) && (k + 1 < |w| ==> AllAdmissible(Observe(h, w[k]), w[k + 1..]))
  {
    hide Observe, Admissible;
    assert w[k..][1..] == w[k + 1..];
  }

  /** k cycles in which nothing arrives. */
  function AfterIdle<T>(h: History<T>, k: nat): History<T>
    requires WellFormed(h.hw)
    decreases k
  {
    if k == 0 then h else AfterIdle(Observe(h, Idle), k - 1)
  }

  /** Cycles that are still needed, at most, before every good packet has been presented. */
  ghost function Work<T>(h: History<T>): nat
    requires |h.delivered| <= |h.good|
  {
    |h.good| - |h.delivered| + (if h.hw.outValid then 0 else 1)
  }

  /** The counter is zero exactly when every good packet has been presented. */
  lemma PendingIsCounted<T>(h: History<T>)
    requires Inv(h)
    ensures h.hw.goodPackets == 0 <==> |h.delivered| == |h.good|
  {
    var d := |h.delivered|;
    hide Pointers, Contents;
    if d < |h.good| {
      assert h.good[d..][|h.good| - 1 - d].last;
      LastsBound(h.good[d..], |h.good| - 1 - d);
    } else {
      assert h.good[d..] == [];
    }
  }

  lemma IdleCycle<T>(h: History<T>)
    requires Inv(h)
    ensures var h' := Observe(h, Idle);
            && Inv(h') && h'.good == h.good
            && (|h.delivered| < |h.good| ==> |h'.delivered| == |h.good| || Work(h') < Work(h))
            && (|h.delivered| == |h.good| ==> |h'.delivered| == |h.good|)
  {
    InvStep(h, Idle);
    ReadObserved(h, Idle);
    PointerTests(h.hw, |Stream(h)|, Fetched(h));
    PendingIsCounted(h);
    var h' := Observe(h, Idle);
    assert h'.good == h.good && |h'.delivered| <= |h'.good| by {
      InvBounds(h');
    }
    assert Fetched(h) <= |Stream(h)| && |h.good| <= |Stream(h)|;
    hide Inv, Pointers, Contents, Counts, Step, Stream, Empty, Low, Next, WellFormed;
  }

  lemma InvBounds<T>(h: History<T>)
    requires Inv(h)
    ensures WellFormed(h.hw) && |h.delivered| <= |h.good|
  {
  }

  /** Good packets come out: after as many idle cycles as there are words left and one more, all are presented. */
  lemma {:induction false} IdleDrains<T>(h: History<T>, k: nat)
    requires Inv(h) && (Work(h) <= k || |h.delivered| == |h.good|)
    ensures AfterIdle(h, k).delivered == h.good
    decreases k
  {
    hide Inv, Observe, WellFormed;
    InvBounds(h);
    if k == 0 {
      InvMeansPrefix(h);
    } else {
      IdleCycle(h);
      InvBounds(Observe(h, Idle));
      IdleDrains(Observe(h, Idle), k - 1);
    }
  }

  class Buffer<T> {
    const n: nat
    const ram: array<Word<T>>
    var readPointer: nat
    var writePointer: nat
    var lengthCounter: nat
    var dout: Word<T>
    var outValid: bool
    var goodPackets: nat

    function Registers(): Regs<T>
      reads this, ram
    {
      Regs(n, ram[..], readPointer, writePointer, lengthCounter, dout, outValid, goodPackets)
    }

    constructor (n: nat, zero: Word<T>)
      ensures Registers() == Initial(n, zero) && fresh(ram)
    {
      this.n := n;
      ram := new Word<T>[Pow2(n)](_ => zero);
      readPointer, writePointer, lengthCounter, dout, outValid, goodPackets := 0, 0, 0, zero, false, 0;
      new;
      assert ram[..] == Initial(n, zero).ram;
    }

    method Clock(i: Input<T>)
      requires WellFormed(Registers())
      modifies this, ram
      ensures Registers() == Step(old(Registers()), i)
    {
      var rows := ram.Length;
      var s := Registers();
      hide Pow2, WoundBack, Next, Low, Full, Empty;
      var full, empty := Full(s), Empty(s);
      var packetGood := i.Arrive? && i.word.last && !i.bad;
      var lastOut := dout.last && outValid;
      if goodPackets != 0 || packetGood {
        dout := ram[Low(readPointer, rows)];
        outValid := !empty;
        if !empty {
          readPointer := Next(readPointer, 2 * rows);
        }
      }
      if packetGood && !lastOut {
        goodPackets := Next(goodPackets, rows);
      } else if !packetGood && lastOut {
        goodPackets := if goodPackets == 0 then rows - 1 else goodPackets - 1;
      }
      WriteProcess(s, full, i);
    }

    /** The write side; s are the registers before the cycle. */
    method WriteProcess(s: Regs<T>, full: bool, i: Input<T>)
      requires WellFormed(s) && full == Full(s)
      requires n == s.n && ram[..] == s.ram && writePointer == s.writePointer && lengthCounter == s.lengthCounter
      modifies this`writePointer, this`lengthCounter, ram
      ensures var s' := Step(s, i); ram[..] == s'.ram && writePointer == s'.writePointer && lengthCounter == s'.lengthCounter
    {
      var rows := ram.Length;
      hide Pow2, WoundBack, Next, Low, Full, Empty;
      if i.Arrive? && !full {
        ram[Low(writePointer, rows)] := i.word;
        if !i.word.last {
          writePointer := Next(writePointer, 2 * rows);
          lengthCounter := Next(lengthCounter, rows);
        } else {
          writePointer := if i.bad then WoundBack(s) else Next(writePointer, 2 * rows);
          lengthCounter := 0;
        }
      }
    }
  }
}
