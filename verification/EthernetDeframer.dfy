/** Ethernet deframer: header filter, check-sequence verdict and the four-byte delay line that strips the check
    sequence. */
module EthernetDeframer {
  import opened BitVectors
  import opened ByteStream
  import opened EthernetFcs

  /** A payload byte with its end-of-packet mark and the verdict that is read with it. */
  datatype Out = Out(data: Byte, last: bool, bad: bool)

  /** Header(k) waits for frame byte k. */
  datatype State = Idle | Header(k: nat) | Payload | Discard

  /** The four-byte ring; its pointers carry one bit more than the address. */
  datatype Ring = Ring(buffers: seq<Byte>, readPointer: nat, writePointer: nat)

  datatype Regs = Regs(
    state: State, srcMac: Mac, dstMac: Mac, fcsReset: bool, fcs: FcsRegs, payloadFinished: bool,
    r1Data: Byte, r1Valid: bool, ring: Ring, dropped: nat)

  datatype Settings = Settings(ownMac: Mac, peerMac: Mac, filterSource: bool)

  predicate RingFull(r: Ring) {
    r.readPointer % 4 == r.writePointer % 4 && r.readPointer / 4 != r.writePointer / 4
  }

  predicate RingEmpty(r: Ring) { r.readPointer == r.writePointer }

  predicate RingWellFormed(r: Ring) { |r.buffers| == 4 && r.readPointer < 8 && r.writePointer < 8 }

  function RingStep(r: Ring, reset: bool, write: bool, data: Byte, read: bool): (r': Ring)
    requires RingWellFormed(r)
    ensures RingWellFormed(r')
  {
    Ring(if write then r.buffers[r.writePointer % 4 := data] else r.buffers,
         if reset then 0 else if read && !RingEmpty(r) then (r.readPointer + 1) % 8 else r.readPointer,
         if reset then 0 else if write then (r.writePointer + 1) % 8 else r.writePointer)
  }

  predicate WellFormed(s: Regs) {
    RingWellFormed(s.ring) && (s.state.Header? ==> 1 <= s.state.k <= 13) && s.dropped < 0x10000
  }

  predicate Broadcast(m: Mac) { forall i :: 0 <= i < 6 ==> m[i] == 0xFF }

  predicate DestinationOk(c: Settings, m: Mac) { m == c.ownMac || Broadcast(m) }

  predicate SourceOk(c: Settings, m: Mac) { m == c.peerMac || Broadcast(m) || !c.filterSource }

  function ShiftIn(m: Mac, b: Byte): Mac { m[1..] + [b] }

  predicate EndsWith(m: Mac, bytes: seq<Byte>) { |bytes| <= 6 && m[6 - |bytes|..] == bytes }

  /** The state after a frame byte. */
  function NextState(c: Settings, s: Regs, byte: Byte, last: bool): State {
    match s.state
    case Idle => Header(1)
    case Header(k) =>
      if k == 6 && !DestinationOk(c, s.dstMac) then Discard
      else if k == 12 && !(SourceOk(c, s.srcMac) && byte == 0x08) then Discard
      else if k == 13 then (if byte == 0x00 then Payload else Discard)
      else Header(k + 1)
    case Payload => if last then Idle else Payload
    case Discard => if last then Idle else Discard
  }

  function Step(c: Settings, s: Regs, i: Input): (s': Regs)
    requires WellFormed(s)
    ensures WellFormed(s')
  {
    var full := RingFull(s.ring);
    var ring := RingStep(s.ring, s.payloadFinished, s.r1Valid, s.r1Data, full && s.r1Valid);
    match i
    case Pause =>
      Regs(s.state, s.srcMac, s.dstMac, false, Update(s.fcs, s.fcsReset, 0, false, false),
                s.payloadFinished, 0, false, ring, s.dropped)
    case Arrival(byte, last) =>
      var inPayload, ends := s.state == Payload, last && (s.state == Payload || s.state == Discard);
      Regs(
        NextState(c, s, byte, last),
        if s.state.Header? && 6 <= s.state.k <= 11 then ShiftIn(s.srcMac, byte) else s.srcMac,
        if s.state == Idle || (s.state.Header? && s.state.k <= 5) then ShiftIn(s.dstMac, byte) else s.dstMac,
        ends,
        Update(s.fcs, s.fcsReset, byte, true, true),
        if s.state == Idle then false else s.payloadFinished || (inPayload && last),
        if inPayload then byte else 0,
        inPayload,
        ring,
        if s.state == Discard && last then (s.dropped + 1) % 0x10000 else s.dropped)
  }

  /** What the output registers capture as valid at this edge. */
  function Emits(s: Regs): seq<Out>
    requires WellFormed(s)
  {
    if RingFull(s.ring) && !RingEmpty(s.ring) && s.r1Valid then
      [Out(s.ring.buffers[s.ring.readPointer % 4], s.payloadFinished, s.payloadFinished && s.fcs.crc != RESIDUE)]
    else []
  }

  datatype History = History(hw: Regs, emitted: seq<Out>)

  function Observe(c: Settings, h: History, i: Input): (h': History)
    requires WellFormed(h.hw)
    ensures WellFormed(h'.hw)
  {
    History(Step(c, h.hw, i), h.emitted + Emits(h.hw))
  }

  function Run(c: Settings, h: History, inputs: seq<Input>): (h': History)
    requires WellFormed(h.hw)
    ensures WellFormed(h'.hw)
    decreases |inputs|
  {
    if inputs == [] then h else Run(c, Observe(c, h, inputs[0]), inputs[1..])
  }

  // ---------------------------------------------------------------- what a frame yields

  /** Header, at least one payload byte, check sequence. */
  predicate Complete(f: seq<Byte>) { |f| >= 19 }

  const BROADCAST_ADDRESS: Mac := [0xFF, 0xFF, 0xFF, 0xFF, 0xFF, 0xFF]

  /** Addresses that this station takes frames with. */
  predicate ForStation(c: Settings, destination: seq<Byte>, source: seq<Byte>) {
    && (destination == c.ownMac || destination == BROADCAST_ADDRESS)
    && (!c.filterSource || source == c.peerMac || source == BROADCAST_ADDRESS)
  }

  /** An IPv4 frame for this station. */
  predicate Accepted(c: Settings, f: seq<Byte>)
    requires |f| >= 14
  {
    ForStation(c, f[..6], f[6..12]) && f[12..14] == [0x08, 0x00]
  }

  /** The comparisons of the address registers decide it. */
  lemma ForStationIff(c: Settings, destination: Mac, source: Mac)
    ensures ForStation(c, destination, source) <==> DestinationOk(c, destination) && SourceOk(c, source)
  {
  }

  function Unmarked(bytes: seq<Byte>): (o: seq<Out>)
    ensures |o| == |bytes|
  {
    seq(|bytes|, i requires 0 <= i < |bytes| => Out(bytes[i], false, false))
  }

  /** The payload of an accepted frame with its last byte marked and carrying the verdict. */
  function Marked(c: Settings, f: seq<Byte>, bad: bool): seq<Out>
    requires Complete(f)
  {
    if Accepted(c, f) then Unmarked(f[14..|f| - 5]) + [Out(f[|f| - 5], true, bad)] else []
  }

  /** Bad if the last four bytes are not the check sequence of the rest. */
  function Expected(c: Settings, f: seq<Byte>): seq<Out>
    requires Complete(f)
  {
    Marked(c, f, f[|f| - 4..] != Fcs(Crc(INIT, f[..|f| - 4])))
  }

  // ---------------------------------------------------------------- inside a frame

  /** Between frames. */
  predicate Settled(s: Regs) {
    && WellFormed(s) && s.state == Idle && !s.fcsReset && s.fcs.crc == INIT && !s.r1Valid
    && s.ring.readPointer == 0 && s.ring.writePointer == 0
  }

  /** The state in front of frame byte k. */
  function StateAt(c: Settings, f: seq<Byte>, k: nat): State
    requires Complete(f) && k < |f|
  {
    if k == 0 then Idle
    else if k <= 6 then Header(k)
    else if !DestinationOk(c, f[..6]) then Discard
    else if k <= 12 then Header(k)
    else if !(SourceOk(c, f[6..12]) && f[12] == 0x08) then Discard
    else if k == 13 then Header(13)
    else if f[13] == 0x00 then Payload
    else Discard
  }

  /** How many bytes have gone into the delay line, and how many have come out of it. */
  function Pushed(s: Regs, k: nat): int { k - 14 - (if s.r1Valid then 1 else 0) }

  function Popped(q: int): int { if q > 4 then q - 4 else 0 }

  /** The delay line holds the last four of the q payload bytes pushed into it. */
  predicate DelayLine(r: Ring, payload: seq<Byte>, q: int) {
    && RingWellFormed(r) && 0 <= q <= |payload|
    && r.writePointer == q % 8 && r.readPointer == Popped(q) % 8
    && forall j :: Popped(q) <= j < q ==> r.buffers[j % 4] == payload[j]
  }

  /** The state machine and the address registers in front of frame byte k. */
  predicate HeaderPart(c: Settings, s: Regs, f: seq<Byte>, k: nat)
    requires Complete(f) && k < |f|
  {
    && s.state == StateAt(c, f, k)
    && (k > 0 ==> !s.payloadFinished)
    && (k <= 6 ==> EndsWith(s.dstMac, f[..k]))
    && (6 <= k <= 12 && s.state.Header? ==> EndsWith(s.srcMac, f[6..k]))
  }

  /** The payload register, the delay line and what has come out of it, in front of frame byte k. */
  ghost predicate PayloadPart(s: Regs, f: seq<Byte>, k: nat, emitted: seq<Out>)
    requires Complete(f) && k < |f|
  {
    if s.state == Payload && k > 14 then
      && (s.r1Valid ==> s.r1Data == f[k - 1])
      && DelayLine(s.ring, f[14..], Pushed(s, k))
      && emitted == Unmarked(f[14..14 + Popped(Pushed(s, k))])
    else !s.r1Valid && s.ring.readPointer == s.ring.writePointer == 0 && emitted == []
  }

  /** k bytes of frame f have arrived, the last one of the frame not being among them; the check-sequence register has
      missed the first skip of them. */
  ghost predicate InFrame(c: Settings, s: Regs, f: seq<Byte>, skip: nat, k: nat, emitted: seq<Out>) {
    && WellFormed(s) && Complete(f) && skip <= k < |f|
    && !s.fcsReset && s.fcs.crc == Crc(INIT, f[skip..k])
    && HeaderPart(c, s, f, k) && PayloadPart(s, f, k, emitted)
  }

  /** The last byte of frame f arrived in the cycle before. */
  ghost predicate Ending(c: Settings, s: Regs, f: seq<Byte>, skip: nat, emitted: seq<Out>) {
    && WellFormed(s) && Complete(f) && skip <= 1
    && s.state == Idle && s.fcsReset && s.fcs.crc == Crc(INIT, f[skip..])
    && (if Accepted(c, f) then
          && s.r1Valid && s.payloadFinished
          && DelayLine(s.ring, f[14..], |f| - 15)
          && emitted == Unmarked(f[14..|f| - 5])
        else !s.r1Valid && !s.payloadFinished && s.ring.readPointer == s.ring.writePointer == 0 && emitted == [])
  }

  /** Pointers three bits wide that are four apart differ only in the top bit. */
  lemma FourApart(q: nat)
    ensures q % 8 % 4 == q % 4 && (q % 8 + 1) % 8 == (q + 1) % 8
    ensures q >= 4 ==> (q - 4) % 8 % 4 == q % 4 && (q - 4) % 8 / 4 != q % 8 / 4 && ((q - 4) % 8 + 1) % 8 == (q - 3) % 8
  {
    assert q == 8 * (q / 8) + q % 8;
  }

  lemma DistinctSlots(j: nat, q: nat)
    requires q - 4 < j < q
    ensures j % 4 != q % 4
  {
  }

  lemma DelayLineFull(r: Ring, payload: seq<Byte>, q: int)
    requires DelayLine(r, payload, q)
    ensures RingFull(r) <==> q >= 4
    ensures RingEmpty(r) <==> q == 0
    ensures q >= 4 ==> r.buffers[r.readPointer % 4] == payload[q - 4]
  {
    FourApart(q);
    if q >= 4 {
      FourApart(q - 4);
      assert r.buffers[(q - 4) % 4] == payload[q - 4];
    }
  }

  /** Pushing one more byte, popping one if the line is full. */
  lemma DelayLineStep(r: Ring, payload: seq<Byte>, q: int)
    requires DelayLine(r, payload, q) && q < |payload|
    ensures DelayLine(RingStep(r, false, true, payload[q], RingFull(r)), payload, q + 1)
  {
    DelayLineFull(r, payload, q);
    hide RingFull, RingEmpty;
    FourApart(q);
    var r' := RingStep(r, false, true, payload[q], RingFull(r));
    assert r'.buffers == r.buffers[q % 4 := payload[q]];
    forall j | Popped(q + 1) <= j < q + 1
      ensures r'.buffers[j % 4] == payload[j]
    {
      if j < q {
        DistinctSlots(j, q);
      }
    }
  }

  lemma CrcOneMore(f: seq<Byte>, skip: nat, k: nat)
    requires skip <= k < |f|
    ensures Crc(INIT, f[skip..k + 1]) == Absorb(Crc(INIT, f[skip..k]), f[k])
  {
    assert f[skip..k + 1][..k - skip] == f[skip..k];
  }

  lemma UnmarkedOneMore(f: seq<Byte>, a: nat, b: nat)
    requires a <= b < |f|
    ensures Unmarked(f[a..b + 1]) == Unmarked(f[a..b]) + [Out(f[b], false, false)]
  {
  }

  /** What the delay line does in a cycle inside the payload, whether or not a byte arrives. */
  lemma PayloadCycle(c: Settings, s: Regs, f: seq<Byte>, skip: nat, k: nat, emitted: seq<Out>, i: Input)
    requires InFrame(c, s, f, skip, k, emitted) && s.state == Payload && k > 14
    ensures var q := k - 14;
            && DelayLine(Step(c, s, i).ring, f[14..], q)
            && emitted + Emits(s) == Unmarked(f[14..14 + Popped(q)])
  {
    hide Crc, Update, NextState, StateAt, EndsWith, Unmarked, RingFull;
    var q := Pushed(s, k);
    DelayLineFull(s.ring, f[14..], q);
    if s.r1Valid {
      DelayLineStep(s.ring, f[14..], q);
      if q >= 4 {
        UnmarkedOneMore(f, 14, 14 + q - 4);
      }
    }
  }

  lemma GapStep(c: Settings, s: Regs, f: seq<Byte>, skip: nat, k: nat, emitted: seq<Out>)
    requires InFrame(c, s, f, skip, k, emitted)
    ensures InFrame(c, Step(c, s, Pause), f, skip, k, emitted + Emits(s))
  {
    if s.state == Payload && k > 14 {
      PayloadCycle(c, s, f, skip, k, emitted, Pause);
    }
    hide Crc, RingFull, StateAt, DelayLine;
  }

  lemma ShiftInEnds(m: Mac, bytes: seq<Byte>, b: Byte)
    requires EndsWith(m, bytes) && |bytes| <= 5
    ensures EndsWith(ShiftIn(m, b), bytes + [b])
  {
    var n := |bytes|;
    assert ShiftIn(m, b)[5 - n..] == m[6 - n..] + [b];
  }

  lemma WholeMac(m: Mac, bytes: seq<Byte>)
    requires EndsWith(m, bytes) && |bytes| == 6
    ensures m == bytes
  {
    assert m[0..] == m;
  }

  /** The state machine follows the header. */
  lemma StateStep(c: Settings, s: Regs, f: seq<Byte>, k: nat)
    requires Complete(f) && k < |f| - 1 && s.state == StateAt(c, f, k)
    requires k == 6 ==> s.dstMac == f[..6]
    requires k == 12 && s.state.Header? ==> s.srcMac == f[6..12]
    ensures NextState(c, s, f[k], false) == StateAt(c, f, k + 1)
  {
    hide DestinationOk, SourceOk;
  }

  lemma DestinationByte(m: Mac, f: seq<Byte>, k: nat)
    requires k <= 5 && k < |f| && EndsWith(m, f[..k])
    ensures EndsWith(ShiftIn(m, f[k]), f[..k + 1])
  {
    hide ShiftIn, EndsWith;
    var bytes := f[..k];
    assert bytes + [f[k]] == f[..k + 1];
    ShiftInEnds(m, bytes, f[k]);
  }

  lemma SourceByte(m: Mac, f: seq<Byte>, k: nat)
    requires 6 <= k <= 11 && k < |f| && EndsWith(m, f[6..k])
    ensures EndsWith(ShiftIn(m, f[k]), f[6..k + 1])
  {
    hide ShiftIn, EndsWith;
    var bytes := f[6..k];
    assert bytes + [f[k]] == f[6..k + 1];
    ShiftInEnds(m, bytes, f[k]);
  }

  lemma NoBytes(m: Mac, f: seq<Byte>)
    requires |f| >= 6
    ensures EndsWith(m, f[6..6])
  {
    assert m[6..] == f[6..6] == [];
  }

  /** What a byte does to the state machine and the address registers. */
  lemma HeaderObserved(c: Settings, s: Regs, byte: Byte)
    requires WellFormed(s)
    ensures var s' := Step(c, s, Arrival(byte, false));
            && s'.state == NextState(c, s, byte, false)
            && s'.payloadFinished == (s.state != Idle && s.payloadFinished)
            && s'.dstMac == (if s.state == Idle || (s.state.Header? && s.state.k <= 5) then ShiftIn(s.dstMac, byte) else s.dstMac)
            && s'.srcMac == (if s.state.Header? && 6 <= s.state.k <= 11 then ShiftIn(s.srcMac, byte) else s.srcMac)
  {
    hide Update, RingStep, NextState, ShiftIn, RingFull;
  }

  lemma HeaderByte(c: Settings, s: Regs, f: seq<Byte>, k: nat)
    requires WellFormed(s) && Complete(f) && k < |f| - 1 && HeaderPart(c, s, f, k)
    ensures HeaderPart(c, Step(c, s, Arrival(f[k], false)), f, k + 1)
  {
    var s' := Step(c, s, Arrival(f[k], false));
    if k <= 5 {
      DestinationByte(s.dstMac, f, k);
      NoBytes(s'.srcMac, f);
    }
    if k == 6 {
      WholeMac(s.dstMac, f[..6]);
    }
    if 6 <= k <= 11 && s.state.Header? {
      SourceByte(s.srcMac, f, k);
    }
    if k == 12 && s.state.Header? {
      WholeMac(s.srcMac, f[6..12]);
    }
    StateStep(c, s, f, k);
    StateAtShape(c, f, k);
    HeaderObserved(c, s, f[k]);
    hide EndsWith, StateAt, NextState, ShiftIn, Step, Complete;
  }

  lemma StateAtShape(c: Settings, f: seq<Byte>, k: nat)
    requires Complete(f) && k < |f| - 1
    ensures StateAt(c, f, k) == Idle <==> k == 0
    ensures StateAt(c, f, k).Header? ==> StateAt(c, f, k) == Header(k)
    ensures 1 <= k <= 6 ==> StateAt(c, f, k) == Header(k)
    ensures StateAt(c, f, k) == Payload ==> k >= 14
    ensures 1 <= k <= 13 && StateAt(c, f, k + 1).Header? ==> StateAt(c, f, k).Header?
    ensures k >= 14 ==> StateAt(c, f, k + 1) == StateAt(c, f, k)
    ensures StateAt(c, f, k + 1) == Payload && k < 14 ==> k == 13
  {
  }

  lemma PayloadByte(c: Settings, s: Regs, f: seq<Byte>, skip: nat, k: nat, emitted: seq<Out>)
    requires InFrame(c, s, f, skip, k, emitted) && k < |f| - 1
    requires HeaderPart(c, Step(c, s, Arrival(f[k], false)), f, k + 1)
    ensures PayloadPart(Step(c, s, Arrival(f[k], false)), f, k + 1, emitted + Emits(s))
  {
    var i := Arrival(f[k], false);
    StateAtShape(c, f, k);
    if s.state == Payload && k > 14 {
      PayloadCycle(c, s, f, skip, k, emitted, i);
    }
    hide Crc, RingFull, Update, ShiftIn, Unmarked, EndsWith, StateAt;
    if s.state == Payload && k > 14 {
      hide DelayLine;
    }
  }

  /** A byte that is not the last one of its frame. */
  lemma ByteStep(c: Settings, s: Regs, f: seq<Byte>, skip: nat, k: nat, emitted: seq<Out>)
    requires InFrame(c, s, f, skip, k, emitted) && k < |f| - 1
    ensures InFrame(c, Step(c, s, Arrival(f[k], false)), f, skip, k + 1, emitted + Emits(s))
  {
    HeaderByte(c, s, f, k);
    PayloadByte(c, s, f, skip, k, emitted);
    CrcOneMore(f, skip, k);
    hide HeaderPart, PayloadPart, Crc, RingFull, Absorb, ShiftIn, NextState, Emits, RingStep;
  }

  /** The last byte of the frame. */
  lemma LastByteStep(c: Settings, s: Regs, f: seq<Byte>, skip: nat, emitted: seq<Out>)
    requires Complete(f) && InFrame(c, s, f, skip, |f| - 1, emitted) && skip <= 1
    ensures Ending(c, Step(c, s, Arrival(f[|f| - 1], true)), f, skip, emitted + Emits(s))
  {
    var k := |f| - 1;
    if s.state == Payload {
      PayloadCycle(c, s, f, skip, k, emitted, Arrival(f[k], true));
    }
    CrcOneMore(f, skip, k);
    assert f[skip..k + 1] == f[skip..];
    LastState(c, f);
    hide Crc, RingFull, DelayLine, Absorb, Unmarked, DestinationOk, SourceOk, StateAt, Accepted, EndsWith, RingStep;
    if s.state != Payload {
      assert Step(c, s, Arrival(f[k], true)).ring.readPointer == Step(c, s, Arrival(f[k], true)).ring.writePointer == 0 by {
        EmptyRingStays(s.ring, s.payloadFinished, false);
      }
    }
  }

  /** Where a frame can end. */
  lemma LastState(c: Settings, f: seq<Byte>)
    requires Complete(f)
    ensures StateAt(c, f, |f| - 1) == if Accepted(c, f) then Payload else Discard
  {
    hide DestinationOk, SourceOk, ForStation;
    ForStationIff(c, f[..6], f[6..12]);
    assert f[12..14] == [f[12], f[13]];
  }

  /** An empty ring is not read. */
  lemma EmptyRingStays(r: Ring, reset: bool, read: bool)
    requires RingWellFormed(r) && r.readPointer == r.writePointer == 0
    ensures var r' := RingStep(r, reset, false, 0, read); r'.readPointer == r'.writePointer == 0
    ensures !RingFull(r)
  {
  }

  /** The cycle after the last byte emits the last payload byte with the verdict, whatever arrives. */
  lemma EndingEmits(c: Settings, s: Regs, f: seq<Byte>, skip: nat, emitted: seq<Out>)
    requires Ending(c, s, f, skip, emitted)
    ensures emitted + Emits(s) == Marked(c, f, Crc(INIT, f[skip..]) != RESIDUE)
  {
    hide Crc;
    if Accepted(c, f) {
      DelayLineFull(s.ring, f[14..], |f| - 15);
      assert s.ring.buffers[s.ring.readPointer % 4] == f[14..][|f| - 19] == f[|f| - 5];
    }
  }

  /** An idle cycle after the last byte settles everything. */
  lemma IdleSettles(c: Settings, s: Regs, f: seq<Byte>, skip: nat, emitted: seq<Out>)
    requires Ending(c, s, f, skip, emitted)
    ensures Settled(Step(c, s, Pause))
  {
    hide Crc;
  }

  lemma SettledStays(c: Settings, s: Regs)
    requires Settled(s)
    ensures Settled(Step(c, s, Pause)) && Emits(s) == []
  {
    hide Crc;
  }

  lemma SettledIsInFrame(c: Settings, s: Regs, f: seq<Byte>)
    requires Settled(s) && Complete(f)
    ensures InFrame(c, s, f, 0, 0, [])
  {
    assert f[0..0] == f[..0] == [];
    assert s.dstMac[6..] == [];
  }

  /** A first byte right behind a last byte starts a frame whose check-sequence register has missed that byte. */
  lemma BackToBackStep(c: Settings, s: Regs, f: seq<Byte>, skip: nat, emitted: seq<Out>, g: seq<Byte>)
    requires Ending(c, s, f, skip, emitted) && Complete(g)
    ensures InFrame(c, Step(c, s, Arrival(g[0], false)), g, 1, 1, [])
  {
    hide DelayLine, Accepted;
    assert g[1..1] == [];
    assert g[..1] == [g[0]];
    assert ShiftIn(s.dstMac, g[0])[5..] == [g[0]];
  }

  // ---------------------------------------------------------------- runs

  /** One frame, any gaps inside it, and at least one idle cycle behind it. */
  predicate Chunk(inputs: seq<Input>, f: seq<Byte>) {
    Carries(inputs, f) && inputs != [] && inputs[|inputs| - 1] == Pause
  }

  lemma {:induction false} RunSettled(c: Settings, h: History, inputs: seq<Input>)
    requires Settled(h.hw) && Carries(inputs, [])
    ensures Settled(Run(c, h, inputs).hw) && Run(c, h, inputs).emitted == h.emitted
    decreases |inputs|
  {
    if inputs != [] {
      SettledStays(c, h.hw);
      hide Settled;
      assert Observe(c, h, Pause).emitted == h.emitted;
      RunSettled(c, Observe(c, h, inputs[0]), inputs[1..]);
    }
  }

  lemma InFrameBounds(c: Settings, s: Regs, f: seq<Byte>, skip: nat, k: nat, emitted: seq<Out>)
    requires InFrame(c, s, f, skip, k, emitted)
    ensures WellFormed(s) && Complete(f) && skip <= k < |f|
  {
  }

  /** The rest of a chunk behind its first cycle. */
  lemma ChunkTail(inputs: seq<Input>, f: seq<Byte>, k: nat)
    requires k < |f| && Chunk(inputs, f[k..])
    ensures inputs != []
    ensures inputs[0] == Pause ==> Chunk(inputs[1..], f[k..])
    ensures inputs[0] != Pause && k < |f| - 1 ==> inputs[0] == Arrival(f[k], false) && Chunk(inputs[1..], f[k + 1..])
    ensures inputs[0] != Pause && k == |f| - 1 ==>
              inputs[0] == Arrival(f[k], true) && inputs[1..] != [] && Carries(inputs[1..], [])
  {
    assert f[k..][1..] == f[k + 1..];
    assert inputs[0] == Pause ==> Carries(inputs[1..], f[k..]);
    assert inputs[1..] == [] || |inputs| > 1;
    if |inputs| > 1 {
      assert inputs[1..][|inputs[1..]| - 1] == Pause;
    }
  }

  lemma RunOneStep(c: Settings, h: History, inputs: seq<Input>, base: seq<Out>, emitted: seq<Out>)
    requires WellFormed(h.hw) && inputs != [] && h.emitted == base + emitted
    ensures var h' := Observe(c, h, inputs[0]);
            && h'.hw == Step(c, h.hw, inputs[0]) && h'.emitted == base + (emitted + Emits(h.hw))
            && Run(c, h, inputs) == Run(c, h', inputs[1..])
  {
  }

  lemma {:induction false} RunFrame(c: Settings, h: History, inputs: seq<Input>, f: seq<Byte>, skip: nat, k: nat,
                                    base: seq<Out>, emitted: seq<Out>)
    requires InFrame(c, h.hw, f, skip, k, emitted) && skip <= 1 && h.emitted == base + emitted
    requires Chunk(inputs, f[k..])
    ensures var h' := Run(c, h, inputs);
            Settled(h'.hw) && h'.emitted == base + Marked(c, f, Crc(INIT, f[skip..]) != RESIDUE)
    decreases |inputs|
  {
    hide *;
    InFrameBounds(c, h.hw, f, skip, k, emitted);
    ChunkTail(inputs, f, k);
    RunOneStep(c, h, inputs, base, emitted);
    var h' := Observe(c, h, inputs[0]);
    var next := emitted + Emits(h.hw);
    if inputs[0] == Pause {
      GapStep(c, h.hw, f, skip, k, emitted);
      RunFrame(c, h', inputs[1..], f, skip, k, base, next);
    } else if k < |f| - 1 {
      ByteStep(c, h.hw, f, skip, k, emitted);
      RunFrame(c, h', inputs[1..], f, skip, k + 1, base, next);
    } else {
      LastByteStep(c, h.hw, f, skip, emitted);
      RunEnding(c, h', inputs[1..], f, skip, base, next);
    }
  }

  lemma RunEnding(c: Settings, h: History, inputs: seq<Input>, f: seq<Byte>, skip: nat, base: seq<Out>, emitted: seq<Out>)
    requires Ending(c, h.hw, f, skip, emitted) && h.emitted == base + emitted
    requires Carries(inputs, []) && inputs != []
    ensures var h' := Run(c, h, inputs);
            Settled(h'.hw) && h'.emitted == base + Marked(c, f, Crc(INIT, f[skip..]) != RESIDUE)
  {
    assert WellFormed(h.hw) && Complete(f);
    IdleSettles(c, h.hw, f, skip, emitted);
    EndingEmits(c, h.hw, f, skip, emitted);
    var h' := Observe(c, h, Pause);
    assert h'.emitted == base + (emitted + Emits(h.hw));
    RunSettled(c, h', inputs[1..]);
    hide Ending, Settled, Crc, Marked, Emits, Step;
  }

  // ---------------------------------------------------------------- main results

  /** One frame with an idle cycle behind it yields exactly its payload if it is an IPv4 frame for this station, with
      the last payload byte marked and flagged bad if and only if the check sequence is wrong, and nothing otherwise. */
  lemma FrameYieldsPayload(c: Settings, h: History, inputs: seq<Input>, f: seq<Byte>)
    requires Settled(h.hw) && Complete(f) && Chunk(inputs, f)
    ensures var h' := Run(c, h, inputs); Settled(h'.hw) && h'.emitted == h.emitted + Expected(c, f)
  {
    SettledIsInFrame(c, h.hw, f);
    assert f[0..] == f;
    RunFrame(c, h, inputs, f, 0, 0, h.emitted, []);
    var n := |f| - 4;
    assert f == f[..n] + f[n..];
    ResidueIffFcs(f[..n], f[n..]);
    hide InFrame, Settled, Crc, Marked, Run, Chunk;
  }

  /** Byte for byte: what one frame yields. */
  lemma FrameByPosition(c: Settings, h: History, inputs: seq<Input>, f: seq<Byte>)
    requires Settled(h.hw) && Complete(f) && Chunk(inputs, f)
    ensures WellFormed(h.hw) && h.emitted <= Run(c, h, inputs).emitted
    ensures var out, n := Run(c, h, inputs).emitted[|h.emitted|..], |f| - 18;
            if && (f[..6] == c.ownMac || forall j :: 0 <= j < 6 ==> f[j] == 0xFF)
               && (!c.filterSource || f[6..12] == c.peerMac || forall j :: 6 <= j < 12 ==> f[j] == 0xFF)
               && f[12] == 0x08 && f[13] == 0x00
            then
              && |out| == n
              && forall j :: 0 <= j < n ==>
                   && out[j].data == f[14 + j] && (out[j].last <==> j == n - 1)
                   && (out[j].bad <==> j == n - 1 && f[|f| - 4..] != Fcs(Crc(INIT, f[..|f| - 4])))
            else out == []
  {
    hide Settled, Run, Chunk, Crc, Fcs;
    FrameYieldsPayload(c, h, inputs, f);
    SettledIsWellFormed(h.hw);
    assert f[12..14] == [f[12], f[13]];
    assert (forall j :: 6 <= j < 12 ==> f[j] == 0xFF) <==> f[6..12] == BROADCAST_ADDRESS by {
      assert forall j :: 6 <= j < 12 ==> f[6..12][j - 6] == f[j];
    }
  }

  predicate Chunks(chunks: seq<seq<Input>>, fs: seq<seq<Byte>>) {
    |chunks| == |fs| && forall i :: 0 <= i < |fs| ==> Complete(fs[i]) && Chunk(chunks[i], fs[i])
  }

  function ExpectedOf(c: Settings, fs: seq<seq<Byte>>): seq<Out>
    requires forall i :: 0 <= i < |fs| ==> Complete(fs[i])
  {
    if fs == [] then [] else Expected(c, fs[0]) + ExpectedOf(c, fs[1..])
  }

  lemma {:induction false} RunAppend(c: Settings, h: History, a: seq<Input>, b: seq<Input>)
    requires WellFormed(h.hw)
    ensures Run(c, h, a + b) == Run(c, Run(c, h, a), b)
    decreases |a|
  {
    hide Observe;
    if a == [] {
      assert a + b == b;
    } else {
      assert (a + b)[1..] == a[1..] + b;
      RunAppend(c, Observe(c, h, a[0]), a[1..], b);
    }
  }

  lemma SettledIsWellFormed(s: Regs)
    requires Settled(s)
    ensures WellFormed(s)
  {
  }

  lemma FirstFrame(c: Settings, chunks: seq<seq<Input>>, fs: seq<seq<Byte>>)
    requires Chunks(chunks, fs) && fs != []
    ensures |chunks| == |fs| && Complete(fs[0]) && Chunk(chunks[0], fs[0]) && Chunks(chunks[1..], fs[1..])
    ensures forall i :: 0 <= i < |fs| ==> Complete(fs[i])
    ensures Flatten(chunks) == chunks[0] + Flatten(chunks[1..])
    ensures ExpectedOf(c, fs) == Expected(c, fs[0]) + ExpectedOf(c, fs[1..])
  {
    hide Complete, Chunk, Expected;
  }

  /** Any sequence of frames, with any gaps inside and an idle cycle behind each, yields exactly their payloads. */
  lemma {:induction false} FramesYieldPayloads(c: Settings, h: History, chunks: seq<seq<Input>>, fs: seq<seq<Byte>>)
    requires Settled(h.hw) && Chunks(chunks, fs)
    ensures var h' := Run(c, h, Flatten(chunks)); Settled(h'.hw) && h'.emitted == h.emitted + ExpectedOf(c, fs)
    decreases |fs|
  {
    SettledIsWellFormed(h.hw);
    if fs != [] {
      hide *;
      FirstFrame(c, chunks, fs);
      FrameYieldsPayload(c, h, chunks[0], fs[0]);
      RunAppend(c, h, chunks[0], Flatten(chunks[1..]));
      FramesYieldPayloads(c, Run(c, h, chunks[0]), chunks[1..], fs[1..]);
      Associative(h.emitted, Expected(c, fs[0]), ExpectedOf(c, fs[1..]));
    }
  }

  // ---------------------------------------------------------------- the count of dropped frames

  lemma DroppedStep(c: Settings, s: Regs, i: Input)
    requires WellFormed(s)
    ensures Step(c, s, i).dropped
            == if i.Arrival? && i.last && s.state == Discard then (s.dropped + 1) % 0x10000 else s.dropped
  {
    hide Update, RingStep, NextState, RingFull, ShiftIn;
  }

  lemma {:induction false} PausesKeepCount(c: Settings, h: History, inputs: seq<Input>)
    requires WellFormed(h.hw) && Carries(inputs, [])
    ensures Run(c, h, inputs).hw.dropped == h.hw.dropped
    decreases |inputs|
  {
    hide Step;
    if inputs != [] {
      DroppedStep(c, h.hw, Pause);
      PausesKeepCount(c, Observe(c, h, Pause), inputs[1..]);
    }
  }

  lemma {:induction false} RunCounted(c: Settings, h: History, inputs: seq<Input>, f: seq<Byte>, k: nat, emitted: seq<Out>)
    requires InFrame(c, h.hw, f, 0, k, emitted) && Chunk(inputs, f[k..])
    ensures WellFormed(h.hw) && Complete(f)
    ensures Run(c, h, inputs).hw.dropped == if Accepted(c, f) then h.hw.dropped else (h.hw.dropped + 1) % 0x10000
    decreases |inputs|
  {
    hide *;
    InFrameBounds(c, h.hw, f, 0, k, emitted);
    ChunkTail(inputs, f, k);
    Associative(h.emitted, [], []);
    CountedStep(c, h, inputs, f, k, emitted);
    var h', next := Observe(c, h, inputs[0]), emitted + Emits(h.hw);
    if inputs[0] == Pause {
      GapStep(c, h.hw, f, 0, k, emitted);
      RunCounted(c, h', inputs[1..], f, k, next);
    } else if k < |f| - 1 {
      ByteStep(c, h.hw, f, 0, k, emitted);
      RunCounted(c, h', inputs[1..], f, k + 1, next);
    } else {
      PausesKeepCount(c, h', inputs[1..]);
    }
  }

  lemma CountedStep(c: Settings, h: History, inputs: seq<Input>, f: seq<Byte>, k: nat, emitted: seq<Out>)
    requires InFrame(c, h.hw, f, 0, k, emitted) && inputs != []
    requires inputs[0].Arrival? ==> inputs[0].last == (k == |f| - 1)
    ensures WellFormed(h.hw) && Complete(f)
    ensures var h' := Observe(c, h, inputs[0]);
            && h'.hw == Step(c, h.hw, inputs[0]) && Run(c, h, inputs) == Run(c, h', inputs[1..])
            && h'.hw.dropped
               == if inputs[0].Arrival? && k == |f| - 1 && !Accepted(c, f) then (h.hw.dropped + 1) % 0x10000 else h.hw.dropped
  {
    hide InFrame, Step, Accepted, WellFormed, Complete;
    InFrameBounds(c, h.hw, f, 0, k, emitted);
    InFrameState(c, h.hw, f, 0, k, emitted);
    DroppedStep(c, h.hw, inputs[0]);
    LastState(c, f);
  }

  lemma InFrameState(c: Settings, s: Regs, f: seq<Byte>, skip: nat, k: nat, emitted: seq<Out>)
    requires InFrame(c, s, f, skip, k, emitted)
    ensures s.state == StateAt(c, f, k)
  {
    hide StateAt, PayloadPart, Crc;
  }

  function Rejected(c: Settings, fs: seq<seq<Byte>>): nat
    requires forall i :: 0 <= i < |fs| ==> Complete(fs[i])
  {
    if fs == [] then 0
    else
      assert Complete(fs[0]);
      (if Accepted(c, fs[0]) then 0 else 1) + Rejected(c, fs[1..])
  }

  /** The counter of dropped frames goes up by the number of frames that are not for this station, modulo 2^16. */
  lemma {:induction false} FramesAreCounted(c: Settings, h: History, chunks: seq<seq<Input>>, fs: seq<seq<Byte>>)
    requires Settled(h.hw) && Chunks(chunks, fs)
    ensures WellFormed(h.hw)
    ensures Run(c, h, Flatten(chunks)).hw.dropped == (h.hw.dropped + Rejected(c, fs)) % 0x10000
    decreases |fs|
  {
    hide Settled, Complete, Chunk, Accepted, Run, Expected, ExpectedOf;
    SettledIsWellFormed(h.hw);
    CountIsSmall(h.hw);
    if fs != [] {
      FirstFrame(c, chunks, fs);
      FrameYieldsPayload(c, h, chunks[0], fs[0]);
      FrameIsCounted(c, h, chunks[0], fs[0]);
      RunAppend(c, h, chunks[0], Flatten(chunks[1..]));
      FramesAreCounted(c, Run(c, h, chunks[0]), chunks[1..], fs[1..]);
    } else {
      NothingRun(c, h);
    }
  }

  lemma NothingRun(c: Settings, h: History)
    requires WellFormed(h.hw)
    ensures Run(c, h, []) == h
  {
  }

  lemma CountIsSmall(s: Regs)
    requires WellFormed(s)
    ensures s.dropped < 0x10000
  {
  }

  lemma FrameIsCounted(c: Settings, h: History, inputs: seq<Input>, f: seq<Byte>)
    requires Settled(h.hw) && Complete(f) && Chunk(inputs, f)
    ensures WellFormed(h.hw)
    ensures Run(c, h, inputs).hw.dropped == if Accepted(c, f) then h.hw.dropped else (h.hw.dropped + 1) % 0x10000
  {
    hide InFrame, Run, Settled, Chunk, Accepted;
    SettledIsWellFormed(h.hw);
    SettledIsInFrame(c, h.hw, f);
    assert f[0..] == f;
    RunCounted(c, h, inputs, f, 0, []);
  }

  /** A check-sequence register that missed the first byte of a valid frame never ends at the residue. */
  lemma MissedFirstByte(g: seq<Byte>)
    requires g != [] && Crc(INIT, g) == RESIDUE
    ensures Crc(INIT, g[1..]) != RESIDUE
  {
    FirstByteMatters(g[0]);
    assert g == [g[0]] + g[1..];
    CrcAppend(INIT, [g[0]], g[1..]);
    assert [g[0]][..0] == [];
    assert Crc(INIT, [g[0]]) == Absorb(INIT, g[0]);
    hide Absorb;
    if Crc(INIT, g[1..]) == RESIDUE {
      CrcIsSerial(INIT, g[1..]);
      CrcIsSerial(Absorb(INIT, g[0]), g[1..]);
      SuffixInjective(Absorb(INIT, g[0]), INIT, Wire(g[1..]));
    }
  }

  /** The idle cycle is needed: a valid frame whose first byte comes right behind the last byte of another frame is
      always flagged bad. */
  lemma BackToBackIsFlagged(c: Settings, h: History, f: seq<Byte>, skip: nat, base: seq<Out>, emitted: seq<Out>,
                            inputs: seq<Input>, g: seq<Byte>)
    requires Ending(c, h.hw, f, skip, emitted) && h.emitted == base + emitted
    requires Complete(g) && Chunk(inputs, g) && inputs[0] != Pause
    requires Crc(INIT, g) == RESIDUE
    ensures Run(c, h, inputs).emitted == base + Marked(c, f, Crc(INIT, f[skip..]) != RESIDUE) + Marked(c, g, true)
  {
    assert WellFormed(h.hw) && Complete(f);
    hide Emits, Step, Crc, Marked, Run, Carries, InFrame;
    assert g[0..] == g;
    ChunkTail(inputs, g, 0);
    EndingEmits(c, h.hw, f, skip, emitted);
    BackToBackStep(c, h.hw, f, skip, emitted, g);
    RunOneStep(c, h, inputs, base, emitted);
    var first := base + Marked(c, f, Crc(INIT, f[skip..]) != RESIDUE);
    RunFrame(c, Observe(c, h, inputs[0]), inputs[1..], g, 1, 1, first, []);
    MissedFirstByte(g);
  }

  // ---------------------------------------------------------------- the clocked entities

  class CircularBuffer {
    const buffers: array<Byte>
    var readPointer: nat
    var writePointer: nat

    function Registers(): Ring
      reads this, buffers
    {
      Ring(buffers[..], readPointer, writePointer)
    }

    constructor ()
      ensures Registers() == Ring([0, 0, 0, 0], 0, 0) && fresh(buffers)
    {
      buffers := new Byte[4](_ => 0);
      readPointer, writePointer := 0, 0;
    }

    method Clock(reset: bool, write: bool, data: Byte, read: bool)
      requires RingWellFormed(Registers())
      modifies this, buffers
      ensures Registers() == RingStep(old(Registers()), reset, write, data, read)
    {
      var emptySig := writePointer == readPointer;
      if write {
        buffers[writePointer % 4] := data;
        writePointer := (writePointer + 1) % 8;
      }
      if read && !emptySig {
        readPointer := (readPointer + 1) % 8;
      }
      if reset {
        readPointer, writePointer := 0, 0;
      }
    }
  }

  class Deframer {
    const settings: Settings
    const fcs: Generator
    const delayLine: CircularBuffer
    var state: State
    var srcMac: Mac
    var dstMac: Mac
    var fcsReset: bool
    var payloadFinished: bool
    var r1Data: Byte
    var r1Valid: bool
    var dropped: nat
    var outValid: bool
    var output: Out

    function Registers(): Regs
      reads this, fcs, delayLine, delayLine.buffers
    {
      Regs(state, srcMac, dstMac, fcsReset, fcs.Registers(), payloadFinished, r1Data, r1Valid,
                delayLine.Registers(), dropped)
    }

    constructor (settings: Settings)
      ensures Settled(Registers()) && this.settings == settings
      ensures fresh(fcs) && fresh(delayLine) && fresh(delayLine.buffers)
    {
      this.settings := settings;
      fcs := new Generator();
      delayLine := new CircularBuffer();
      state, srcMac, dstMac := Idle, [0, 0, 0, 0, 0, 0], [0, 0, 0, 0, 0, 0];
      fcsReset, payloadFinished, r1Data, r1Valid, dropped := false, false, 0, false, 0;
      outValid, output := false, Out(0, false, false);
    }

    /** The address shift registers, for a byte that arrives in the given state. */
    method AddressProcess(before: State, byte: Byte)
      modifies this`srcMac, this`dstMac
      ensures srcMac == if before.Header? && 6 <= before.k <= 11 then ShiftIn(old(srcMac), byte) else old(srcMac)
      ensures dstMac == if before == Idle || (before.Header? && before.k <= 5) then ShiftIn(old(dstMac), byte) else old(dstMac)
    {
      if before.Header? && 6 <= before.k <= 11 {
        srcMac := srcMac[1..] + [byte];
      } else if before == Idle || (before.Header? && before.k <= 5) {
        dstMac := dstMac[1..] + [byte];
      }
    }

    /** The header state machine, for a byte that arrives; s are the registers before the cycle. */
    method StateProcess(ghost s: Regs, byte: Byte, last: bool)
      requires WellFormed(s) && state == s.state && srcMac == s.srcMac && dstMac == s.dstMac
      requires payloadFinished == s.payloadFinished && dropped == s.dropped
      modifies this`state, this`fcsReset, this`r1Data, this`r1Valid, this`payloadFinished, this`dropped
      ensures var s' := Step(settings, s, Arrival(byte, last));
              && state == s'.state && r1Valid == s'.r1Valid && r1Data == s'.r1Data && fcsReset == s'.fcsReset
              && payloadFinished == s'.payloadFinished && dropped == s'.dropped
    {
      hide Update, RingStep, RingFull, DestinationOk, SourceOk, ShiftIn;
      fcsReset, r1Valid, r1Data := false, false, 0;
      match state {
        case Idle =>
          payloadFinished := false;
          state := Header(1);
        case Header(k) =>
          if k == 6 && !DestinationOk(settings, dstMac) {
            state := Discard;
          } else if k == 12 && (!SourceOk(settings, srcMac) || byte != 0x08) {
            state := Discard;
          } else if k == 13 {
            state := if byte != 0x00 then Discard else Payload;
          } else {
            state := Header(k + 1);
          }
        case Payload =>
          r1Data, r1Valid := byte, true;
          if last {
            state, fcsReset, payloadFinished := Idle, true, true;
          }
        case Discard =>
          if last {
            state, fcsReset := Idle, true;
            dropped := (dropped + 1) % 0x10000;
          }
      }
    }

    /** The output registers. */
    method OutputProcess()
      requires WellFormed(Registers())
      modifies this`outValid, this`output
      ensures Emits(Registers()) == if outValid then [output] else []
    {
      outValid := RingFull(delayLine.Registers()) && !RingEmpty(delayLine.Registers()) && r1Valid;
      var matches := fcs.Verifies();
      output := Out(delayLine.buffers[delayLine.readPointer % 4], payloadFinished, payloadFinished && !matches);
    }

    /** The delay line and the output registers behind it. */
    method DelayProcess()
      requires WellFormed(Registers())
      modifies this`outValid, this`output, delayLine, delayLine.buffers
      ensures delayLine.Registers()
              == RingStep(old(delayLine.Registers()), payloadFinished, r1Valid, r1Data, RingFull(old(delayLine.Registers())) && r1Valid)
      ensures old(Emits(Registers())) == if outValid then [output] else []
    {
      hide RingStep, RingFull, Emits;
      OutputProcess();
      delayLine.Clock(payloadFinished, r1Valid, r1Data, RingFull(delayLine.Registers()) && r1Valid);
    }

    method Clock(i: Input)
      requires WellFormed(Registers())
      modifies this, fcs, delayLine, delayLine.buffers
      ensures Registers() == Step(settings, old(Registers()), i)
      ensures Emits(old(Registers())) == if outValid then [output] else []
    {
      hide Update, RingStep, RingFull, ShiftIn, NextState, Emits;
      ghost var s := Registers();
      DelayProcess();
      match i {
        case Pause =>
          fcs.Clock(fcsReset, 0, false, false);
          fcsReset, r1Valid, r1Data := false, false, 0;
        case Arrival(byte, last) =>
          fcs.Clock(fcsReset, byte, true, true);
          var before := state;
          StateProcess(s, byte, last);
          AddressProcess(before, byte);
      }
    }
  }
}
