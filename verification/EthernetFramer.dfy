/** Ethernet framer: a header state machine and a check-sequence state machine under backpressure. */
module EthernetFramer {
  import opened BitVectors
  import opened ByteStream
  import opened EthernetFcs
  import opened Options

  /** Header(k) sends header byte k; Gap(j) waits while the check sequence is appended. */
  datatype State = Idle | Header(k: nat) | Payload | Gap(j: nat)

  /** fcsPhase is 0 while data passes, then 1 to 4 for the check-sequence bytes. */
  datatype Regs = Regs(
    state: State, arp: bool, destMac: Mac, framedData: Byte, framedValid: bool, framedLast: bool,
    fcsPhase: nat, fcsReset: bool, fcs: FcsRegs,
    outData: Byte, outValid: bool, outLast: bool)

  /** user selects the ethertype; ready is m_axis_tready. */
  datatype Input = Input(enable: bool, destMac: Mac, data: Byte, user: bool, valid: bool, last: bool, ready: bool)

  predicate WellFormed(s: Regs) {
    s.fcsPhase <= 4 && (s.state.Header? ==> s.state.k < 14) && (s.state.Gap? ==> 1 <= s.state.j <= 4)
  }

  /** After a reset cycle; the check-sequence register itself is not yet reset. */
  predicate JustReset(s: Regs) {
    && s.state == Idle && !s.framedValid && !s.framedLast && s.fcsPhase == 0 && s.fcsReset && !s.outValid
  }

  /** Destination, source, ethertype 0806 for ARP and 0800 for IPv4. */
  function HeaderOf(dest: Mac, source: Mac, arp: bool): (h: seq<Byte>)
    ensures |h| == 14
  {
    dest + source + [0x08, if arp then 0x06 else 0x00]
  }

  predicate OutputReady(s: Regs, i: Input) { i.ready || !s.outValid }

  predicate Starts(s: Regs, i: Input) { OutputReady(s, i) && s.state == Idle && i.valid && i.enable }

  predicate Accepts(s: Regs, i: Input) { OutputReady(s, i) && s.state == Payload && i.valid }

  function NextState(state: State, i: Input): State {
    match state
    case Idle => if i.valid && i.enable then Header(0) else Idle
    case Header(k) => if k == 13 then Payload else Header(k + 1)
    case Payload => if i.valid && i.last then Gap(1) else Payload
    case Gap(j) => if j == 4 then Idle else Gap(j + 1)
  }

  /** The check sequence follows the last byte of a frame. */
  function NextPhase(s: Regs): (p: nat)
    requires WellFormed(s)
    ensures p <= 4
  {
    if s.fcsPhase == 0 then (if s.framedLast then 1 else 0) else if s.fcsPhase == 4 then 0 else s.fcsPhase + 1
  }

  /** The byte that enters the first pipeline stage, if it is valid. */
  function NextByte(s: Regs, source: Mac, i: Input): Byte
    requires WellFormed(s)
  {
    if s.state.Header? then HeaderOf(s.destMac, source, s.arp)[s.state.k] else if s.state == Payload then i.data else s.framedData
  }

  function Step(s: Regs, source: Mac, i: Input): (s': Regs)
    requires WellFormed(s)
    ensures WellFormed(s')
  {
    if !OutputReady(s, i) then
      s.(fcs := Update(s.fcs, s.fcsReset, s.framedData, false, false))
    else
      Regs(
        NextState(s.state, i),
        if Starts(s, i) then i.user else s.arp,
        if Starts(s, i) then i.destMac else s.destMac,
        NextByte(s, source, i),
        s.state.Header? || (s.state == Payload && i.valid),
        s.state == Payload && i.valid && i.last,
        NextPhase(s),
        s.fcsPhase == 4,
        Update(s.fcs, s.fcsReset, s.framedData, s.fcsPhase > 0 || s.framedValid, s.fcsPhase == 0 && s.framedValid),
        if s.fcsPhase == 0 then s.framedData else s.fcs.fcsByte,
        s.fcsPhase > 0 || s.framedValid,
        s.fcsPhase == 4)
  }

  /** The words taken from the output in this cycle. */
  function Delivers(s: Regs, i: Input): seq<Word> {
    if i.ready && s.outValid then [Word(s.outData, s.outLast)] else []
  }

  // ---------------------------------------------------------------- what is sent

  datatype Packet = Packet(dest: Mac, arp: bool, payload: seq<Byte>)

  /** Destination, source, ethertype, payload. */
  function Body(p: Packet, source: Mac): seq<Byte> {
    p.dest + source + [0x08, if p.arp then 0x06 else 0x00] + p.payload
  }

  lemma BodyParts(p: Packet, source: Mac)
    ensures Body(p, source) == HeaderOf(p.dest, source, p.arp) + p.payload
  {
  }

  /** The four check-sequence bytes of a frame body, the last one marked. */
  function FcsOuts(body: seq<Byte>): (o: seq<Word>)
    ensures |o| == 4
  {
    var f := Fcs(Crc(INIT, body));
    [Word(f[0], false), Word(f[1], false), Word(f[2], false), Word(f[3], true)]
  }

  function Frame(p: Packet, source: Mac): seq<Word> {
    Plain(Body(p, source)) + FcsOuts(Body(p, source))
  }

  function Frames(ps: seq<Packet>, source: Mac): seq<Word> {
    if ps == [] then [] else Frames(ps[..|ps| - 1], source) + Frame(ps[|ps| - 1], source)
  }

  /** The registers with the packets accepted completely, the one being accepted, and the words delivered. */
  datatype History = History(hw: Regs, packets: seq<Packet>, open: Option<Packet>, delivered: seq<Word>)

  function Observe(h: History, source: Mac, i: Input): (h': History)
    requires WellFormed(h.hw)
    ensures WellFormed(h'.hw)
  {
    var next := History(Step(h.hw, source, i), h.packets, h.open, h.delivered + Delivers(h.hw, i));
    if Starts(h.hw, i) then next.(open := Some(Packet(i.destMac, i.user, [])))
    else if Accepts(h.hw, i) && h.open.Some? then
      var p := h.open.value.(payload := h.open.value.payload + [i.data]);
      if i.last then next.(packets := h.packets + [p], open := None) else next.(open := Some(p))
    else next
  }

  /** Everything that has to be delivered for what was accepted so far. */
  function Spec(h: History, source: Mac): seq<Word> {
    Frames(h.packets, source) + (if h.open.Some? then Plain(Body(h.open.value, source)) else [])
  }

  /** The body of the frame being sent, or of the one sent last. */
  function Current(h: History, source: Mac): seq<Byte> {
    if h.open.Some? then Body(h.open.value, source)
    else if h.packets != [] then Body(h.packets[|h.packets| - 1], source)
    else []
  }

  // ---------------------------------------------------------------- the invariant

  function OutPart(s: Regs): seq<Word> { if s.outValid then [Word(s.outData, s.outLast)] else [] }

  function FramedPart(s: Regs): seq<Word> { if s.framedValid then [Word(s.framedData, false)] else [] }

  /** What is to come behind the output register. */
  function Tail(s: Regs, source: Mac, body: seq<Byte>): seq<Word>
    requires WellFormed(s)
  {
    if s.fcsPhase > 0 then FcsOuts(body)[s.fcsPhase - 1..]
    else FramedPart(s) + match s.state
                         case Header(k) => Plain(HeaderOf(s.destMac, source, s.arp)[k..])
                         case Gap(_) => FcsOuts(body)
                         case Idle => []
                         case Payload => []
  }

  /** The two state machines move in step. */
  predicate Lockstep(s: Regs) {
    && WellFormed(s)
    && (s.fcsPhase > 0 ==> s.state == (if s.fcsPhase == 4 then Idle else Gap(s.fcsPhase + 1)) && !s.framedValid)
    && (s.state.Gap? && s.state.j >= 2 ==> s.fcsPhase == s.state.j - 1)
    && (s.framedLast <==> s.state == Gap(1))
    && (s.state == Gap(1) ==> s.framedValid && s.fcsPhase == 0)
    && (s.state == Idle || s.state == Header(0) ==> !s.framedValid)
    && (s.fcsReset ==> s.fcsPhase == 0 && (s.state == Idle || s.state == Header(0)))
  }

  predicate OpenMatches(h: History, source: Mac) {
    var s := h.hw;
    && (h.open.Some? <==> s.state.Header? || s.state == Payload)
    && (h.open.Some? ==> s.destMac == h.open.value.dest && s.arp == h.open.value.arp)
    && (s.state.Header? ==> h.open.value.payload == []
                            && (0 < s.state.k <= 14 ==> s.framedValid && s.framedData == HeaderOf(s.destMac, source, s.arp)[s.state.k - 1]))
    && (s.state.Gap? || s.fcsPhase > 0 ==> h.packets != [])
    && (s.framedValid && !s.state.Header? ==>
          var b := Current(h, source); b != [] && s.framedData == b[|b| - 1])
  }

  /** The bytes that have passed through the check-sequence register. */
  function Absorbed(h: History, source: Mac): seq<Byte> {
    var b := Current(h, source);
    match h.hw.state
    case Idle => []
    case Header(k) => if 0 < k <= |b| then b[..k - 1] else []
    case Payload => if h.hw.framedValid && b != [] then b[..|b| - 1] else b
    case Gap(_) => if h.hw.framedValid && b != [] then b[..|b| - 1] else b
  }

  function Shifted(c: Crc32, n: nat): Crc32 {
    if n == 0 then c else ShiftOut(Shifted(c, n - 1))
  }

  predicate CrcMatches(h: History, source: Mac) {
    var s := h.hw;
    && (s.fcsPhase == 0 && !s.fcsReset ==> s.fcs.crc == Crc(INIT, Absorbed(h, source)))
    && (1 <= s.fcsPhase <= 4 ==>
          var c := Crc(INIT, Current(h, source));
          s.fcs.crc == Shifted(c, s.fcsPhase - 1) && s.fcs.fcsByte == Fcs(c)[s.fcsPhase - 1])
  }

  /** What has to be delivered is what was delivered and what the pipeline holds. */
  ghost predicate Conserved(h: History, source: Mac)
    requires WellFormed(h.hw)
  {
    Spec(h, source) == h.delivered + (OutPart(h.hw) + Tail(h.hw, source, Current(h, source)))
  }

  ghost predicate Inv(h: History, source: Mac) {
    Lockstep(h.hw) && OpenMatches(h, source) && CrcMatches(h, source) && Conserved(h, source)
  }

  // ---------------------------------------------------------------- one cycle

  lemma LockstepKept(s: Regs, source: Mac, i: Input)
    requires Lockstep(s)
    ensures Lockstep(Step(s, source, i))
  {
    hide Update, HeaderOf;
  }

  /** A stalled cycle changes nothing but the pending reset of the check-sequence register. */
  lemma StallStep(h: History, source: Mac, i: Input)
    requires Inv(h, source) && !OutputReady(h.hw, i)
    ensures Inv(Observe(h, source, i), source)
  {
    hide Crc, Fcs, HeaderOf, Frames, Plain, FcsOuts, Shifted;
    var h' := Observe(h, source, i);
    LockstepKept(h.hw, source, i);
    assert h'.delivered == h.delivered;
    assert Current(h', source) == Current(h, source);
  }

  lemma CrcOneMore(bytes: seq<Byte>, b: Byte)
    ensures Crc(INIT, bytes + [b]) == Absorb(Crc(INIT, bytes), b)
  {
    assert (bytes + [b])[..|bytes + [b]| - 1] == bytes;
  }

  /** The frame body after the cycle. */
  lemma CurrentStep(h: History, source: Mac, i: Input)
    requires Inv(h, source)
    ensures var b, b' := Current(h, source), Current(Observe(h, source, i), source);
            && (Starts(h.hw, i) ==> b' == HeaderOf(i.destMac, source, i.user))
            && (Accepts(h.hw, i) ==> b' == b + [i.data])
            && (!Starts(h.hw, i) && !Accepts(h.hw, i) ==> b' == b)
            && (h.hw.state.Header? ==> b == HeaderOf(h.hw.destMac, source, h.hw.arp))
  {
    hide Body, HeaderOf, CrcMatches, Conserved, Step, Tail;
    if Accepts(h.hw, i) {
      var p := h.open.value;
      BodyParts(p, source);
      BodyParts(p.(payload := p.payload + [i.data]), source);
      assert HeaderOf(p.dest, source, p.arp) + (p.payload + [i.data]) == Body(p, source) + [i.data];
    }
    if Starts(h.hw, i) {
      BodyParts(Packet(i.destMac, i.user, []), source);
      assert HeaderOf(i.destMac, source, i.user) + [] == HeaderOf(i.destMac, source, i.user);
    }
    if h.hw.state.Header? {
      var p := h.open.value;
      BodyParts(p, source);
      assert HeaderOf(p.dest, source, p.arp) + [] == HeaderOf(p.dest, source, p.arp);
    }
  }

  lemma OpenStep(h: History, source: Mac, i: Input)
    requires Inv(h, source) && OutputReady(h.hw, i)
    ensures OpenMatches(Observe(h, source, i), source)
  {
    hide HeaderOf, CrcMatches, Conserved, Update, Current;
    CurrentStep(h, source, i);
    var b := Current(h, source);
    assert (b + [i.data])[|b + [i.data]| - 1] == i.data;
    if h.hw.state == Header(13) {
      HeaderNotEmpty(h.hw.destMac, source, h.hw.arp);
    }
  }

  lemma HeaderNotEmpty(dest: Mac, source: Mac, arp: bool)
    ensures var h := HeaderOf(dest, source, arp); h != [] && h[13] == h[|h| - 1]
  {
  }

  /** Everything in front of the framed register has been absorbed; the framed byte is absorbed next. */
  lemma CrcStep(h: History, source: Mac, i: Input)
    requires Inv(h, source) && OutputReady(h.hw, i)
    ensures CrcMatches(Observe(h, source, i), source)
  {
    hide Body, HeaderOf, Conserved, Crc, Fcs, Absorb, ShiftOut, FcsByte;
    CurrentStep(h, source, i);
    LockstepKept(h.hw, source, i);
    var h' := Observe(h, source, i);
    var s, b, b' := h.hw, Current(h, source), Current(h', source);
    var a := Absorbed(h, source);
    CrcOneMore(a, s.framedData);
    if s.fcsPhase > 0 {
      FcsIsShifted(Crc(INIT, b), s.fcsPhase);
    } else if s.framedValid {
      assert a + [s.framedData] == (if s.state.Header? then b[..s.state.k] else b);
      FcsIsShifted(Crc(INIT, b), 0);
    }
    hide Current;
    CrcOfNothing();
  }

  lemma CrcOfNothing()
    ensures Crc(INIT, []) == INIT
  {
  }

  lemma FcsIsShifted(c: Crc32, n: nat)
    requires n <= 4
    ensures Shifted(c, n + 1) == ShiftOut(Shifted(c, n))
    ensures n < 4 ==> Fcs(c)[n] == FcsByte(Shifted(c, n))
  {
    assert Shifted(c, 0) == c;
    assert Shifted(c, 1) == ShiftOut(c);
    assert Shifted(c, 2) == ShiftOut(ShiftOut(c));
    assert Shifted(c, 3) == ShiftOut(ShiftOut(ShiftOut(c)));
  }

  /** What the accepted input of this cycle adds to the stream. */
  function New(h: History, source: Mac, i: Input): seq<Word> {
    if Starts(h.hw, i) then Plain(HeaderOf(i.destMac, source, i.user))
    else if Accepts(h.hw, i) then
      [Word(i.data, false)] + (if i.last then FcsOuts(Current(h, source) + [i.data]) else [])
    else []
  }

  lemma PlainAppend(a: seq<Byte>, b: seq<Byte>)
    ensures Plain(a + b) == Plain(a) + Plain(b)
  {
  }

  lemma FramesGrow(ps: seq<Packet>, p: Packet, source: Mac)
    ensures Frames(ps + [p], source) == Frames(ps, source) + Frame(p, source)
  {
    assert (ps + [p])[..|ps|] == ps;
  }

  lemma SpecGrows(h: History, source: Mac, i: Input)
    requires Inv(h, source)
    ensures Spec(Observe(h, source, i), source) == Spec(h, source) + New(h, source, i)
  {
    hide Body, HeaderOf, CrcMatches, Conserved, Step, FcsOuts, Plain, Frames;
    CurrentStep(h, source, i);
    var h' := Observe(h, source, i);
    if Accepts(h.hw, i) {
      var b := Body(h.open.value, source);
      var p := h.open.value.(payload := h.open.value.payload + [i.data]);
      BodyGrows(h.open.value, source, i.data);
      PlainAppend(b, [i.data]);
      PlainOfOne([i.data]);
      if i.last {
        FramesGrow(h.packets, p, source);
      }
    }
  }

  lemma BodyGrows(p: Packet, source: Mac, b: Byte)
    ensures Body(p.(payload := p.payload + [b]), source) == Body(p, source) + [b]
  {
  }

  lemma PlainOfOne(bytes: seq<Byte>)
    requires |bytes| == 1
    ensures Plain(bytes) == [Word(bytes[0], false)]
  {
  }

  /** One ready cycle moves the head of the tail to the output register and appends what was accepted. */
  ghost predicate Moves(h: History, source: Mac, i: Input)
    requires WellFormed(h.hw)
  {
    var h' := Observe(h, source, i);
    Tail(h.hw, source, Current(h, source)) + New(h, source, i) == OutPart(h'.hw) + Tail(h'.hw, source, Current(h', source))
  }

  /** The registers after a ready cycle in which the check sequence is sent. */
  lemma FcsCycle(s: Regs, source: Mac, i: Input)
    requires Lockstep(s) && OutputReady(s, i) && s.fcsPhase > 0
    ensures var s' := Step(s, source, i);
            && s'.outValid && s'.outData == s.fcs.fcsByte && s'.outLast == (s.fcsPhase == 4)
            && s'.fcsPhase == (if s.fcsPhase == 4 then 0 else s.fcsPhase + 1) && !s'.framedValid
            && s'.state == (if s.fcsPhase < 4 then NextState(s.state, i) else if Starts(s, i) then Header(0) else Idle)
            && (s.fcsPhase < 4 ==> !Starts(s, i) && !Accepts(s, i))
            && (Starts(s, i) ==> s'.destMac == i.destMac && s'.arp == i.user)
  {
    hide Update, HeaderOf;
  }

  /** While the check sequence is sent, its next byte moves to the output register. */
  lemma MovesInFcs(h: History, source: Mac, i: Input)
    requires Inv(h, source) && OutputReady(h.hw, i) && 1 <= h.hw.fcsPhase <= 3
    ensures Moves(h, source, i)
  {
    FcsCycle(h.hw, source, i);
    CurrentStep(h, source, i);
    NextFcsWord(h, source);
    var h' := Observe(h, source, i);
    assert h'.hw == Step(h.hw, source, i);
    assert New(h, source, i) == [];
    hide Crc, Fcs, Conserved, Current, OpenMatches, Update, Absorbed, HeaderOf, Plain, Shifted, FcsOuts, CrcMatches, Step,
         Observe, Lockstep, New, NextState;
    assert Tail(h.hw, source, Current(h, source)) == OutPart(h'.hw) + Tail(h'.hw, source, Current(h', source));
  }

  lemma NextFcsWord(h: History, source: Mac)
    requires Inv(h, source) && h.hw.fcsPhase > 0
    ensures var s, c := h.hw, FcsOuts(Current(h, source));
            s.fcsPhase <= 4 && c[s.fcsPhase - 1..] == [Word(s.fcs.fcsByte, s.fcsPhase == 4)] + c[s.fcsPhase..] && c[4..] == []
  {
    hide Crc, Fcs, Conserved, Current, OpenMatches, Absorbed, HeaderOf, Plain, Shifted;
    var s, c := h.hw, FcsOuts(Current(h, source));
    assert c[s.fcsPhase - 1..] == [c[s.fcsPhase - 1]] + c[s.fcsPhase..];
    assert c[s.fcsPhase - 1] == Word(s.fcs.fcsByte, s.fcsPhase == 4);
  }

  /** With the last check-sequence byte the next frame may begin. */
  lemma MovesLast(h: History, source: Mac, i: Input)
    requires Inv(h, source) && OutputReady(h.hw, i) && h.hw.fcsPhase == 4
    ensures Moves(h, source, i)
  {
    FcsCycle(h.hw, source, i);
    CurrentStep(h, source, i);
    NextFcsWord(h, source);
    WholeHeader(i.destMac, source, i.user);
    var h' := Observe(h, source, i);
    assert h'.hw == Step(h.hw, source, i);
    assert !Starts(h.hw, i) ==> New(h, source, i) == [];
    hide Crc, Fcs, Conserved, Current, OpenMatches, Update, Absorbed, HeaderOf, Plain, Shifted, FcsOuts, CrcMatches, Step,
         Observe, Lockstep, NextState;
    assert Tail(h.hw, source, Current(h, source)) == OutPart(h'.hw);
    assert New(h, source, i) == Tail(h'.hw, source, Current(h', source));
  }

  lemma WholeHeader(dest: Mac, source: Mac, arp: bool)
    ensures Plain(HeaderOf(dest, source, arp)[0..]) == Plain(HeaderOf(dest, source, arp))
  {
    assert HeaderOf(dest, source, arp)[0..] == HeaderOf(dest, source, arp);
  }

  /** The registers after a ready cycle in which data passes. */
  lemma DataCycle(s: Regs, source: Mac, i: Input)
    requires Lockstep(s) && OutputReady(s, i) && s.fcsPhase == 0
    ensures var s' := Step(s, source, i);
            && OutPart(s') == FramedPart(s)
            && s'.state == NextState(s.state, i) && s'.fcsPhase == (if s.state == Gap(1) then 1 else 0)
            && FramedPart(s') == (match s.state
                                  case Header(k) => [Word(HeaderOf(s.destMac, source, s.arp)[k], false)]
                                  case Payload => if i.valid then [Word(i.data, false)] else []
                                  case _ => [])
            && (s.state.Header? ==> s'.destMac == s.destMac && s'.arp == s.arp)
            && (Starts(s, i) ==> s'.destMac == i.destMac && s'.arp == i.user)
  {
    hide Update, HeaderOf;
  }

  lemma MovesWhenIdle(h: History, source: Mac, i: Input)
    requires Inv(h, source) && OutputReady(h.hw, i) && h.hw.fcsPhase == 0 && h.hw.state == Idle
    ensures Moves(h, source, i)
  {
    hide Crc, Fcs, Conserved, Current, OpenMatches, Absorbed, HeaderOf, FcsOuts, CrcMatches, Plain, Step, FramedPart, OutPart;
    var s, h' := h.hw, Observe(h, source, i);
    DataCycle(s, source, i);
    CurrentStep(h, source, i);
    WholeHeader(i.destMac, source, i.user);
    assert Tail(h'.hw, source, Current(h', source)) == New(h, source, i);
    assert Tail(s, source, Current(h, source)) == OutPart(h'.hw);
  }

  lemma MovesInHeader(h: History, source: Mac, i: Input)
    requires Inv(h, source) && OutputReady(h.hw, i) && h.hw.fcsPhase == 0 && h.hw.state.Header?
    ensures Moves(h, source, i)
  {
    hide Crc, Fcs, Conserved, Current, OpenMatches, Absorbed, HeaderOf, FcsOuts, CrcMatches, Plain, Step, FramedPart, OutPart;
    var s, h' := h.hw, Observe(h, source, i);
    DataCycle(s, source, i);
    CurrentStep(h, source, i);
    HeaderRest(s.destMac, source, s.arp, s.state.k);
    assert New(h, source, i) == [];
    assert Tail(h'.hw, source, Current(h', source)) == Plain(HeaderOf(s.destMac, source, s.arp)[s.state.k..]);
  }

  lemma MovesInPayload(h: History, source: Mac, i: Input)
    requires Inv(h, source) && OutputReady(h.hw, i) && h.hw.fcsPhase == 0 && h.hw.state == Payload
    ensures Moves(h, source, i)
  {
    hide Crc, Fcs, Conserved, Current, OpenMatches, Absorbed, HeaderOf, FcsOuts, CrcMatches, Plain, Step, FramedPart, OutPart;
    var s, h' := h.hw, Observe(h, source, i);
    DataCycle(s, source, i);
    CurrentStep(h, source, i);
    assert Tail(h'.hw, source, Current(h', source)) == New(h, source, i);
    assert Tail(s, source, Current(h, source)) == OutPart(h'.hw);
  }

  lemma MovesInGap(h: History, source: Mac, i: Input)
    requires Inv(h, source) && OutputReady(h.hw, i) && h.hw.fcsPhase == 0 && h.hw.state.Gap?
    ensures Moves(h, source, i)
  {
    hide Crc, Fcs, Conserved, Current, OpenMatches, Absorbed, HeaderOf, FcsOuts, CrcMatches, Plain, Step, FramedPart, OutPart;
    var s, h' := h.hw, Observe(h, source, i);
    DataCycle(s, source, i);
    CurrentStep(h, source, i);
    assert New(h, source, i) == [];
    assert FcsOuts(Current(h, source))[0..] == FcsOuts(Current(h, source));
    assert Tail(h'.hw, source, Current(h', source)) == FcsOuts(Current(h, source));
  }

  lemma HeaderRest(dest: Mac, source: Mac, arp: bool, k: nat)
    requires k < 14
    ensures var header := HeaderOf(dest, source, arp);
            Plain(header[k..]) == [Word(header[k], false)] + Plain(header[k + 1..]) && Plain(header[14..]) == []
  {
    var header := HeaderOf(dest, source, arp);
    assert header[k..] == [header[k]] + header[k + 1..];
    PlainAppend([header[k]], header[k + 1..]);
    PlainOfOne([header[k]]);
  }

  lemma TailStep(h: History, source: Mac, i: Input)
    requires Inv(h, source) && OutputReady(h.hw, i)
    ensures Moves(h, source, i)
  {
    if h.hw.fcsPhase == 4 {
      MovesLast(h, source, i);
    } else if h.hw.fcsPhase > 0 {
      MovesInFcs(h, source, i);
    } else if h.hw.state == Idle {
      MovesWhenIdle(h, source, i);
    } else if h.hw.state.Header? {
      MovesInHeader(h, source, i);
    } else if h.hw.state == Payload {
      MovesInPayload(h, source, i);
    } else {
      MovesInGap(h, source, i);
    }
    hide *;
  }

  lemma ReadyFacts(h: History, source: Mac, i: Input)
    requires Inv(h, source) && OutputReady(h.hw, i)
    ensures WellFormed(h.hw) && Observe(h, source, i).hw == Step(h.hw, source, i)
    ensures Observe(h, source, i).delivered == h.delivered + OutPart(h.hw)
  {
    hide Step, Conserved, CrcMatches, OpenMatches;
  }

  lemma ReadyStep(h: History, source: Mac, i: Input)
    requires Inv(h, source) && OutputReady(h.hw, i)
    ensures Inv(Observe(h, source, i), source)
  {
    hide Spec, Tail, OutPart, Current, New, Lockstep, OpenMatches, CrcMatches, Step, Observe;
    ReadyFacts(h, source, i);
    LockstepKept(h.hw, source, i);
    OpenStep(h, source, i);
    CrcStep(h, source, i);
    SpecGrows(h, source, i);
    TailStep(h, source, i);
    var h' := Observe(h, source, i);
    Shuffle(Spec(h, source), h.delivered, OutPart(h.hw), Tail(h.hw, source, Current(h, source)), New(h, source, i),
            OutPart(h'.hw), Tail(h'.hw, source, Current(h', source)));
  }

  /** s is the specified stream, d what was delivered, o the output register, t the tail, n what is new. */
  lemma Shuffle(s: seq<Word>, d: seq<Word>, o: seq<Word>, t: seq<Word>, n: seq<Word>, o': seq<Word>, t': seq<Word>)
    requires s == d + (o + t) && t + n == o' + t'
    ensures s + n == d + o + (o' + t')
  {
    assert s + n == d + o + (t + n);
  }

  lemma InvStep(h: History, source: Mac, i: Input)
    requires Inv(h, source)
    ensures Inv(Observe(h, source, i), source)
  {
    if OutputReady(h.hw, i) {
      ReadyStep(h, source, i);
    } else {
      StallStep(h, source, i);
    }
    hide *;
  }

  // ---------------------------------------------------------------- main results

  function Run(h: History, source: Mac, inputs: seq<Input>): (h': History)
    requires WellFormed(h.hw)
    ensures WellFormed(h'.hw)
    decreases |inputs|
  {
    if inputs == [] then h else Run(Observe(h, source, inputs[0]), source, inputs[1..])
  }

  function Start(s: Regs): History { History(s, [], None, []) }

  lemma {:induction false} InvRun(h: History, source: Mac, inputs: seq<Input>)
    requires Inv(h, source)
    ensures Inv(Run(h, source, inputs), source)
    decreases |inputs|
  {
    assert WellFormed(h.hw);
    hide Inv, Observe;
    if inputs != [] {
      InvStep(h, source, inputs[0]);
      InvRun(Observe(h, source, inputs[0]), source, inputs[1..]);
    }
  }

  lemma InvStart(s: Regs, source: Mac)
    requires JustReset(s)
    ensures Inv(Start(s), source)
  {
  }

  /** For every pattern of stalls, gaps and enables after reset, what was delivered is a prefix of the frames of the
      accepted packets, each one header, payload and check sequence with only its last byte marked, followed by the
      packet being accepted; and the prefix lacks only what the pipeline holds. */
  lemma DeliversFrames(s: Regs, source: Mac, inputs: seq<Input>)
    requires JustReset(s)
    ensures var h := Run(Start(s), source, inputs);
            var missing := OutPart(h.hw) + Tail(h.hw, source, Current(h, source));
            && Spec(h, source) == h.delivered + missing
            && |missing| <= 16
  {
    InvStart(s, source);
    InvRun(Start(s), source, inputs);
    TailIsShort(Run(Start(s), source, inputs), source);
    hide Spec, Tail, Current, Lockstep, OpenMatches, CrcMatches;
  }

  lemma TailIsShort(h: History, source: Mac)
    requires Inv(h, source)
    ensures |Tail(h.hw, source, Current(h, source))| <= 15
  {
    hide Crc, Fcs, CrcMatches, Conserved, OpenMatches;
  }

  /** Ready cycles that are left, at most, before an idle framer has delivered everything. */
  function Work(s: Regs): nat
    requires WellFormed(s)
  {
    if s.fcsPhase > 0 then 5 - s.fcsPhase + 1
    else match s.state
         case Gap(j) => 8 - j
         case Idle => if s.outValid then 1 else 0
         case _ => 0
  }

  /** The same input for k cycles. */
  function Held(i: Input, k: nat): (inputs: seq<Input>)
    ensures |inputs| == k
  {
    seq(k, _ => i)
  }

  /** When no packet is being accepted and none is offered, ready cycles bring everything out within seven cycles. */
  lemma {:induction false} Drains(h: History, source: Mac, i: Input, k: nat)
    requires Inv(h, source) && h.open == None && i.ready && !i.valid && Work(h.hw) <= k
    ensures Run(h, source, Held(i, k)).delivered == Frames(h.packets, source)
    decreases k
  {
    hide *;
    InvIsWellFormed(h, source);
    if k == 0 {
      RunNone(h, source, i);
      NothingLeft(h, source);
    } else {
      InvStep(h, source, i);
      DrainCycle(h, source, i);
      RunOneStep(h, source, i, k);
      Drains(Observe(h, source, i), source, i, k - 1);
    }
  }

  lemma InvIsWellFormed(h: History, source: Mac)
    requires Inv(h, source)
    ensures WellFormed(h.hw)
  {
  }

  lemma RunNone(h: History, source: Mac, i: Input)
    requires WellFormed(h.hw)
    ensures Run(h, source, Held(i, 0)) == h
  {
    assert Held(i, 0) == [];
  }

  lemma RunOneStep(h: History, source: Mac, i: Input, k: nat)
    requires WellFormed(h.hw) && k > 0
    ensures Run(h, source, Held(i, k)) == Run(Observe(h, source, i), source, Held(i, k - 1))
  {
    assert Held(i, k)[1..] == Held(i, k - 1);
    hide Observe;
  }

  lemma NothingLeft(h: History, source: Mac)
    requires Inv(h, source) && h.open == None && Work(h.hw) == 0
    ensures h.delivered == Frames(h.packets, source)
  {
    assert Spec(h, source) == h.delivered;
    hide Crc, Fcs, CrcMatches, Frames, Update, HeaderOf;
  }

  lemma DrainCycle(h: History, source: Mac, i: Input)
    requires Inv(h, source) && h.open == None && i.ready && !i.valid
    ensures var h' := Observe(h, source, i);
            h'.packets == h.packets && h'.open == None && Work(h'.hw) <= if Work(h.hw) > 0 then Work(h.hw) - 1 else 0
  {
    hide Crc, Fcs, CrcMatches, Frames, Update, HeaderOf, Conserved, Current;
  }

  // ---------------------------------------------------------------- a sender that holds its packets

  /** The packets still to be accepted completely, and how many bytes of the first one were taken. */
  datatype Sender = Sender(packets: seq<Packet>, pos: nat)

  predicate SenderOk(q: Sender) {
    && (forall j :: 0 <= j < |q.packets| ==> q.packets[j].payload != [])
    && (if q.packets == [] then q.pos == 0 else q.pos < |q.packets[0].payload|)
  }

  const NOBODY: Mac := [0, 0, 0, 0, 0, 0]

  /** The next byte is offered, with its packet's address and ethertype, until it is taken. */
  function Offer(q: Sender, ready: bool): Input
    requires SenderOk(q)
  {
    if q.packets == [] then Input(true, NOBODY, 0, false, false, false, ready)
    else
      var p := q.packets[0];
      Input(true, p.dest, p.payload[q.pos], p.arp, true, q.pos == |p.payload| - 1, ready)
  }

  /** s_axis_tready */
  predicate TakesBytes(s: Regs, ready: bool) { s.state == Payload && (ready || !s.outValid) }

  function SenderStep(q: Sender, taken: bool): (q': Sender)
    requires SenderOk(q)
    ensures SenderOk(q')
  {
    if !taken || q.packets == [] then q
    else if q.pos == |q.packets[0].payload| - 1 then Sender(q.packets[1..], 0)
    else Sender(q.packets, q.pos + 1)
  }

  /** The framer with such a sender, under any pattern of m_axis_tready. */
  datatype Link = Link(framer: History, sender: Sender)

  predicate LinkOk(x: Link) { WellFormed(x.framer.hw) && SenderOk(x.sender) }

  function LinkStep(x: Link, source: Mac, ready: bool): (x': Link)
    requires LinkOk(x)
    ensures LinkOk(x')
  {
    Link(Observe(x.framer, source, Offer(x.sender, ready)), SenderStep(x.sender, TakesBytes(x.framer.hw, ready)))
  }

  function LinkRun(x: Link, source: Mac, readies: seq<bool>): (x': Link)
    requires LinkOk(x)
    ensures LinkOk(x')
    decreases |readies|
  {
    if readies == [] then x else LinkRun(LinkStep(x, source, readies[0]), source, readies[1..])
  }

  /** The open packet is what was taken of the sender's first one. */
  predicate InHand(x: Link)
    requires SenderOk(x.sender)
  {
    var q, open := x.sender, x.framer.open;
    if open.Some? then q.packets != [] && open.value == q.packets[0].(payload := q.packets[0].payload[..q.pos])
    else q.pos == 0
  }

  /** With every packet accounted for: accepted completely or still with the sender. */
  ghost predicate LinkInv(x: Link, source: Mac, all: seq<Packet>) {
    LinkOk(x) && Inv(x.framer, source) && InHand(x) && x.framer.packets + x.sender.packets == all
  }

  /** Cycles from idle to idle. */
  function Cost(packets: seq<Packet>): nat {
    if packets == [] then 0 else |packets[0].payload| + 19 + Cost(packets[1..])
  }

  /** Moving cycles that are left until everything has been delivered. */
  function LinkWork(x: Link): nat
    requires LinkOk(x)
  {
    var s, q := x.framer.hw, x.sender;
    match s.state
    case Idle =>
      if q.packets != [] then Cost(q.packets) + 2 else if s.fcsPhase > 0 then 2 else if s.outValid then 1 else 0
    case Header(k) => if q.packets == [] then 0 else 14 - k + |q.packets[0].payload| + Cost(q.packets[1..]) + 6
    case Payload => if q.packets == [] then 0 else |q.packets[0].payload| - q.pos + Cost(q.packets[1..]) + 6
    case Gap(j) => 7 - j + Cost(q.packets)
  }

  /** What becomes of the sender's packets in a cycle. */
  lemma HandStep(x: Link, source: Mac, ready: bool)
    requires LinkOk(x) && OpenMatches(x.framer, source) && InHand(x)
    ensures var x' := LinkStep(x, source, ready);
            InHand(x') && x'.framer.packets + x'.sender.packets == x.framer.packets + x.sender.packets
  {
    hide Step, HeaderOf, Current;
    var q := x.sender;
    if x.framer.open.Some? {
      var p := q.packets[0];
      assert p.payload[..q.pos] + [p.payload[q.pos]] == p.payload[..q.pos + 1];
      assert p.payload[..|p.payload|] == p.payload;
      assert q.packets == [p] + q.packets[1..];
    } else if q.packets != [] {
      assert q.packets[0].payload[..0] == [];
    }
  }

  /** No cycle adds work, and a ready one removes some. */
  lemma LinkWorkStep(x: Link, source: Mac, ready: bool)
    requires LinkOk(x) && Lockstep(x.framer.hw) && OpenMatches(x.framer, source) && InHand(x)
    ensures var x' := LinkStep(x, source, ready);
            && LinkWork(x') <= LinkWork(x)
            && (ready && LinkWork(x) > 0 ==> LinkWork(x') < LinkWork(x))
  {
    hide HeaderOf, Update, NextByte, Current;
  }

  lemma LinkInvStep(x: Link, source: Mac, ready: bool, all: seq<Packet>)
    requires LinkInv(x, source, all)
    ensures LinkOk(x)
    ensures var x' := LinkStep(x, source, ready);
            && LinkInv(x', source, all) && LinkWork(x') <= LinkWork(x)
            && (ready && LinkWork(x) > 0 ==> LinkWork(x') < LinkWork(x))
  {
    hide Observe, SenderStep, Offer, TakesBytes, LinkWork, InHand, Lockstep, OpenMatches, CrcMatches, Conserved;
    HandStep(x, source, ready);
    LinkWorkStep(x, source, ready);
    InvStep(x.framer, source, Offer(x.sender, ready));
  }

  lemma LinkDone(x: Link, source: Mac, all: seq<Packet>)
    requires LinkInv(x, source, all)
    ensures LinkOk(x) && (LinkWork(x) == 0 ==> x.framer.delivered == Frames(all, source))
  {
    hide Frames, Spec, Tail, Current, CrcMatches, Conserved;
    if LinkWork(x) == 0 {
      assert x.framer.packets + [] == x.framer.packets;
      NothingLeft(x.framer, source);
    }
  }

  lemma {:induction false} LinkDrains(x: Link, source: Mac, readies: seq<bool>, all: seq<Packet>)
    requires LinkInv(x, source, all)
    ensures LinkOk(x) && (Readies(readies) >= LinkWork(x) ==> LinkRun(x, source, readies).framer.delivered == Frames(all, source))
    decreases |readies|
  {
    hide LinkInv, LinkOk, LinkWork, LinkStep;
    LinkDone(x, source, all);
    if readies != [] {
      LinkInvStep(x, source, readies[0], all);
      LinkDrains(LinkStep(x, source, readies[0]), source, readies[1..], all);
    }
  }

  /** Offered packets are framed: whatever the pattern of stalls, all packets of a sender that holds each byte until it is
      taken have been delivered as frames once there were as many ready cycles as their bytes, 19 for each packet and two. */
  lemma OffersAreFramed(s: Regs, source: Mac, ps: seq<Packet>, readies: seq<bool>)
    requires JustReset(s) && (forall j :: 0 <= j < |ps| ==> ps[j].payload != []) && Readies(readies) >= Cost(ps) + 2
    ensures LinkRun(Link(Start(s), Sender(ps, 0)), source, readies).framer.delivered == Frames(ps, source)
  {
    hide Lockstep, OpenMatches, CrcMatches, Conserved, Frames;
    InvStart(s, source);
    assert [] + ps == ps;
    LinkDrains(Link(Start(s), Sender(ps, 0)), source, readies, ps);
  }

  function Data(w: seq<Word>): (b: seq<Byte>)
    ensures |b| == |w|
  {
    seq(|w|, j requires 0 <= j < |w| => w[j].data)
  }

  /** The words of a frame, field by field; the residue says that the last four bytes check the others. */
  predicate IsFrame(p: Packet, source: Mac, w: seq<Word>) {
    && |w| == |p.payload| + 18
    && (forall j :: 0 <= j < 6 ==> w[j].data == p.dest[j] && w[6 + j].data == source[j])
    && w[12].data == 0x08 && w[13].data == (if p.arp then 0x06 else 0x00)
    && (forall j :: 0 <= j < |p.payload| ==> w[14 + j].data == p.payload[j])
    && Crc(INIT, Data(w)) == RESIDUE
    && (forall j :: 0 <= j < |w| ==> (w[j].last <==> j == |w| - 1))
  }

  lemma FrameByPosition(p: Packet, source: Mac)
    ensures IsFrame(p, source, Frame(p, source))
  {
    hide Crc, Fcs;
    var b, w := Body(p, source), Frame(p, source);
    var f := Fcs(Crc(INIT, b));
    assert Data(w) == b + f;
    ResidueIffFcs(b, f);
  }

  predicate AreFrames(ps: seq<Packet>, source: Mac, ws: seq<seq<Word>>) {
    |ws| == |ps| && forall j :: 0 <= j < |ps| ==> IsFrame(ps[j], source, ws[j])
  }

  lemma {:induction false} FramesByPosition(ps: seq<Packet>, source: Mac) returns (ws: seq<seq<Word>>)
    ensures AreFrames(ps, source, ws) && Frames(ps, source) == Flatten(ws)
    decreases |ps|
  {
    hide IsFrame, Frame;
    if ps == [] {
      ws := [];
    } else {
      var n := |ps| - 1;
      var front := FramesByPosition(ps[..n], source);
      FrameByPosition(ps[n], source);
      ws := front + [Frame(ps[n], source)];
      FlattenAppend(front, [Frame(ps[n], source)]);
      FlattenOne(Frame(ps[n], source));
    }
  }

  /** What such a sender gets delivered, byte for byte. */
  lemma OffersByPosition(s: Regs, source: Mac, ps: seq<Packet>, readies: seq<bool>) returns (ws: seq<seq<Word>>)
    requires JustReset(s) && (forall j :: 0 <= j < |ps| ==> ps[j].payload != []) && Readies(readies) >= Cost(ps) + 2
    ensures AreFrames(ps, source, ws)
    ensures LinkRun(Link(Start(s), Sender(ps, 0)), source, readies).framer.delivered == Flatten(ws)
  {
    hide IsFrame, LinkRun, Frames;
    OffersAreFramed(s, source, ps, readies);
    ws := FramesByPosition(ps, source);
  }

  /** Cycles until a word is shown, while one is offered. */
  function ToShow(s: Regs): nat {
    if s.outValid then 0 else if s.fcsPhase > 0 || s.framedValid then 1 else if s.state == Idle then 3 else 2
  }

  lemma ToShowStep(s: Regs, source: Mac, i: Input)
    requires Lockstep(s) && i.valid && i.enable && !i.ready
    ensures ToShow(Step(s, source, i)) <= if ToShow(s) > 0 then ToShow(s) - 1 else 0
  {
    hide Update, HeaderOf;
  }

  lemma {:induction false} ShownWithin(h: History, source: Mac, i: Input, k: nat)
    requires Inv(h, source) && i.valid && i.enable && !i.ready && k >= ToShow(h.hw)
    ensures WellFormed(h.hw) && Run(h, source, Held(i, k)).hw.outValid
    decreases k
  {
    hide Inv, WellFormed, Step, Run;
    InvIsWellFormed(h, source);
    if k == 0 {
      RunNone(h, source, i);
    } else {
      InvIsLockstep(h, source);
      InvStep(h, source, i);
      ToShowStep(h.hw, source, i);
      ObservedRegisters(h, source, i);
      RunOneStep(h, source, i, k);
      ShownWithin(Observe(h, source, i), source, i, k - 1);
    }
  }

  lemma InvIsLockstep(h: History, source: Mac)
    requires Inv(h, source)
    ensures Lockstep(h.hw)
  {
  }

  lemma ObservedRegisters(h: History, source: Mac, i: Input)
    requires WellFormed(h.hw)
    ensures Observe(h, source, i).hw == Step(h.hw, source, i)
  {
    hide Step;
  }

  /** The output does not wait for ready: while a byte is offered and m_axis_tready stays low, a word is shown at the latest
      behind the third cycle, and stays. */
  lemma ShownWithoutReady(h: History, source: Mac, i: Input, k: nat)
    requires Inv(h, source) && i.valid && i.enable && !i.ready && k >= 3
    ensures WellFormed(h.hw) && Run(h, source, Held(i, k)).hw.outValid
  {
    hide Inv, WellFormed, Run;
    ShownWithin(h, source, i, k);
  }

  // ---------------------------------------------------------------- the clocked entity

  class Framer {
    const source: Mac
    const fcs: Generator
    var state: State
    var arp: bool
    var destMac: Mac
    var framedData: Byte
    var framedValid: bool
    var framedLast: bool
    var fcsPhase: nat
    var fcsReset: bool
    var outData: Byte
    var outValid: bool
    var outLast: bool

    function Registers(): Regs
      reads this, fcs
    {
      Regs(state, arp, destMac, framedData, framedValid, framedLast, fcsPhase, fcsReset, fcs.Registers(),
                outData, outValid, outLast)
    }

    constructor (source: Mac)
      ensures WellFormed(Registers()) && JustReset(Registers()) && this.source == source && fresh(fcs)
    {
      this.source := source;
      fcs := new Generator();
      state, arp, destMac := Idle, false, [0, 0, 0, 0, 0, 0];
      framedData, framedValid, framedLast := 0, false, false;
      fcsPhase, fcsReset := 0, true;
      outData, outValid, outLast := 0, false, false;
    }

    /** The header state machine, in a cycle in which the output can move. */
    method HeaderProcess(i: Input)
      requires state.Header? ==> state.k < 14
      modifies this`state, this`arp, this`destMac, this`framedData, this`framedValid, this`framedLast
      ensures state == NextState(old(state), i)
      ensures var starts := old(state) == Idle && i.valid && i.enable;
              arp == (if starts then i.user else old(arp)) && destMac == (if starts then i.destMac else old(destMac))
      ensures framedValid == (old(state).Header? || (old(state) == Payload && i.valid))
      ensures framedLast == (old(state) == Payload && i.valid && i.last)
      ensures framedData == match old(state)
                            case Header(k) => HeaderOf(old(destMac), source, old(arp))[k]
                            case Payload => i.data
                            case _ => old(framedData)
    {
      framedValid, framedLast := false, false;
      match state {
        case Idle =>
          if i.valid && i.enable {
            state, arp, destMac := Header(0), i.user, i.destMac;
          }
        case Header(k) =>
          if k < 6 {
            framedData := destMac[k];
          } else if k < 12 {
            framedData := source[k - 6];
          } else if k == 12 {
            framedData := 0x08;
          } else {
            framedData := if arp then 0x06 else 0x00;
          }
          framedValid := true;
          state := if k == 13 then Payload else Header(k + 1);
        case Payload =>
          framedData, framedValid := i.data, i.valid;
          if i.valid && i.last {
            state, framedLast := Gap(1), true;
          }
        case Gap(j) =>
          state := if j == 4 then Idle else Gap(j + 1);
      }
    }

    /** The check-sequence state machine, in a cycle in which the output can move. */
    method AppendProcess(fcsByteOut: Byte)
      requires fcsPhase <= 4
      modifies this`fcsPhase, this`fcsReset, this`outData, this`outValid, this`outLast
      ensures fcsPhase == if old(fcsPhase) == 0 then (if framedLast then 1 else 0) else if old(fcsPhase) == 4 then 0 else old(fcsPhase) + 1
      ensures fcsReset == (old(fcsPhase) == 4)
      ensures outData == if old(fcsPhase) == 0 then framedData else fcsByteOut
      ensures outValid == (old(fcsPhase) > 0 || framedValid) && outLast == (old(fcsPhase) == 4)
    {
      fcsReset := false;
      if fcsPhase == 0 {
        outData, outValid, outLast := framedData, framedValid, false;
        if framedLast {
          fcsPhase := 1;
        }
      } else {
        outData, outValid, outLast := fcsByteOut, true, fcsPhase == 4;
        if fcsPhase == 4 {
          fcsPhase, fcsReset := 0, true;
        } else {
          fcsPhase := fcsPhase + 1;
        }
      }
    }

    method Clock(i: Input)
      requires WellFormed(Registers())
      modifies this, fcs
      ensures Registers() == Step(old(Registers()), source, i)
    {
      hide Update, HeaderOf, NextState;
      var outputReady := i.ready || !outValid;
      var fcsEn := if fcsPhase == 0 then outputReady && framedValid else false;
      var fcsDinValid := if fcsPhase == 0 then outputReady && framedValid else true;
      var fcsByteOut := fcs.fcsByte;
      fcs.Clock(fcsReset, framedData, fcsDinValid && outputReady, fcsEn && outputReady);
      if outputReady {
        AppendProcess(fcsByteOut);
        HeaderProcess(i);
      }
    }
  }
}
