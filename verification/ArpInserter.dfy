/** Transmit side of the ARP block: whole ARP frames are inserted between the packets of a data stream. */
module ArpInserter {
  import opened BitVectors
  import ByteStream

  /** One word of the output stream; user marks ARP. */
  datatype Word = Word(data: Byte, user: bool, last: bool)

  datatype Stage = Stage(valid: bool, word: Word)

  /** Fields(k) sends one of the eighteen bytes from the hardware type to the sender's protocol address, TargetIp(k) one
      of the last four message bytes; the target's hardware address and the padding count down. */
  datatype State = Idle | Fields(k: nat) | TargetMac | TargetIp(k: nat) | Pad

  datatype Regs = Regs(
    state: State, inDataPacket: bool, padCounter: nat, isReply: bool, targetMac: Mac, targetIp: Ip, replyStarted: bool,
    framed: Stage, out: Stage)

  datatype Settings = Settings(mac: Mac, ip: Ip)

  /** The data stream offered, the output's ready, and the requests noted by the receive side. */
  datatype Input = Input(
    data: Byte, valid: bool, last: bool, ready: bool, replyPending: bool, requesterMac: Mac, requesterIp: Ip, garpPending: bool)

  const NO_MAC: Mac := [0, 0, 0, 0, 0, 0]

  predicate WellFormed(s: Regs) {
    s.padCounter < 32 && (s.state.Fields? ==> s.state.k < 18) && (s.state.TargetIp? ==> s.state.k < 4)
  }

  /** After a reset cycle. */
  predicate JustReset(s: Regs) { WellFormed(s) && s.state == Idle && !s.inDataPacket && !s.framed.valid && !s.out.valid }

  predicate OutputReady(s: Regs, i: Input) { i.ready || !s.out.valid }

  predicate Accepts(s: Regs, i: Input) { OutputReady(s, i) && s.state == Idle && i.valid }

  /** No data packet is open behind this cycle, as far as the inserter can tell. */
  predicate Boundary(s: Regs, i: Input) { if i.valid then i.last else !s.inDataPacket }

  predicate StartsReply(s: Regs, i: Input) { OutputReady(s, i) && s.state == Idle && Boundary(s, i) && i.replyPending }

  predicate StartsGarp(s: Regs, i: Input) {
    OutputReady(s, i) && s.state == Idle && Boundary(s, i) && !i.replyPending && i.garpPending
  }

  function NextState(s: Regs, i: Input): State {
    match s.state
    case Idle => if Boundary(s, i) && (i.replyPending || i.garpPending) then Fields(0) else Idle
    case Fields(k) => if k == 17 then TargetMac else Fields(k + 1)
    case TargetMac => if s.padCounter == 0 then TargetIp(0) else TargetMac
    case TargetIp(k) => if k == 3 then Pad else TargetIp(k + 1)
    case Pad => if s.padCounter == 0 then Idle else Pad
  }

  function NextPad(s: Regs): (p: nat)
    requires WellFormed(s)
    ensures p < 32
  {
    if s.state == Fields(17) then 5 else if s.state == TargetIp(3) then 18 else (s.padCounter + 31) % 32
  }

  /** Hardware type, protocol type, lengths, operation, sender. */
  function FieldBytes(c: Settings, isReply: bool): (f: seq<Byte>)
    ensures |f| == 18
  {
    [0x00, 0x01, 0x08, 0x00, 0x06, 0x04, 0x00, if isReply then 0x02 else 0x01] + c.mac + c.ip
  }

  /** The word that enters the first pipeline stage. */
  function NextFramed(s: Regs, c: Settings, i: Input): Stage
    requires WellFormed(s)
  {
    match s.state
    case Idle => Stage(i.valid, Word(i.data, false, i.last))
    case Fields(k) => Stage(true, Word(FieldBytes(c, s.isReply)[k], true, false))
    case TargetMac => Stage(true, Word(if s.isReply && s.padCounter <= 5 then s.targetMac[5 - s.padCounter] else 0, true, false))
    case TargetIp(k) => Stage(true, Word(s.targetIp[k], true, false))
    case Pad => Stage(true, Word(0, true, s.padCounter == 0))
  }

  function Step(s: Regs, c: Settings, i: Input): (s': Regs)
    requires WellFormed(s)
    ensures WellFormed(s')
  {
    if !OutputReady(s, i) then s.(replyStarted := false)
    else
      Regs(NextState(s, i),
           if i.valid then !i.last else s.inDataPacket,
           NextPad(s),
           if StartsReply(s, i) then true else if StartsGarp(s, i) then false else s.isReply,
           if StartsReply(s, i) then i.requesterMac else if StartsGarp(s, i) then NO_MAC else s.targetMac,
           if StartsReply(s, i) then i.requesterIp else if StartsGarp(s, i) then c.ip else s.targetIp,
           StartsReply(s, i),
           NextFramed(s, c, i),
           s.framed)
  }

  // ---------------------------------------------------------------- what should come out

  /** Section "Packet format" of RFC 826: Ethernet, IPv4, address lengths, operation, sender, target. A reply names the
      requester, an announcement asks for the own address. */
  function Message(c: Settings, isReply: bool, targetMac: Mac, targetIp: Ip): (m: seq<Byte>)
    ensures |m| == 28
  {
    [0, 1, 8, 0, 6, 4, 0, if isReply then 2 else 1] + c.mac + c.ip + targetMac + targetIp
  }

  lemma MessageParts(c: Settings, isReply: bool, targetMac: Mac, targetIp: Ip)
    ensures Message(c, isReply, targetMac, targetIp) == FieldBytes(c, isReply) + targetMac + targetIp
  {
  }

  function Padding(n: nat): (z: seq<Byte>)
    ensures |z| == n && forall j :: 0 <= j < n ==> z[j] == 0
  {
    if n == 0 then [] else Padding(n - 1) + [0]
  }

  /** The 47 words of a frame. */
  function ArpFrame(c: Settings, isReply: bool, targetMac: Mac, targetIp: Ip): (w: seq<Word>)
    ensures |w| == 47
  {
    var bytes := Message(c, isReply, targetMac, targetIp) + Padding(19);
    seq(47, j requires 0 <= j < 47 => Word(bytes[j], true, j == 46))
  }

  /** The words of a frame, byte for byte. */
  predicate IsFrame(c: Settings, isReply: bool, targetMac: Mac, targetIp: Ip, w: seq<Word>) {
    && |w| == 47 && (forall j :: 0 <= j < 47 ==> w[j].user && (w[j].last <==> j == 46))
    && w[0].data == 0 && w[1].data == 1 && w[2].data == 8 && w[3].data == 0 && w[4].data == 6 && w[5].data == 4
    && w[6].data == 0 && w[7].data == (if isReply then 2 else 1)
    && (forall j :: 0 <= j < 6 ==> w[8 + j].data == c.mac[j] && w[18 + j].data == targetMac[j])
    && (forall j :: 0 <= j < 4 ==> w[14 + j].data == c.ip[j] && w[24 + j].data == targetIp[j])
    && (forall j :: 28 <= j < 47 ==> w[j].data == 0)
  }

  lemma FrameByPosition(c: Settings, isReply: bool, targetMac: Mac, targetIp: Ip)
    ensures IsFrame(c, isReply, targetMac, targetIp, ArpFrame(c, isReply, targetMac, targetIp))
  {
    hide Message, ArpFrame;
    MessageByPosition(c, isReply, targetMac, targetIp);
    FrameWords(c, isReply, targetMac, targetIp);
  }

  lemma MessageByPosition(c: Settings, isReply: bool, targetMac: Mac, targetIp: Ip)
    ensures var m := Message(c, isReply, targetMac, targetIp);
            && m[0] == 0 && m[1] == 1 && m[2] == 8 && m[3] == 0 && m[4] == 6 && m[5] == 4 && m[6] == 0
            && m[7] == (if isReply then 2 else 1)
            && (forall j :: 0 <= j < 6 ==> m[8 + j] == c.mac[j] && m[18 + j] == targetMac[j])
            && (forall j :: 0 <= j < 4 ==> m[14 + j] == c.ip[j] && m[24 + j] == targetIp[j])
  {
  }

  lemma FrameWords(c: Settings, isReply: bool, targetMac: Mac, targetIp: Ip)
    ensures var m, w := Message(c, isReply, targetMac, targetIp), ArpFrame(c, isReply, targetMac, targetIp);
            forall j :: 0 <= j < 47 ==> w[j] == Word(if j < 28 then m[j] else 0, true, j == 46)
  {
    hide Message, Padding;
  }

  /** Whole packets in the order in which they have to leave, and the words of the data packet that is open. */
  datatype History = History(hw: Regs, packets: seq<seq<Word>>, open: seq<Word>, accepted: seq<Word>, delivered: seq<Word>)

  function Delivers(s: Regs, i: Input): seq<Word> { if i.ready && s.out.valid then [s.out.word] else [] }

  function Observe(h: History, c: Settings, i: Input): (h': History)
    requires WellFormed(h.hw)
    ensures WellFormed(h'.hw)
  {
    var s, w := h.hw, Word(i.data, false, i.last);
    var ends := Accepts(s, i) && i.last;
    var packets := if ends then h.packets + [h.open + [w]] else h.packets;
    History(Step(s, c, i),
            if StartsReply(s, i) then packets + [ArpFrame(c, true, i.requesterMac, i.requesterIp)]
            else if StartsGarp(s, i) then packets + [ArpFrame(c, false, NO_MAC, c.ip)]
            else packets,
            if ends then [] else if Accepts(s, i) then h.open + [w] else h.open,
            if Accepts(s, i) then h.accepted + [w] else h.accepted,
            h.delivered + Delivers(s, i))
  }

  /** Everything that has to leave for what has happened so far. */
  function Spec(h: History): seq<Word> { ByteStream.Flatten(h.packets) + h.open }

  // ---------------------------------------------------------------- the invariant

  function Shown(s: Stage): seq<Word> { if s.valid then [s.word] else [] }

  /** Bytes of the current ARP frame already handed to the pipeline. */
  function Position(s: Regs): int
    requires WellFormed(s)
  {
    match s.state
    case Idle => 47
    case Fields(k) => k
    case TargetMac => 23 - s.padCounter
    case TargetIp(k) => 24 + k
    case Pad => 46 - s.padCounter
  }

  predicate CountersOk(s: Regs) {
    WellFormed(s) && (s.state == TargetMac ==> s.padCounter <= 5) && (s.state == Pad ==> s.padCounter <= 18)
    && (!s.isReply && s.state != Idle ==> s.targetMac == NO_MAC)
  }

  /** What is still to come of the current ARP frame. */
  function Rest(s: Regs, c: Settings): seq<Word>
    requires CountersOk(s)
  {
    ArpFrame(c, s.isReply, s.targetMac, s.targetIp)[Position(s)..]
  }

  function Pipeline(s: Regs, c: Settings): seq<Word>
    requires CountersOk(s)
  {
    Shown(s.out) + Shown(s.framed) + Rest(s, c)
  }

  /** An open packet is known to the flag, and no ARP frame is under way inside one. */
  predicate Guarded(h: History) { h.open != [] ==> h.hw.state == Idle && h.hw.inDataPacket }

  ghost predicate Inv(h: History, c: Settings) {
    CountersOk(h.hw) && Guarded(h) && Spec(h) == h.delivered + Pipeline(h.hw, c)
  }

  lemma CountersStep(s: Regs, c: Settings, i: Input)
    requires CountersOk(s)
    ensures CountersOk(Step(s, c, i))
    ensures OutputReady(s, i) && s.state != Idle ==> Position(Step(s, c, i)) == Position(s) + 1
  {
    hide FieldBytes;
  }

  /** The byte handed to the pipeline is the next one of the frame. */
  lemma NextByte(s: Regs, c: Settings, i: Input)
    requires CountersOk(s) && s.state != Idle
    ensures 0 <= Position(s) < 47
    ensures NextFramed(s, c, i) == Stage(true, ArpFrame(c, s.isReply, s.targetMac, s.targetIp)[Position(s)])
  {
    hide FieldBytes, Message;
    var j := Position(s);
    var m := Message(c, s.isReply, s.targetMac, s.targetIp);
    MessageParts(c, s.isReply, s.targetMac, s.targetIp);
    assert 18 <= j < 24 ==> m[j] == s.targetMac[j - 18];
    assert 24 <= j < 28 ==> m[j] == s.targetIp[j - 24];
    assert j < 18 ==> m[j] == FieldBytes(c, s.isReply)[j];
  }

  lemma TailSplit(w: seq<Word>, j: nat)
    requires j < |w|
    ensures w[j..] == [w[j]] + w[j + 1..]
  {
  }

  lemma RestShrinks(s: Regs, c: Settings, i: Input)
    requires CountersOk(s) && OutputReady(s, i) && s.state != Idle
    ensures CountersOk(Step(s, c, i))
    ensures Rest(s, c) == Shown(Step(s, c, i).framed) + Rest(Step(s, c, i), c)
  {
    NextByte(s, c, i);
    CountersStep(s, c, i);
    TailSplit(ArpFrame(c, s.isReply, s.targetMac, s.targetIp), Position(s));
    hide ArpFrame, NextFramed, CountersOk, NextState, NextPad, Position;
  }

  lemma FlattenExtends(ps: seq<seq<Word>>, p: seq<Word>)
    ensures ByteStream.Flatten(ps + [p]) == ByteStream.Flatten(ps) + p
  {
    ByteStream.FlattenAppend(ps, [p]);
    ByteStream.FlattenOne(p);
  }

  /** The words that a cycle adds to what has to leave. */
  function New(s: Regs, c: Settings, i: Input): seq<Word> {
    (if Accepts(s, i) then [Word(i.data, false, i.last)] else [])
    + (if StartsReply(s, i) then ArpFrame(c, true, i.requesterMac, i.requesterIp)
       else if StartsGarp(s, i) then ArpFrame(c, false, NO_MAC, c.ip)
       else [])
  }

  lemma SpecGrows(h: History, c: Settings, i: Input)
    requires WellFormed(h.hw) && Guarded(h)
    ensures Spec(Observe(h, c, i)) == Spec(h) + New(h.hw, c, i)
  {
    hide ArpFrame, ByteStream.Flatten, Step, OutputReady;
    var s, w := h.hw, Word(i.data, false, i.last);
    var frame := if StartsReply(s, i) then ArpFrame(c, true, i.requesterMac, i.requesterIp) else ArpFrame(c, false, NO_MAC, c.ip);
    FlattenCycle(h.packets, h.open, Accepts(s, i), w, StartsReply(s, i) || StartsGarp(s, i), frame);
  }

  /** A word joins the open packet and ends it if it is marked; a frame may follow when no packet is open. */
  lemma FlattenCycle(packets: seq<seq<Word>>, open: seq<Word>, accepts: bool, w: Word, starts: bool, frame: seq<Word>)
    requires starts ==> if accepts then w.last else open == []
    ensures var packets' := if accepts && w.last then packets + [open + [w]] else packets;
            var open' := if accepts then (if w.last then [] else open + [w]) else open;
            ByteStream.Flatten(if starts then packets' + [frame] else packets') + open'
            == (ByteStream.Flatten(packets) + open) + ((if accepts then [w] else []) + (if starts then frame else []))
  {
    hide ByteStream.Flatten;
    FlattenExtends(packets, open + [w]);
    var packets' := if accepts && w.last then packets + [open + [w]] else packets;
    FlattenExtends(packets', frame);
    var f := ByteStream.Flatten(packets);
    assert (f + open) + [w] == f + (open + [w]);
    if accepts && w.last {
      ByteStream.Associative(f + open, [w], frame);
    }
  }

  lemma PipelineInFrame(s: Regs, c: Settings, i: Input)
    requires CountersOk(s) && OutputReady(s, i) && s.state != Idle
    ensures CountersOk(Step(s, c, i))
    ensures Pipeline(s, c) + New(s, c, i) == Delivers(s, i) + Pipeline(Step(s, c, i), c)
  {
    RestShrinks(s, c, i);
    assert New(s, c, i) == [];
    assert Step(s, c, i).out == s.framed && Delivers(s, i) == Shown(s.out);
    hide Rest, New, Step, CountersOk, Delivers, Shown, OutputReady;
    assert Rest(s, c) + [] == Rest(s, c);
    Move(Shown(s.out), Shown(s.framed), Rest(s, c), [], Shown(Step(s, c, i).framed), Rest(Step(s, c, i), c));
  }

  /** The output register gives way to the first stage, and this to the next word. */
  lemma Move(o: seq<Word>, f: seq<Word>, r: seq<Word>, n: seq<Word>, f': seq<Word>, r': seq<Word>)
    requires r + n == f' + r'
    ensures (o + f + r) + n == o + (f + f' + r')
  {
    assert (o + f + r) + n == o + f + (r + n);
  }

  lemma NewWhenIdle(s: Regs, c: Settings, i: Input)
    requires CountersOk(s) && OutputReady(s, i) && s.state == Idle
    ensures var s' := Step(s, c, i);
            CountersOk(s') && Rest(s, c) == [] && New(s, c, i) == Shown(s'.framed) + Rest(s', c)
  {
    CountersStep(s, c, i);
    hide ArpFrame, NextPad, Pow2, FieldBytes;
    var s' := Step(s, c, i);
    var w := ArpFrame(c, s'.isReply, s'.targetMac, s'.targetIp);
    assert w[0..] == w && w[47..] == [];
    if !StartsReply(s, i) && !StartsGarp(s, i) {
      assert Rest(s', c) == [];
    }
  }

  lemma PipelineWhenIdle(s: Regs, c: Settings, i: Input)
    requires CountersOk(s) && OutputReady(s, i) && s.state == Idle
    ensures CountersOk(Step(s, c, i))
    ensures Pipeline(s, c) + New(s, c, i) == Delivers(s, i) + Pipeline(Step(s, c, i), c)
  {
    NewWhenIdle(s, c, i);
    assert Step(s, c, i).out == s.framed && Delivers(s, i) == Shown(s.out);
    hide Rest, New, Step, CountersOk, Delivers, Shown, OutputReady;
    assert [] + New(s, c, i) == New(s, c, i);
    Move(Shown(s.out), Shown(s.framed), [], New(s, c, i), Shown(Step(s, c, i).framed), Rest(Step(s, c, i), c));
  }

  lemma PipelineStep(s: Regs, c: Settings, i: Input)
    requires CountersOk(s)
    ensures CountersOk(Step(s, c, i))
    ensures Pipeline(s, c) + New(s, c, i) == Delivers(s, i) + Pipeline(Step(s, c, i), c)
  {
    if OutputReady(s, i) {
      if s.state == Idle {
        PipelineWhenIdle(s, c, i);
      } else {
        PipelineInFrame(s, c, i);
      }
    } else {
      hide ArpFrame;
      assert New(s, c, i) == Delivers(s, i) == [];
    }
    hide *;
  }

  /** The inserter never starts inside a data packet. */
  lemma GuardedStep(h: History, c: Settings, i: Input)
    requires WellFormed(h.hw) && Guarded(h)
    ensures Guarded(Observe(h, c, i))
  {
    hide ArpFrame, NextFramed, NextPad;
  }

  lemma Shuffle(spec: seq<Word>, old': seq<Word>, p: seq<Word>, n: seq<Word>, d: seq<Word>, p': seq<Word>)
    requires spec == old' + p && p + n == d + p'
    ensures spec + n == (old' + d) + p'
  {
    assert spec + n == old' + (p + n);
  }

  /** Nothing is lost and nothing is reordered. */
  lemma InvStep(h: History, c: Settings, i: Input)
    requires Inv(h, c)
    ensures Inv(Observe(h, c, i), c)
  {
    GuardedStep(h, c, i);
    SpecGrows(h, c, i);
    PipelineStep(h.hw, c, i);
    var h' := Observe(h, c, i);
    Shuffle(Spec(h), h.delivered, Pipeline(h.hw, c), New(h.hw, c, i), Delivers(h.hw, i), Pipeline(h'.hw, c));
    assert h'.hw == Step(h.hw, c, i) && h'.delivered == h.delivered + Delivers(h.hw, i);
    hide *;
  }

  // ---------------------------------------------------------------- main results

  function Run(h: History, c: Settings, inputs: seq<Input>): (h': History)
    requires WellFormed(h.hw)
    ensures WellFormed(h'.hw)
    decreases |inputs|
  {
    if inputs == [] then h else Run(Observe(h, c, inputs[0]), c, inputs[1..])
  }

  function Start(s: Regs): History { History(s, [], [], [], []) }

  predicate DataWords(p: seq<Word>) { forall j :: 0 <= j < |p| ==> !p[j].user }

  /** A whole data packet: only its last word is marked. */
  predicate DataPacket(p: seq<Word>) {
    p != [] && DataWords(p) && forall j :: 0 <= j < |p| ==> (p[j].last <==> j == |p| - 1)
  }

  /** A whole ARP frame: a reply to somebody, or the announcement of the own address. */
  ghost predicate IsArp(c: Settings, p: seq<Word>) {
    IsFrame(c, false, [0, 0, 0, 0, 0, 0], c.ip, p) || exists m: Mac, a: Ip :: IsFrame(c, true, m, a, p)
  }

  /** The words of the data stream, in order. */
  function DataOf(ws: seq<Word>): seq<Word> {
    if ws == [] then []
    else DataOf(ws[..|ws| - 1]) + (if ws[|ws| - 1].user then [] else [ws[|ws| - 1]])
  }

  lemma {:induction false} DataOfAppend(a: seq<Word>, b: seq<Word>)
    ensures DataOf(a + b) == DataOf(a) + DataOf(b)
    decreases |b|
  {
    if b == [] {
      assert a + b == a;
    } else {
      assert (a + b)[..|a + b| - 1] == a + b[..|b| - 1];
      DataOfAppend(a, b[..|b| - 1]);
    }
  }

  lemma {:induction false} DataOfArp(ws: seq<Word>)
    requires forall j :: 0 <= j < |ws| ==> ws[j].user
    ensures DataOf(ws) == []
    decreases |ws|
  {
    if ws != [] {
      DataOfArp(ws[..|ws| - 1]);
    }
  }

  /** Each is a whole data packet or a complete ARP frame. */
  ghost predicate Whole(c: Settings, ps: seq<seq<Word>>) {
    forall j :: 0 <= j < |ps| ==> DataPacket(ps[j]) || IsArp(c, ps[j])
  }

  /** Words of a data packet whose end has not come yet. */
  predicate Open(p: seq<Word>) { DataWords(p) && forall j :: 0 <= j < |p| ==> !p[j].last }

  /** The packets are whole, and their data words are the accepted ones. */
  ghost predicate Ordered(h: History, c: Settings) {
    Whole(c, h.packets) && Open(h.open) && DataOf(Spec(h)) == h.accepted
  }

  lemma WholeExtends(c: Settings, ps: seq<seq<Word>>, p: seq<Word>)
    requires Whole(c, ps) && (DataPacket(p) || IsArp(c, p))
    ensures Whole(c, ps + [p])
  {
    hide DataPacket, IsArp;
  }

  lemma OpenExtends(p: seq<Word>, w: Word)
    requires Open(p) && !w.user
    ensures if w.last then DataPacket(p + [w]) else Open(p + [w])
  {
  }

  lemma WholeStep(h: History, c: Settings, i: Input)
    requires WellFormed(h.hw) && Whole(c, h.packets) && Open(h.open)
    ensures Whole(c, Observe(h, c, i).packets) && Open(Observe(h, c, i).open)
  {
    hide Whole, Open, DataPacket, IsArp, ArpFrame, Step;
    var w := Word(i.data, false, i.last);
    var ends := Accepts(h.hw, i) && i.last;
    var packets := if ends then h.packets + [h.open + [w]] else h.packets;
    OpenExtends(h.open, w);
    FramesAreArp(c, i);
    if ends {
      WholeExtends(c, h.packets, h.open + [w]);
    }
    if StartsReply(h.hw, i) {
      WholeExtends(c, packets, ArpFrame(c, true, i.requesterMac, i.requesterIp));
    }
    if StartsGarp(h.hw, i) {
      WholeExtends(c, packets, ArpFrame(c, false, NO_MAC, c.ip));
    }
    assert Open([]) by {
      OpenNone();
    }
  }

  lemma FramesAreArp(c: Settings, i: Input)
    ensures IsArp(c, ArpFrame(c, true, i.requesterMac, i.requesterIp)) && IsArp(c, ArpFrame(c, false, NO_MAC, c.ip))
  {
    hide IsFrame, ArpFrame;
    FrameByPosition(c, true, i.requesterMac, i.requesterIp);
    FrameByPosition(c, false, NO_MAC, c.ip);
  }

  lemma OpenNone()
    ensures Open([])
  {
  }

  lemma OrderedStep(h: History, c: Settings, i: Input)
    requires WellFormed(h.hw) && Guarded(h) && Ordered(h, c)
    ensures Ordered(Observe(h, c, i), c)
  {
    WholeStep(h, c, i);
    SpecGrows(h, c, i);
    DataOfAppend(Spec(h), New(h.hw, c, i));
    DataOfNew(h.hw, c, i);
    hide ArpFrame, Whole, Open, New, Spec, DataOf, Step;
  }

  lemma DataOfNew(s: Regs, c: Settings, i: Input)
    ensures DataOf(New(s, c, i)) == if Accepts(s, i) then [Word(i.data, false, i.last)] else []
  {
    var w, n := [Word(i.data, false, i.last)], New(s, c, i);
    assert w[..0] == [];
    assert DataOf(w) == w;
    var arp := if Accepts(s, i) then n[1..] else n;
    DataOfArp(arp);
    if Accepts(s, i) {
      assert n == w + arp;
      DataOfAppend(w, arp);
    }
  }

  lemma {:induction false} InvRun(h: History, c: Settings, inputs: seq<Input>)
    requires Inv(h, c) && Ordered(h, c)
    ensures Inv(Run(h, c, inputs), c) && Ordered(Run(h, c, inputs), c)
    decreases |inputs|
  {
    assert WellFormed(h.hw);
    if inputs != [] {
      InvStep(h, c, inputs[0]);
      OrderedStep(h, c, inputs[0]);
      hide Inv, Ordered, Observe;
      InvRun(Observe(h, c, inputs[0]), c, inputs[1..]);
    }
  }

  /** In every run from reset, for all stalls and all timings of the requests: what was delivered is, up to the at most 49
      words still in the pipeline, a sequence of whole packets followed by words of one open data packet; each whole
      packet is a data packet or a complete ARP frame; and the data words among them are exactly the accepted words in
      order. */
  lemma PacketsStayWhole(s: Regs, c: Settings, inputs: seq<Input>)
    requires JustReset(s)
    ensures var h := Run(Start(s), c, inputs);
            && CountersOk(h.hw) && |Pipeline(h.hw, c)| <= 49
            && ByteStream.Flatten(h.packets) + h.open == h.delivered + Pipeline(h.hw, c)
            && Whole(c, h.packets) && Open(h.open)
            && (h.open != [] ==> h.hw.state == Idle)
            && DataOf(h.delivered + Pipeline(h.hw, c)) == h.accepted
  {
    InvRun(Start(s), c, inputs);
    PositionNotNegative(Run(Start(s), c, inputs).hw);
    hide ArpFrame, Run, DataOf, ByteStream.Flatten;
  }

  lemma PositionNotNegative(s: Regs)
    requires CountersOk(s)
    ensures 0 <= Position(s) <= 47
  {
  }

  /** At every moment the data words delivered are a prefix of the accepted ones. */
  lemma DataStaysInOrder(s: Regs, c: Settings, inputs: seq<Input>)
    requires JustReset(s)
    ensures var h := Run(Start(s), c, inputs); DataOf(h.delivered) <= h.accepted
  {
    PacketsStayWhole(s, c, inputs);
    var h := Run(Start(s), c, inputs);
    hide Run, DataOf, Pipeline, ByteStream.Flatten, ArpFrame;
    DataOfAppend(h.delivered, Pipeline(h.hw, c));
  }

  /** Ready cycles until nothing is left in the pipeline, at most, when nothing is offered or requested. */
  function Work(s: Regs): int
    requires WellFormed(s)
  {
    if s.state != Idle then 49 - Position(s) else if s.framed.valid then 2 else if s.out.valid then 1 else 0
  }

  /** A frame that was started is finished: without new data or requests, ready cycles bring everything out. */
  lemma {:induction false} Drains(h: History, c: Settings, i: Input, n: nat)
    requires Inv(h, c) && i.ready && !i.valid && !i.replyPending && !i.garpPending && Work(h.hw) <= n
    ensures Run(h, c, seq(n, _ => i)).delivered == Spec(h)
    decreases n
  {
    hide ArpFrame, ByteStream.Flatten, NextFramed;
    PositionNotNegative(h.hw);
    if n == 0 {
      assert seq(n, _ => i) == [];
      assert Pipeline(h.hw, c) == [];
    } else {
      InvStep(h, c, i);
      CountersStep(h.hw, c, i);
      WorkDecreases(h.hw, c, i);
      var h' := Observe(h, c, i);
      assert h'.packets == h.packets && h'.open == h.open;
      assert seq(n, _ => i)[1..] == seq(n - 1, _ => i);
      hide Inv, Work, Observe;
      Drains(h', c, i, n - 1);
    }
  }

  lemma WorkDecreases(s: Regs, c: Settings, i: Input)
    requires CountersOk(s) && i.ready && !i.valid && !i.replyPending && !i.garpPending
    ensures Work(Step(s, c, i)) <= if Work(s) > 0 then Work(s) - 1 else 0
  {
    hide FieldBytes;
  }

  // ---------------------------------------------------------------- a sender that holds its words

  /** What the environment does in a cycle beside the data stream. */
  datatype Cycle = Cycle(ready: bool, replyPending: bool, requesterMac: Mac, requesterIp: Ip, garpPending: bool)

  /** The next word is offered until it is taken. */
  function Offer(left: seq<Word>, k: Cycle): Input {
    var w := if left == [] then Word(0, false, false) else left[0];
    Input(w.data, left != [], w.last, k.ready, k.replyPending, k.requesterMac, k.requesterIp, k.garpPending)
  }

  /** s_axis_tready */
  predicate TakesWords(s: Regs, ready: bool) { s.state == Idle && (ready || !s.out.valid) }

  /** The inserter and the words that its sender has left. */
  datatype Link = Link(inserter: History, left: seq<Word>)

  function LinkStep(x: Link, c: Settings, k: Cycle): (x': Link)
    requires WellFormed(x.inserter.hw)
    ensures WellFormed(x'.inserter.hw)
  {
    Link(Observe(x.inserter, c, Offer(x.left, k)),
         if x.left != [] && TakesWords(x.inserter.hw, k.ready) then x.left[1..] else x.left)
  }

  function LinkRun(x: Link, c: Settings, cycles: seq<Cycle>): (x': Link)
    requires WellFormed(x.inserter.hw)
    ensures WellFormed(x'.inserter.hw)
    decreases |cycles|
  {
    if cycles == [] then x else LinkRun(LinkStep(x, c, cycles[0]), c, cycles[1..])
  }

  function Readies(cycles: seq<Cycle>): nat {
    if cycles == [] then 0 else (if cycles[0].ready then 1 else 0) + Readies(cycles[1..])
  }

  /** Every word is accepted, with the mark it was offered with, or left. */
  ghost predicate LinkInv(x: Link, c: Settings, all: seq<Word>) {
    Inv(x.inserter, c) && Ordered(x.inserter, c) && DataWords(x.left) && x.inserter.accepted + x.left == all
  }

  /** Cycles for the words, with one frame behind every packet. */
  function Cost(words: seq<Word>): nat {
    if words == [] then 0 else Cost(words[1..]) + (if words[0].last then 49 else 1)
  }

  function FrameLeft(s: Regs): int
    requires WellFormed(s)
  {
    47 - Position(s)
  }

  function DataLeft(s: Regs): nat {
    if s.framed.valid && !s.framed.word.user then 2 else if s.out.valid && !s.out.word.user then 1 else 0
  }

  /** Moving cycles until every word has been delivered. */
  function LinkWork(x: Link): int
    requires WellFormed(x.inserter.hw)
  {
    if x.left == [] then DataLeft(x.inserter.hw) else Cost(x.left) + FrameLeft(x.inserter.hw) + 2
  }

  lemma InvFacts(h: History, c: Settings)
    requires Inv(h, c)
    ensures CountersOk(h.hw) && WellFormed(h.hw)
  {
  }

  lemma WordsStep(x: Link, c: Settings, k: Cycle)
    requires WellFormed(x.inserter.hw) && DataWords(x.left)
    ensures var x' := LinkStep(x, c, k);
            && DataWords(x'.left) && x'.inserter.accepted + x'.left == x.inserter.accepted + x.left
            && x'.inserter.hw == Step(x.inserter.hw, c, Offer(x.left, k)) && x.inserter.packets <= x'.inserter.packets
  {
    hide Step, ArpFrame;
    if x.left != [] {
      assert x.left == [x.left[0]] + x.left[1..];
      assert Offer(x.left, k).valid && Word(x.left[0].data, false, x.left[0].last) == x.left[0];
    }
  }

  lemma LinkWorkStep(x: Link, c: Settings, k: Cycle)
    requires CountersOk(x.inserter.hw)
    ensures var x' := LinkStep(x, c, k);
            LinkWork(x') <= LinkWork(x) && (k.ready && LinkWork(x) > 0 ==> LinkWork(x') < LinkWork(x))
  {
    hide FieldBytes, ArpFrame;
    CountersStep(x.inserter.hw, c, Offer(x.left, k));
    PositionNotNegative(x.inserter.hw);
    PositionNotNegative(LinkStep(x, c, k).inserter.hw);
  }

  lemma LinkInvStep(x: Link, c: Settings, k: Cycle, all: seq<Word>)
    requires LinkInv(x, c, all)
    ensures WellFormed(x.inserter.hw) && LinkInv(LinkStep(x, c, k), c, all)
  {
    hide Inv, Ordered, Observe, DataWords;
    InvFacts(x.inserter, c);
    WordsStep(x, c, k);
    InvStep(x.inserter, c, Offer(x.left, k));
    InvIsGuarded(x.inserter, c);
    OrderedStep(x.inserter, c, Offer(x.left, k));
  }

  lemma InvIsGuarded(h: History, c: Settings)
    requires Inv(h, c)
    ensures Guarded(h)
  {
  }

  lemma PipelineIsArp(s: Regs, c: Settings)
    requires CountersOk(s) && 0 <= Position(s) <= 47 && DataLeft(s) == 0
    ensures forall j :: 0 <= j < |Pipeline(s, c)| ==> Pipeline(s, c)[j].user
  {
    hide Message;
  }

  /** With no data word in the pipeline, all have been delivered. */
  lemma LinkDone(x: Link, c: Settings, all: seq<Word>)
    requires LinkInv(x, c, all)
    ensures WellFormed(x.inserter.hw) && (LinkWork(x) <= 0 ==> DataOf(x.inserter.delivered) == all)
  {
    hide ArpFrame, ByteStream.Flatten, DataOf;
    var h := x.inserter;
    PositionNotNegative(h.hw);
    if LinkWork(x) <= 0 {
      assert h.accepted + [] == h.accepted;
      PipelineIsArp(h.hw, c);
      DataOfArp(Pipeline(h.hw, c));
      DataOfAppend(h.delivered, Pipeline(h.hw, c));
    }
  }

  lemma {:induction false} LinkDrains(x: Link, c: Settings, cycles: seq<Cycle>, all: seq<Word>)
    requires LinkInv(x, c, all)
    ensures WellFormed(x.inserter.hw)
    ensures Readies(cycles) >= LinkWork(x) ==> DataOf(LinkRun(x, c, cycles).inserter.delivered) == all
    decreases |cycles|
  {
    hide LinkStep, LinkWork, Inv, Ordered, DataOf;
    InvFacts(x.inserter, c);
    LinkDone(x, c, all);
    if cycles != [] {
      LinkInvStep(x, c, cycles[0], all);
      LinkWorkStep(x, c, cycles[0]);
      LinkDrains(LinkStep(x, c, cycles[0]), c, cycles[1..], all);
    }
  }

  /** Offered data get through: whatever the stalls and the requests, all words of a sender that holds each word until it is
      taken have been delivered, in order, once there were as many ready cycles as words, 48 for each packet and two. */
  lemma OffersGetThrough(s: Regs, c: Settings, words: seq<Word>, cycles: seq<Cycle>)
    requires JustReset(s) && DataWords(words) && Readies(cycles) >= Cost(words) + 2
    ensures DataOf(LinkRun(Link(Start(s), words), c, cycles).inserter.delivered) == words
  {
    hide LinkRun, Cost, DataOf;
    var x := Link(Start(s), words);
    DataOfNothing();
    assert [] + words == words;
    LinkDrains(x, c, cycles, words);
  }

  /** Cycles until a word is shown, while one is offered or a frame is under way. */
  function ToShow(s: Regs): nat { if s.out.valid then 0 else if s.framed.valid then 1 else 2 }

  lemma ToShowStep(s: Regs, c: Settings, i: Input)
    requires WellFormed(s) && !i.ready && (s.state != Idle || i.valid)
    ensures ToShow(Step(s, c, i)) <= if ToShow(s) > 0 then ToShow(s) - 1 else 0
  {
    hide FieldBytes, NextPad, StartsReply, StartsGarp;
  }

  lemma ObservedRegisters(h: History, c: Settings, i: Input)
    requires WellFormed(h.hw)
    ensures Observe(h, c, i).hw == Step(h.hw, c, i)
  {
    hide Step, ArpFrame;
  }

  lemma {:induction false} ShownWithin(h: History, c: Settings, inputs: seq<Input>)
    requires WellFormed(h.hw) && |inputs| >= ToShow(h.hw)
    requires forall j :: 0 <= j < |inputs| ==> !inputs[j].ready && inputs[j].valid
    ensures Run(h, c, inputs).hw.out.valid
    decreases |inputs|
  {
    hide Step, Observe, WellFormed;
    if inputs != [] {
      ToShowStep(h.hw, c, inputs[0]);
      ObservedRegisters(h, c, inputs[0]);
      ShownWithin(Observe(h, c, inputs[0]), c, inputs[1..]);
    }
  }

  /** While m_axis_tready stays low and words are offered, a word is shown at the latest behind the second cycle, and
      stays. */
  lemma ShownWithoutReady(h: History, c: Settings, inputs: seq<Input>)
    requires WellFormed(h.hw) && |inputs| >= 2
    requires forall j :: 0 <= j < |inputs| ==> !inputs[j].ready && inputs[j].valid
    ensures Run(h, c, inputs).hw.out.valid
  {
    hide WellFormed, Run;
    ShownWithin(h, c, inputs);
  }

  lemma DataOfNothing()
    ensures DataOf([]) == [] && ByteStream.Flatten<Word>([]) == []
  {
  }

  /** Words up to the end of the packet. */
  function ToEnd(words: seq<Word>): nat {
    if words == [] then 1 else if words[0].last then 1 else 1 + ToEnd(words[1..])
  }

  /** The sender ends the packet that it is in. */
  predicate EndsPacket(x: Link) {
    if x.left == [] then !x.inserter.hw.inDataPacket else x.left[|x.left| - 1].last
  }

  function ToReply(x: Link): int
    requires WellFormed(x.inserter.hw)
  {
    FrameLeft(x.inserter.hw) + ToEnd(x.left)
  }

  lemma ToReplyStep(x: Link, c: Settings, k: Cycle)
    requires CountersOk(x.inserter.hw) && EndsPacket(x) && k.replyPending
    ensures var x' := LinkStep(x, c, k);
            && EndsPacket(x')
            && (!StartsReply(x.inserter.hw, Offer(x.left, k)) ==>
                  ToReply(x') <= ToReply(x) && (k.ready ==> ToReply(x') < ToReply(x)))
  {
    hide FieldBytes, ArpFrame;
    CountersStep(x.inserter.hw, c, Offer(x.left, k));
  }

  /** The receive side is told of a reply exactly behind the cycle in which its frame has begun. */
  lemma ReplyIsReported(h: History, c: Settings, i: Input)
    requires WellFormed(h.hw)
    ensures var h' := Observe(h, c, i);
            && h.packets <= h'.packets
            && (h'.hw.replyStarted <==>
                  exists j :: |h.packets| <= j < |h'.packets| && IsFrame(c, true, i.requesterMac, i.requesterIp, h'.packets[j]))
  {
    hide ArpFrame, NextPad, NextState, NextFramed, IsFrame;
    var h', w := Observe(h, c, i), Word(i.data, false, i.last);
    FrameByPosition(c, true, i.requesterMac, i.requesterIp);
    FrameByPosition(c, false, NO_MAC, c.ip);
    OnlyReplies(c, ArpFrame(c, false, NO_MAC, c.ip), h.open + [w], i.requesterMac, i.requesterIp);
    if StartsReply(h.hw, i) {
      assert IsFrame(c, true, i.requesterMac, i.requesterIp, h'.packets[|h'.packets| - 1]);
    }
  }

  /** Neither an announcement nor a data packet is a reply. */
  lemma OnlyReplies(c: Settings, garp: seq<Word>, data: seq<Word>, m: Mac, a: Ip)
    requires IsFrame(c, false, NO_MAC, c.ip, garp) && data != [] && !data[|data| - 1].user
    ensures !IsFrame(c, true, m, a, garp) && !IsFrame(c, true, m, a, data)
  {
  }

  lemma ReplyEnters(x: Link, c: Settings, k: Cycle)
    requires WellFormed(x.inserter.hw) && StartsReply(x.inserter.hw, Offer(x.left, k))
    ensures var x' := LinkStep(x, c, k);
            |x'.inserter.packets| > |x.inserter.packets|
            && IsFrame(c, true, k.requesterMac, k.requesterIp, x'.inserter.packets[|x'.inserter.packets| - 1])
  {
    hide Step, ArpFrame, IsFrame;
    FrameByPosition(c, true, k.requesterMac, k.requesterIp);
  }

  lemma {:induction false} PacketsGrow(x: Link, c: Settings, cycles: seq<Cycle>)
    requires WellFormed(x.inserter.hw) && DataWords(x.left)
    ensures x.inserter.packets <= LinkRun(x, c, cycles).inserter.packets
    decreases |cycles|
  {
    hide LinkStep, DataWords, WellFormed;
    if cycles != [] {
      WordsStep(x, c, cycles[0]);
      PacketsGrow(LinkStep(x, c, cycles[0]), c, cycles[1..]);
    }
  }

  /** A frame of that kind is among the packets from the k-th on. */
  ghost predicate HasReply(c: Settings, m: Mac, a: Ip, packets: seq<seq<Word>>, k: nat) {
    exists j :: k <= j < |packets| && IsFrame(c, true, m, a, packets[j])
  }

  /** A pending reply goes out: from every state that the inserter with such a sender reaches, a request that is held while
      the sender finishes its packet has its reply started once there were as many ready cycles as words left of a frame
      under way and of that packet. */
  lemma {:induction false} ReplyIsStarted(x: Link, c: Settings, cycles: seq<Cycle>, m: Mac, a: Ip, all: seq<Word>)
    requires LinkInv(x, c, all) && EndsPacket(x)
    requires forall j :: 0 <= j < |cycles| ==> cycles[j].replyPending && cycles[j].requesterMac == m && cycles[j].requesterIp == a
    ensures WellFormed(x.inserter.hw)
    ensures Readies(cycles) >= ToReply(x) ==> HasReply(c, m, a, LinkRun(x, c, cycles).inserter.packets, |x.inserter.packets|)
    decreases |cycles|
  {
    hide LinkStep, Inv, Ordered, IsFrame, ToReply, StartsReply, EndsPacket, DataWords;
    InvFacts(x.inserter, c);
    if cycles == [] {
      ToReplyPositive(x);
    } else {
      var k, x' := cycles[0], LinkStep(x, c, cycles[0]);
      LinkInvStep(x, c, k, all);
      WordsStep(x, c, k);
      ToReplyStep(x, c, k);
      PacketsGrow(x', c, cycles[1..]);
      var last := LinkRun(x', c, cycles[1..]).inserter.packets;
      if StartsReply(x.inserter.hw, Offer(x.left, k)) {
        ReplyEnters(x, c, k);
        assert last[|x'.inserter.packets| - 1] == x'.inserter.packets[|x'.inserter.packets| - 1];
      } else {
        ReplyIsStarted(x', c, cycles[1..], m, a, all);
      }
    }
  }

  lemma ToReplyPositive(x: Link)
    requires CountersOk(x.inserter.hw)
    ensures ToReply(x) > 0
  {
    PositionNotNegative(x.inserter.hw);
  }

  // ---------------------------------------------------------------- the clocked entity

  class Inserter {
    const settings: Settings
    var fsmState: State
    var inDataPacket: bool
    var padCounter: nat
    var activeArpIsReply: bool
    var sendingTargetMac: Mac
    var sendingTargetIp: Ip
    var replyStarted: bool
    var framed: Stage
    var output: Stage

    function Registers(): Regs
      reads this
    {
      Regs(fsmState, inDataPacket, padCounter, activeArpIsReply, sendingTargetMac, sendingTargetIp, replyStarted, framed, output)
    }

    constructor (settings: Settings)
      ensures JustReset(Registers()) && this.settings == settings
    {
      this.settings := settings;
      fsmState, inDataPacket, padCounter, activeArpIsReply := Idle, false, 0, false;
      sendingTargetMac, sendingTargetIp, replyStarted := NO_MAC, [0, 0, 0, 0], false;
      framed, output := Stage(false, Word(0, false, false)), Stage(false, Word(0, false, false));
    }

    /** The idle state: the data word passes, and a request starts a frame at a packet boundary. */
    method IdleProcess(i: Input)
      requires WellFormed(Registers()) && fsmState == Idle && OutputReady(Registers(), i)
      modifies this`fsmState, this`activeArpIsReply, this`sendingTargetMac, this`sendingTargetIp, this`replyStarted,
               this`padCounter, this`framed
      ensures var s, s' := old(Registers()), Step(old(Registers()), settings, i);
              Registers() == s'.(inDataPacket := s.inDataPacket, out := s.out)
    {
      replyStarted := false;
      padCounter := (padCounter + 31) % 32;
      framed := Stage(i.valid, Word(i.data, false, i.last));
      if (!i.valid && !inDataPacket) || (i.valid && i.last) {
        if i.replyPending {
          activeArpIsReply, sendingTargetMac, sendingTargetIp := true, i.requesterMac, i.requesterIp;
          replyStarted := true;
          fsmState := Fields(0);
        } else if i.garpPending {
          activeArpIsReply, sendingTargetMac, sendingTargetIp := false, NO_MAC, settings.ip;
          fsmState := Fields(0);
        }
      }
    }

    /** One byte of an ARP frame. */
    method FrameProcess(i: Input)
      requires WellFormed(Registers()) && fsmState != Idle && OutputReady(Registers(), i)
      modifies this`fsmState, this`replyStarted, this`padCounter, this`framed
      ensures var s, s' := old(Registers()), Step(old(Registers()), settings, i);
              Registers() == s'.(inDataPacket := s.inDataPacket, out := s.out)
    {
      hide FieldBytes;
      var counter := padCounter;
      replyStarted := false;
      padCounter := (counter + 31) % 32;
      framed := Stage(true, Word(0, true, false));
      match fsmState {
        case Fields(k) =>
          framed := Stage(true, Word(FieldBytes(settings, activeArpIsReply)[k], true, false));
          if k == 17 {
            fsmState, padCounter := TargetMac, 5;
          } else {
            fsmState := Fields(k + 1);
          }
        case TargetMac =>
          if activeArpIsReply && counter <= 5 {
            framed := Stage(true, Word(sendingTargetMac[5 - counter], true, false));
          }
          if counter == 0 {
            fsmState := TargetIp(0);
          }
        case TargetIp(k) =>
          framed := Stage(true, Word(sendingTargetIp[k], true, false));
          if k == 3 {
            fsmState, padCounter := Pad, 18;
          } else {
            fsmState := TargetIp(k + 1);
          }
        case Pad =>
          if counter == 0 {
            fsmState := Idle;
            framed := Stage(true, Word(0, true, true));
          }
      }
    }

    method Clock(i: Input)
      requires WellFormed(Registers())
      modifies this
      ensures Registers() == Step(old(Registers()), settings, i)
    {
      var outputReady := i.ready || !output.valid;
      var staged, flag := framed, inDataPacket;
      hide NextFramed, NextPad, NextState, FieldBytes;
      if outputReady {
        if i.valid && !flag {
          flag := true;
        }
        if i.valid && i.last {
          flag := false;
        }
        if fsmState == Idle {
          IdleProcess(i);
        } else {
          FrameProcess(i);
        }
        output := staged;
        inDataPacket := flag;
      } else {
        replyStarted := false;
      }
    }
  }
}
