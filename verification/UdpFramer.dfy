/** UDP/IP framer: payload and length FIFOs, the header state machine, the header checksum. */
module UdpFramer {
  import opened BitVectors
  import opened ByteStream
  import opened HeaderChecksum
  import F = SyncFifo

  /** The length counter and the length FIFO are eleven bits wide. */
  type Length = n: int | 0 <= n < 2048

  datatype Stage = Stage(valid: bool, word: Word)

  /** Header(k) sends header byte k: 20 bytes of IP, then 8 of UDP. */
  datatype State = Idle | Header(k: nat) | Data

  datatype Settings = Settings(src: Address, dest: Address, sourcePort: Word16, destPort: Word16, seed: Word16)

  /** The input register, held until it can be written to the FIFOs, and the length counter. */
  datatype InputRegs = InputRegs(firstWord: bool, we: bool, din: Byte, lengthValid: bool, counter: Length)

  /** The input register, the two FIFOs, the state machine, the output pipeline. */
  datatype Regs = Regs(
    input: InputRegs, data: F.Regs<Byte>, length: F.Regs<Length>,
    state: State, remaining: Length, udpLength: Word16, ipLength: Word16, c1: Word16, c2: Word16,
    framed: Stage, out: Stage)

  /** One cycle, enabled throughout; tlast comes with tvalid. */
  datatype Input = Input(offered: Offer, ready: bool)

  datatype Offer = Nothing | Offered(data: Byte, last: bool)

  predicate WellFormed(s: Regs) {
    F.WellFormed(s.data) && F.WellFormed(s.length) && (s.state.Header? ==> s.state.k < 28)
  }

  predicate Ready(s: Regs)
    requires WellFormed(s)
  {
    !(F.Full(s.data) || F.Full(s.length)) || !s.input.we
  }

  predicate OutputReady(s: Regs, i: Input) { i.ready || !s.out.valid }

  predicate Accepts(s: Regs, i: Input)
    requires WellFormed(s)
  {
    Ready(s) && i.offered.Offered?
  }

  predicate DataRead(s: Regs, i: Input) { OutputReady(s, i) && s.state == Data }

  predicate LengthRead(s: Regs, i: Input) { OutputReady(s, i) && s.state == Header(25) }

  predicate Starts(s: Regs, i: Input) { OutputReady(s, i) && s.state == Idle && s.length.outValid }

  /** The 8 bytes of the UDP header; the checksum is not used. */
  function UdpBytes(sourcePort: Word16, destPort: Word16, length: Word16): (h: seq<Byte>)
    ensures |h| == 8
  {
    [sourcePort / 0x100, sourcePort % 0x100, destPort / 0x100, destPort % 0x100, length / 0x100, length % 0x100, 0, 0]
  }

  function HeaderByte(c: Settings, s: Regs, k: nat): Byte
    requires k < 28
  {
    if k < 20 then HeaderBytes(c.src, c.dest, s.ipLength, s.c2)[k]
    else UdpBytes(c.sourcePort, c.destPort, s.udpLength)[k - 20]
  }

  function NextState(s: Regs): State {
    match s.state
    case Idle => if s.length.outValid then Header(0) else Idle
    case Header(k) => if k == 27 then Data else Header(k + 1)
    case Data => if s.remaining == 0 then Idle else Data
  }

  function NextFramed(s: Regs, c: Settings): Stage
    requires WellFormed(s)
  {
    match s.state
    case Idle => Stage(false, Word(s.framed.word.data, false))
    case Header(k) => Stage(true, Word(HeaderByte(c, s, k), false))
    case Data => Stage(true, Word(s.data.out, s.remaining == 0))
  }

  function InputStep(r: InputRegs, offered: Offer): InputRegs {
    match offered
    case Nothing => r.(we := false, lengthValid := false)
    case Offered(b, last) => InputRegs(last, true, b, last, if r.firstWord then 1 else (r.counter + 1) % 2048)
  }

  function Step(s: Regs, c: Settings, i: Input): (s': Regs)
    requires WellFormed(s)
    ensures WellFormed(s')
  {
    var r := s.input;
    var start := Starts(s, i);
    var go := OutputReady(s, i);
    Regs(if Ready(s) then InputStep(r, i.offered) else r,
         F.Step(s.data, r.we && Ready(s), r.din, DataRead(s, i)),
         F.Step(s.length, r.lengthValid && Ready(s), r.counter, LengthRead(s, i)),
         if go then NextState(s) else s.state,
         if start then (s.length.out + 2047) % 2048 else if DataRead(s, i) then (s.remaining + 2047) % 2048 else s.remaining,
         if start then s.length.out + 8 else s.udpLength,
         if start then s.length.out + 28 else s.ipLength,
         if go && s.state == Header(8) then (c.seed + s.ipLength) % 0x10000 else s.c1,
         0xFFFF - s.c1,
         if go then NextFramed(s, c) else s.framed,
         if go then s.framed else s.out)
  }

  /** The words taken from the output in this cycle. */
  function Delivers(s: Regs, i: Input): seq<Word> { if i.ready && s.out.valid then [s.out.word] else [] }

  // ---------------------------------------------------------------- what is sent

  /** Most significant byte first. */
  function Big(n: Word16): (b: seq<Byte>)
    ensures |b| == 2
  {
    [n / 0x100, n % 0x100]
  }

  /** A datagram by section 3.1 of RFC 791 and RFC 768: version and header length, total length, no fragments, time to live,
      protocol, checksum, addresses; ports, UDP length, no UDP checksum; the payload. */
  function DatagramBytes(c: Settings, p: seq<Byte>): (b: seq<Byte>)
    requires |p| <= 2047
    ensures |b| == |p| + 28
  {
    [0x45, 0] + Big(|p| + 28) + [0, 0, 0, 0, 0x80, 0x11] + Big(0xFFFF - (c.seed + |p| + 28) % 0x10000)
    + Big(c.src / 0x10000) + Big(c.src % 0x10000) + Big(c.dest / 0x10000) + Big(c.dest % 0x10000)
    + Big(c.sourcePort) + Big(c.destPort) + Big(|p| + 8) + [0, 0] + p
  }

  /** The bytes that the header tables hold. */
  lemma DatagramParts(c: Settings, p: seq<Byte>)
    requires |p| <= 2047
    ensures DatagramBytes(c, p) == HeaderBytes(c.src, c.dest, |p| + 28, Checksum(c.seed, |p| + 28))
                                   + UdpBytes(c.sourcePort, c.destPort, |p| + 8) + p
  {
    HalvesOfAddress(c.src);
    HalvesOfAddress(c.dest);
    var fixed := HeaderBytes(c.src, c.dest, |p| + 28, Checksum(c.seed, |p| + 28));
    var udp := UdpBytes(c.sourcePort, c.destPort, |p| + 8);
    assert DatagramBytes(c, p)[..20] == fixed;
    assert DatagramBytes(c, p)[20..28] == udp;
    assert DatagramBytes(c, p)[28..] == p;
  }

  lemma HalvesOfAddress(a: Address)
    ensures Big(a / 0x10000) == [a / 0x1000000, a / 0x10000 % 0x100]
    ensures Big(a % 0x10000) == [a / 0x100 % 0x100, a % 0x100]
  {
    HighBytes(a);
    LowBytes(a);
  }

  lemma HighBytes(a: Address)
    ensures a / 0x10000 / 0x100 == a / 0x1000000
  {
  }

  lemma LowBytes(a: Address)
    ensures a % 0x10000 / 0x100 == a / 0x100 % 0x100 && a % 0x10000 % 0x100 == a % 0x100
  {
  }

  function Datagram(c: Settings, p: seq<Byte>): (w: seq<Word>)
    requires |p| <= 2047
    ensures |w| == |p| + 28
  {
    PacketWords(DatagramBytes(c, p))
  }

  predicate Sizes(ps: seq<seq<Byte>>) { forall j :: 0 <= j < |ps| ==> 1 <= |ps[j]| <= 2047 }

  function Datagrams(c: Settings, ps: seq<seq<Byte>>): seq<Word>
    requires Sizes(ps)
  {
    if ps == [] then [] else Datagrams(c, ps[..|ps| - 1]) + Datagram(c, ps[|ps| - 1])
  }

  function Lengths(ps: seq<seq<Byte>>): (l: seq<Length>)
    requires Sizes(ps)
    ensures |l| == |ps|
  {
    seq(|ps|, j requires 0 <= j < |ps| => |ps[j]|)
  }

  /** The registers with: the payloads accepted completely and the words of the one being accepted; the payloads sent
      completely, those in the FIFOs, oldest first, and the words in the FIFO whose payload is not complete; the words
      delivered. */
  datatype History = History(
    hw: Regs, accepted: seq<seq<Byte>>, partial: seq<Byte>,
    done: seq<seq<Byte>>, queue: seq<seq<Byte>>, open: seq<Byte>, delivered: seq<Word>)

  /** The payloads and the open words in the FIFOs after the input register was written. */
  function Stored(r: InputRegs, write: bool, queue: seq<seq<Byte>>, open: seq<Byte>): (seq<seq<Byte>>, seq<Byte>) {
    if !write then (queue, open)
    else if r.lengthValid then (queue + [open + [r.din]], [])
    else (queue, open + [r.din])
  }

  predicate Finishes(s: Regs, i: Input) { DataRead(s, i) && s.remaining == 0 }

  function Observe(h: History, c: Settings, i: Input): (h': History)
    requires WellFormed(h.hw)
    ensures WellFormed(h'.hw)
  {
    var s := h.hw;
    var stored := Stored(s.input, s.input.we && Ready(s), h.queue, h.open);
    var taken := Accepts(s, i);
    var whole := taken && i.offered.last;
    var finishes := Finishes(s, i) && stored.0 != [];
    History(Step(s, c, i),
            if whole then h.accepted + [h.partial + [i.offered.data]] else h.accepted,
            if whole then [] else if taken then h.partial + [i.offered.data] else h.partial,
            if finishes then h.done + [stored.0[0]] else h.done,
            if finishes then stored.0[1..] else stored.0,
            stored.1,
            h.delivered + Delivers(s, i))
  }

  // ---------------------------------------------------------------- the invariant

  /** The input register and the length counter, given all payloads that were ever stored and the open words. */
  predicate InputOk(r: InputRegs, accepted: seq<seq<Byte>>, partial: seq<Byte>, all: seq<seq<Byte>>, open: seq<Byte>) {
    && Sizes(accepted) && |partial| <= 2047
    && (r.firstWord <==> partial == []) && (partial != [] ==> r.counter == |partial|)
    && (r.lengthValid ==> r.we && r.counter == |open| + 1 && partial == [] && accepted == all + [open + [r.din]])
    && (!r.lengthValid ==> partial == (if r.we then open + [r.din] else open) && accepted == all)
  }

  /** The current payload's length has left the length FIFO. */
  predicate Popped(s: Regs) { s.state == Data || s.state == Header(26) || s.state == Header(27) }

  /** The state machine's registers; the payload being sent is the oldest one stored. */
  predicate ControlOk(h: History, c: Settings) {
    var s := h.hw;
    && WellFormed(s) && Sizes(h.queue) && Sizes(h.done)
    && (s.state != Idle ==>
          && h.queue != []
          && (if s.state == Data then s.remaining < |h.queue[0]| else s.remaining == |h.queue[0]| - 1)
          && s.udpLength == |h.queue[0]| + 8 && s.ipLength == |h.queue[0]| + 28)
    && ChecksumOk(s, c)
  }

  predicate ChecksumOk(s: Regs, c: Settings) {
    && (s.state == Header(9) ==> s.c1 == (c.seed + s.ipLength) % 0x10000)
    && (s.state.Header? && s.state.k >= 10 ==>
          s.c1 == (c.seed + s.ipLength) % 0x10000 && s.c2 == Checksum(c.seed, s.ipLength))
  }

  /** The words stored: the rest of the payload being read, whole payloads, words of an incomplete one. */
  function Left(reading: bool, remaining: nat, queue: seq<seq<Byte>>, open: seq<Byte>): seq<Byte>
    requires reading ==> queue != [] && remaining < |queue[0]|
  {
    (if reading then queue[0][|queue[0]| - 1 - remaining..] + Flatten(queue[1..]) else Flatten(queue)) + open
  }

  ghost predicate LengthsOk(h: History, c: Settings)
    requires ControlOk(h, c)
  {
    F.Contents(h.hw.length) == Lengths(if Popped(h.hw) then h.queue[1..] else h.queue)
  }

  /** The FIFOs hold what is to be sent, and no more; a length shown, or a datagram under way, means that a payload word
      is shown. */
  ghost predicate StoreOk(h: History, c: Settings)
    requires ControlOk(h, c)
  {
    var s := h.hw;
    && F.Contents(s.data) == Left(s.state == Data, s.remaining, h.queue, h.open)
    && LengthsOk(h, c)
    && (s.length.outValid || s.state != Idle ==> s.data.outValid)
    && (s.state != Idle && !Popped(s) ==> s.length.outValid)
  }

  function Shown(s: Stage): seq<Word> { if s.valid then [s.word] else [] }

  function Position(h: History, c: Settings): int
    requires ControlOk(h, c)
  {
    match h.hw.state
    case Idle => 0
    case Header(k) => k
    case Data => |h.queue[0]| + 27 - h.hw.remaining
  }

  /** What is still to come of the current datagram. */
  function Rest(h: History, c: Settings): seq<Word>
    requires ControlOk(h, c)
  {
    if h.hw.state == Idle then [] else Datagram(c, h.queue[0])[Position(h, c)..]
  }

  function Started(h: History, c: Settings): (ps: seq<seq<Byte>>)
    requires ControlOk(h, c)
    ensures Sizes(ps)
  {
    if h.hw.state == Idle then h.done else h.done + [h.queue[0]]
  }

  function Pipeline(h: History, c: Settings): seq<Word>
    requires ControlOk(h, c)
  {
    Shown(h.hw.out) + Shown(h.hw.framed) + Rest(h, c)
  }

  ghost predicate Inv(h: History, c: Settings) {
    && InputOk(h.hw.input, h.accepted, h.partial, h.done + h.queue, h.open) && ControlOk(h, c) && StoreOk(h, c)
    && Datagrams(c, Started(h, c)) == h.delivered + Pipeline(h, c)
  }

  /** The sender keeps payloads within the eleven-bit counter. */
  predicate Fits(h: History, i: Input)
    requires WellFormed(h.hw)
  {
    Accepts(h.hw, i) ==> |h.partial| < 2047
  }

  // ---------------------------------------------------------------- one cycle

  /** The input register with what was accepted, when it is written and loaded again. */
  lemma InputLoaded(r: InputRegs, accepted: seq<seq<Byte>>, partial: seq<Byte>, all: seq<seq<Byte>>, open: seq<Byte>, offered: Offer)
    requires InputOk(r, accepted, partial, all, open) && (offered.Offered? ==> |partial| < 2047)
    ensures var stored := Stored(r, r.we, all, open);
            match offered
            case Nothing => InputOk(InputStep(r, offered), accepted, partial, stored.0, stored.1)
            case Offered(b, last) =>
              if last then InputOk(InputStep(r, offered), accepted + [partial + [b]], [], stored.0, stored.1)
              else InputOk(InputStep(r, offered), accepted, partial + [b], stored.0, stored.1)
  {
  }

  lemma StoredAll(r: InputRegs, write: bool, done: seq<seq<Byte>>, queue: seq<seq<Byte>>, open: seq<Byte>)
    ensures Stored(r, write, done + queue, open).1 == Stored(r, write, queue, open).1
    ensures Stored(r, write, done + queue, open).0 == done + Stored(r, write, queue, open).0
  {
  }

  /** What a cycle does on the input side. */
  lemma InputObserved(h: History, c: Settings, i: Input)
    requires WellFormed(h.hw)
    ensures var h', r, ready := Observe(h, c, i), h.hw.input, Ready(h.hw);
            && h'.hw.input == (if ready then InputStep(r, i.offered) else r)
            && h'.open == Stored(r, r.we && ready, h.queue, h.open).1
            && h'.done + h'.queue == h.done + Stored(r, r.we && ready, h.queue, h.open).0
            && (!ready || i.offered.Nothing? ==> h'.accepted == h.accepted && h'.partial == h.partial)
            && (ready && i.offered.Offered? ==>
                  var p := h.partial + [i.offered.data];
                  && h'.accepted == (if i.offered.last then h.accepted + [p] else h.accepted)
                  && h'.partial == (if i.offered.last then [] else p))
  {
    hide Stored, InputStep, HeaderByte, NextFramed;
  }

  lemma InputKept(h: History, c: Settings, i: Input)
    requires WellFormed(h.hw) && Fits(h, i)
    requires InputOk(h.hw.input, h.accepted, h.partial, h.done + h.queue, h.open)
    ensures var h' := Observe(h, c, i); InputOk(h'.hw.input, h'.accepted, h'.partial, h'.done + h'.queue, h'.open)
  {
    hide InputOk, Observe, InputStep, Ready, Step;
    InputObserved(h, c, i);
    StoredAll(h.hw.input, h.hw.input.we && Ready(h.hw), h.done, h.queue, h.open);
    if Ready(h.hw) {
      hide Stored;
      InputLoaded(h.hw.input, h.accepted, h.partial, h.done + h.queue, h.open, i.offered);
    }
  }

  lemma SizesParts(a: seq<seq<Byte>>, b: seq<seq<Byte>>)
    requires Sizes(a + b)
    ensures Sizes(a) && Sizes(b)
  {
    assert forall j :: 0 <= j < |a| ==> (a + b)[j] == a[j];
    assert forall j :: 0 <= j < |b| ==> (a + b)[|a| + j] == b[j];
  }

  lemma SizesKept(h: History)
    requires InputOk(h.hw.input, h.accepted, h.partial, h.done + h.queue, h.open)
    ensures Sizes(h.done) && Sizes(h.queue)
  {
    if h.hw.input.lengthValid {
      SizesParts(h.done + h.queue, [h.open + [h.hw.input.din]]);
    }
    SizesParts(h.done, h.queue);
  }

  /** A length shown is the length of the oldest payload. */
  lemma LengthIsOldest(h: History, c: Settings)
    requires ControlOk(h, c) && StoreOk(h, c) && h.hw.length.outValid && h.hw.state == Idle
    ensures h.queue != [] && h.hw.length.out == |h.queue[0]|
  {
    hide F.Ring, Left;
    F.ContentsParts(h.hw.length);
    assert F.Contents(h.hw.length)[0] == h.hw.length.out;
  }

  /** What a cycle does to the state machine. */
  lemma ControlObserved(h: History, c: Settings, i: Input)
    requires WellFormed(h.hw)
    ensures var s, s' := h.hw, Step(h.hw, c, i);
            && Observe(h, c, i).hw == s'
            && s'.state == (if OutputReady(s, i) then NextState(s) else s.state)
            && s'.remaining == (if Starts(s, i) then (s.length.out + 2047) % 2048 else if DataRead(s, i) then (s.remaining + 2047) % 2048 else s.remaining)
            && s'.udpLength == (if Starts(s, i) then s.length.out + 8 else s.udpLength)
            && s'.ipLength == (if Starts(s, i) then s.length.out + 28 else s.ipLength)
            && s'.c1 == (if OutputReady(s, i) && s.state == Header(8) then (c.seed + s.ipLength) % 0x10000 else s.c1)
            && s'.c2 == 0xFFFF - s.c1
  {
    hide HeaderByte, F.Step, InputStep, Ready;
  }

  lemma ChecksumKept(s: Regs, c: Settings, i: Input)
    requires WellFormed(s) && ChecksumOk(s, c)
    ensures ChecksumOk(Step(s, c, i), c)
  {
    ControlObserved(History(s, [], [], [], [], [], []), c, i);
    hide Step, Observe;
  }

  lemma QueueObserved(h: History, c: Settings, i: Input)
    requires WellFormed(h.hw) && h.queue != []
    ensures var h' := Observe(h, c, i);
            if Finishes(h.hw, i) then h'.done == h.done + [h.queue[0]]
            else h'.done == h.done && h'.queue != [] && h'.queue[0] == h.queue[0]
  {
    hide Step;
  }

  lemma ControlKept(h: History, c: Settings, i: Input)
    requires ControlOk(h, c) && StoreOk(h, c) && Sizes(Observe(h, c, i).queue) && Sizes(Observe(h, c, i).done)
    ensures ControlOk(Observe(h, c, i), c)
  {
    hide ChecksumOk, Observe, Step, StoreOk, F.WellFormed;
    var s := h.hw;
    ControlObserved(h, c, i);
    ChecksumKept(s, c, i);
    if Starts(s, i) {
      LengthIsOldest(h, c);
    }
    if h.queue != [] {
      QueueObserved(h, c, i);
    }
  }

  // ---------------------------------------------------------------- the FIFOs

  /** Writing the input register appends its word. */
  lemma LeftWritten(r: InputRegs, reading: bool, remaining: nat, queue: seq<seq<Byte>>, open: seq<Byte>)
    requires reading ==> queue != [] && remaining < |queue[0]|
    ensures var stored := Stored(r, true, queue, open);
            && (reading ==> stored.0 != [] && stored.0[0] == queue[0])
            && Left(reading, remaining, stored.0, stored.1) == Left(reading, remaining, queue, open) + [r.din]
  {
    var p := open + [r.din];
    if r.lengthValid {
      FlattenOne(p);
      FlattenAppend(queue, [p]);
      if reading {
        FlattenAppend(queue[1..], [p]);
        assert (queue + [p])[1..] == queue[1..] + [p];
      }
      hide Flatten;
    }
  }

  lemma PullOne(q: seq<Byte>, k: nat, rest: seq<Byte>, open: seq<Byte>)
    requires k < |q|
    ensures q[k..] + rest + open == [q[k]] + (q[k + 1..] + rest + open)
    ensures k == |q| - 1 ==> q[k + 1..] + rest + open == rest + open
  {
    assert q[k..] == [q[k]] + q[k + 1..];
  }

  /** Reading takes the next word of the payload being sent. */
  lemma LeftRead(remaining: nat, queue: seq<seq<Byte>>, open: seq<Byte>)
    requires queue != [] && remaining < |queue[0]|
    ensures Left(true, remaining, queue, open)
            == [queue[0][|queue[0]| - 1 - remaining]]
               + (if remaining == 0 then Left(false, 0, queue[1..], open) else Left(true, remaining - 1, queue, open))
  {
    var q, k := queue[0], |queue[0]| - 1 - remaining;
    hide Flatten;
    PullOne(q, k, Flatten(queue[1..]), open);
  }

  /** Entering the payload. */
  lemma LeftStarts(queue: seq<seq<Byte>>, open: seq<Byte>)
    requires queue != [] && queue[0] != []
    ensures Left(false, 0, queue, open) == Left(true, |queue[0]| - 1, queue, open)
  {
    assert queue[0][0..] == queue[0];
  }

  /** The data FIFO's word is the next payload word. */
  lemma DataIsNext(h: History, c: Settings)
    requires ControlOk(h, c) && StoreOk(h, c) && h.hw.state == Data
    ensures h.hw.data.outValid && h.hw.data.out == h.queue[0][|h.queue[0]| - 1 - h.hw.remaining]
  {
    LeftRead(h.hw.remaining, h.queue, h.open);
    hide F.Ring, Left, Lengths;
    F.ContentsParts(h.hw.data);
    assert F.Contents(h.hw.data)[0] == h.hw.data.out;
  }

  /** What a cycle does to the data FIFO. */
  lemma DataObserved(h: History, c: Settings, i: Input)
    requires ControlOk(h, c) && StoreOk(h, c)
    ensures var s, d' := h.hw, Step(h.hw, c, i).data;
            && F.WellFormed(d')
            && F.Contents(d') == (if DataRead(s, i) then F.Contents(s.data)[1..] else F.Contents(s.data))
                                 + (if s.input.we && Ready(s) then [s.input.din] else [])
            && (d'.outValid <==> (s.data.outValid && !DataRead(s, i)) || F.Ring(s.data) != [])
  {
    F.StepIsQueue(h.hw.data, h.hw.input.we && Ready(h.hw), h.hw.input.din, DataRead(h.hw, i));
    hide F.Step, F.Contents, F.Ring, Left, Lengths, F.Full;
  }

  lemma LengthObserved(h: History, c: Settings, i: Input)
    requires ControlOk(h, c) && StoreOk(h, c) && (h.hw.input.lengthValid ==> h.hw.input.we)
    ensures var s, l' := h.hw, Step(h.hw, c, i).length;
            && F.WellFormed(l')
            && (LengthRead(s, i) ==> F.Contents(s.length) != [])
            && F.Contents(l') == (if LengthRead(s, i) then F.Contents(s.length)[1..] else F.Contents(s.length))
                                 + (if s.input.lengthValid && Ready(s) then [s.input.counter] else [])
            && (l'.outValid <==> (s.length.outValid && !LengthRead(s, i)) || F.Ring(s.length) != [])
  {
    F.StepIsQueue(h.hw.length, h.hw.input.lengthValid && Ready(h.hw), h.hw.input.counter, LengthRead(h.hw, i));
    F.ContentsParts(h.hw.length);
    hide F.Step, F.Contents, F.Ring, Left, Lengths, F.Full;
  }

  /** The queue after the write, before anything is taken from it. */
  lemma QueueWritten(h: History, c: Settings, i: Input)
    requires WellFormed(h.hw)
    ensures var h', s := Observe(h, c, i), h.hw;
            var stored := Stored(s.input, s.input.we && Ready(s), h.queue, h.open);
            && h'.open == stored.1
            && h'.queue == (if Finishes(s, i) && stored.0 != [] then stored.0[1..] else stored.0)
  {
    hide Step, Stored;
  }

  /** The data FIFO after the cycle, as what was left with the written word. */
  lemma DataWritten(h: History, c: Settings, i: Input)
    requires ControlOk(h, c) && StoreOk(h, c)
    ensures var s, r := h.hw, h.hw.input;
            var stored := Stored(r, r.we && Ready(s), h.queue, h.open);
            && F.WellFormed(Step(s, c, i).data) && (s.state == Data ==> stored.0 != [] && stored.0[0] == h.queue[0])
            && var left := Left(s.state == Data, s.remaining, stored.0, stored.1);
               (DataRead(s, i) ==> left != [])
               && F.Contents(Step(s, c, i).data) == if DataRead(s, i) then left[1..] else left
  {
    var s, r := h.hw, h.hw.input;
    DataObserved(h, c, i);
    if r.we && Ready(s) {
      LeftWritten(r, s.state == Data, s.remaining, h.queue, h.open);
    }
    if s.state == Data {
      LeftRead(s.remaining, h.queue, h.open);
    }
    hide Left, Lengths, Step, F.Contents, F.Ring, F.WellFormed, ChecksumOk, Sizes, Ready;
  }

  /** What is left after a cycle that reads a word, enters the payload, or does neither. */
  lemma LeftStep(reading: bool, taking: bool, reading': bool, remaining: nat, remaining': nat, queue: seq<seq<Byte>>,
                 queue': seq<seq<Byte>>, open: seq<Byte>)
    requires reading ==> queue != [] && remaining < |queue[0]|
    requires taking ==>
               reading && reading' == (remaining != 0) && (remaining != 0 ==> remaining' == remaining - 1 && queue' == queue)
               && (remaining == 0 ==> queue' == queue[1..])
    requires !taking && reading ==> reading' && remaining' == remaining && queue' == queue
    requires !taking && !reading && reading' ==>
               queue' == queue && queue != [] && queue[0] != [] && remaining' == |queue[0]| - 1
    requires !taking && !reading && !reading' ==> queue' == queue
    ensures Left(reading', remaining', queue', open)
            == if taking then Left(reading, remaining, queue, open)[1..] else Left(reading, remaining, queue, open)
  {
    if taking {
      LeftRead(remaining, queue, open);
    } else if !reading && reading' {
      LeftStarts(queue, open);
    }
    hide Flatten;
  }

  /** How a cycle moves through the payload. */
  lemma ReadingFacts(h: History, c: Settings, i: Input)
    requires ControlOk(h, c) && ControlOk(Observe(h, c, i), c)
    ensures var s, s', r := h.hw, Observe(h, c, i).hw, h.hw.input;
            var queue := Stored(r, r.we && Ready(s), h.queue, h.open).0;
            && (s.state == Data ==> queue != [] && s.remaining < |queue[0]|)
            && (DataRead(s, i) ==> (s'.state == Data) == (s.remaining != 0) && (s.remaining != 0 ==> s'.remaining == s.remaining - 1))
            && (!DataRead(s, i) && s.state == Data ==> s'.state == Data && s'.remaining == s.remaining)
            && (s'.state == Data && s.state != Data ==> queue != [] && queue[0] != [] && s'.remaining == |queue[0]| - 1)
  {
    var s, r, h' := h.hw, h.hw.input, Observe(h, c, i);
    QueueWritten(h, c, i);
    ControlObserved(h, c, i);
    if h'.hw.state == Data {
      StaysNonEmpty(h', c);
    }
    if h.queue != [] {
      StoredHead(r, r.we && Ready(s), h.queue, h.open);
    }
    hide Stored, Observe, Step, F.WellFormed, ChecksumOk, Ready, Sizes, Flatten;
  }

  lemma DataKept(h: History, c: Settings, i: Input)
    requires ControlOk(h, c) && StoreOk(h, c) && ControlOk(Observe(h, c, i), c)
    ensures var h' := Observe(h, c, i);
            F.Contents(h'.hw.data) == Left(h'.hw.state == Data, h'.hw.remaining, h'.queue, h'.open)
  {
    var s, r, h' := h.hw, h.hw.input, Observe(h, c, i);
    var stored := Stored(r, r.we && Ready(s), h.queue, h.open);
    DataWritten(h, c, i);
    QueueWritten(h, c, i);
    ReadingFacts(h, c, i);
    assert DataRead(s, i) ==> s.state == Data && (Finishes(s, i) <==> s.remaining == 0);
    assert Finishes(s, i) ==> DataRead(s, i);
    assert h'.hw == Step(s, c, i);
    hide *;
    LeftStep(s.state == Data, DataRead(s, i), h'.hw.state == Data, s.remaining, h'.hw.remaining, stored.0, h'.queue, stored.1);
  }

  lemma StaysNonEmpty(h: History, c: Settings)
    requires ControlOk(h, c) && h.hw.state != Idle
    ensures h.queue != [] && h.queue[0] != []
  {
  }

  lemma LengthsAppend(ps: seq<seq<Byte>>, p: seq<Byte>)
    requires Sizes(ps) && Sizes(ps + [p])
    ensures 1 <= |p| <= 2047 && Lengths(ps + [p]) == Lengths(ps) + [|p|]
  {
    assert (ps + [p])[|ps|] == p;
  }

  lemma LengthsTail(ps: seq<seq<Byte>>)
    requires Sizes(ps) && ps != []
    ensures Sizes(ps[1..]) && Lengths(ps[1..]) == Lengths(ps)[1..]
  {
  }

  /** The payloads whose lengths are stored, after the write. */
  lemma LengthsWritten(r: InputRegs, write: bool, queue: seq<seq<Byte>>, open: seq<Byte>, from: nat)
    requires from <= |queue| && Sizes(queue) && Sizes(Stored(r, write, queue, open).0)
    requires r.lengthValid ==> r.counter == |open| + 1
    ensures var all := Stored(r, write, queue, open).0;
            && from <= |all| && Sizes(queue[from..]) && Sizes(all[from..])
            && Lengths(all[from..]) == Lengths(queue[from..]) + (if write && r.lengthValid then [r.counter] else [])
  {
    if write && r.lengthValid {
      var p := open + [r.din];
      assert (queue + [p])[from..] == queue[from..] + [p];
      LengthsAppend(queue[from..], p);
    }
  }

  /** The length FIFO after the cycle. */
  lemma LengthsAfter(h: History, c: Settings, i: Input)
    requires ControlOk(h, c) && StoreOk(h, c)
    requires h.hw.input.lengthValid ==> h.hw.input.we && h.hw.input.counter == |h.open| + 1
    requires Sizes(Stored(h.hw.input, h.hw.input.we && Ready(h.hw), h.queue, h.open).0)
    ensures var s, r := h.hw, h.hw.input;
            var stored, from := Stored(r, r.we && Ready(s), h.queue, h.open).0, if Popped(s) then 1 else 0;
            && from <= |stored| && Sizes(stored[from..]) && F.WellFormed(Step(s, c, i).length)
            && (LengthRead(s, i) ==> |stored| > from)
            && F.Contents(Step(s, c, i).length)
               == (if LengthRead(s, i) then Lengths(stored[from..])[1..] else Lengths(stored[from..]))
  {
    var s, r := h.hw, h.hw.input;
    var from := if Popped(s) then 1 else 0;
    LengthObserved(h, c, i);
    LengthsWritten(r, r.we && Ready(s), h.queue, h.open, from);
    assert h.queue[0..] == h.queue;
    hide Stored, Left, Lengths, Step, F.Contents, F.Ring, F.WellFormed, ChecksumOk, Ready;
  }

  /** Popping a length, or finishing a payload, or neither. */
  lemma LengthsStep(popped: bool, popping: bool, popped': bool, finishes: bool, queue: seq<seq<Byte>>, queue': seq<seq<Byte>>)
    requires Sizes(queue) && (popped || popping ==> queue != [])
    requires popping ==> !popped && popped' && queue' == queue
    requires finishes ==> popped && !popped' && queue' == queue[1..]
    requires !popping && !finishes ==> popped' == popped && queue' == queue
    ensures popped' ==> queue' != []
    ensures Sizes(if popped' then queue'[1..] else queue') && Sizes(queue[if popped then 1 else 0..])
    ensures var l := Lengths(queue[if popped then 1 else 0..]);
            (popping ==> l != [])
            && Lengths(if popped' then queue'[1..] else queue') == if popping then l[1..] else l
  {
    assert queue[0..] == queue;
    if queue != [] {
      LengthsTail(queue);
    }
  }

  /** How a cycle moves past the length and past the payload. */
  lemma PoppingFacts(h: History, c: Settings, i: Input)
    requires ControlOk(h, c)
    ensures var s, s', popping, finishes := h.hw, Observe(h, c, i).hw, LengthRead(h.hw, i), Finishes(h.hw, i);
            && (popping ==> !Popped(s) && Popped(s')) && (finishes ==> Popped(s) && !Popped(s'))
            && (!popping && !finishes ==> Popped(s') == Popped(s)) && (Popped(s) || popping ==> h.queue != [])
            && s' == Step(s, c, i)
  {
    ControlObserved(h, c, i);
    hide Observe, Step, F.WellFormed, ChecksumOk, Sizes;
  }

  lemma LengthsKept(h: History, c: Settings, i: Input)
    requires ControlOk(h, c) && StoreOk(h, c) && ControlOk(Observe(h, c, i), c)
    requires h.hw.input.lengthValid ==> h.hw.input.we && h.hw.input.counter == |h.open| + 1
    requires Sizes(Stored(h.hw.input, h.hw.input.we && Ready(h.hw), h.queue, h.open).0)
    ensures LengthsOk(Observe(h, c, i), c)
  {
    hide Observe, Step, Stored, Lengths, F.Contents, F.WellFormed, Left, ChecksumOk, Ready, Popped, LengthRead, Finishes, Sizes;
    var s, r, h' := h.hw, h.hw.input, Observe(h, c, i);
    var stored := Stored(r, r.we && Ready(s), h.queue, h.open).0;
    LengthsAfter(h, c, i);
    QueueWritten(h, c, i);
    PoppingFacts(h, c, i);
    if h.queue != [] {
      StoredHead(r, r.we && Ready(s), h.queue, h.open);
    }
    LengthsStep(Popped(s), LengthRead(s, i), Popped(h'.hw), Finishes(s, i), stored, h'.queue);
  }

  lemma StoredHead(r: InputRegs, write: bool, queue: seq<seq<Byte>>, open: seq<Byte>)
    requires queue != []
    ensures Stored(r, write, queue, open).0 != [] && Stored(r, write, queue, open).0[0] == queue[0]
  {
  }

  lemma FlattenEmpty(ps: seq<seq<Byte>>)
    requires Sizes(ps) && Flatten(ps) == []
    ensures ps == []
  {
  }

  lemma LeftSize(reading: bool, remaining: nat, queue: seq<seq<Byte>>, open: seq<Byte>)
    requires Sizes(queue) && (reading ==> queue != [] && remaining < |queue[0]|)
    ensures !reading && Left(reading, remaining, queue, open) == [] ==> queue == []
    ensures reading && |Left(reading, remaining, queue, open)| <= 1 ==> remaining == 0 && queue[1..] == []
  {
    if reading {
      if Flatten(queue[1..]) == [] {
        FlattenEmpty(queue[1..]);
      }
    } else if Flatten(queue) == [] {
      FlattenEmpty(queue);
    }
  }

  /** When the data ring is empty and its word is taken or missing, nothing at all is stored. */
  lemma NothingStored(h: History, c: Settings, i: Input)
    requires ControlOk(h, c) && StoreOk(h, c)
    requires F.Ring(h.hw.data) == [] && (h.hw.data.outValid ==> DataRead(h.hw, i))
    ensures h.hw.state == Idle || Finishes(h.hw, i)
    ensures !h.hw.length.outValid && F.Ring(h.hw.length) == []
  {
    var s := h.hw;
    F.ContentsParts(s.data);
    F.ContentsParts(s.length);
    LeftSize(s.state == Data, s.remaining, h.queue, h.open);
    hide F.Contents, F.Ring, Left, ChecksumOk, Flatten;
  }

  lemma ShownKept(h: History, c: Settings, i: Input)
    requires ControlOk(h, c) && StoreOk(h, c) && (h.hw.input.lengthValid ==> h.hw.input.we)
    ensures var s' := Step(h.hw, c, i);
            && (s'.length.outValid || s'.state != Idle ==> s'.data.outValid)
            && (s'.state != Idle && !Popped(s') ==> s'.length.outValid)
  {
    DataObserved(h, c, i);
    LengthObserved(h, c, i);
    ControlObserved(h, c, i);
    if F.Ring(h.hw.data) == [] && (h.hw.data.outValid ==> DataRead(h.hw, i)) {
      NothingStored(h, c, i);
    }
    hide Step, Observe, F.Contents, F.Ring, Left, Lengths, ChecksumOk, Sizes, F.WellFormed, Ready;
  }

  lemma StoreKept(h: History, c: Settings, i: Input)
    requires ControlOk(h, c) && StoreOk(h, c) && ControlOk(Observe(h, c, i), c)
    requires h.hw.input.lengthValid ==> h.hw.input.we && h.hw.input.counter == |h.open| + 1
    requires Sizes(Stored(h.hw.input, h.hw.input.we && Ready(h.hw), h.queue, h.open).0)
    ensures StoreOk(Observe(h, c, i), c)
  {
    DataKept(h, c, i);
    LengthsKept(h, c, i);
    ShownKept(h, c, i);
    assert Observe(h, c, i).hw == Step(h.hw, c, i);
    hide Step, Observe, F.Contents, F.Ring, Left, Lengths, ChecksumOk, Sizes, F.WellFormed, Ready, ControlOk;
  }

  // ---------------------------------------------------------------- conservation

  lemma DatagramsExtend(c: Settings, ps: seq<seq<Byte>>, p: seq<Byte>)
    requires Sizes(ps) && 1 <= |p| <= 2047
    ensures Sizes(ps + [p]) && Datagrams(c, ps + [p]) == Datagrams(c, ps) + Datagram(c, p)
  {
    assert (ps + [p])[..|ps|] == ps;
  }

  /** The word handed to the pipeline is the next one of the datagram. */
  lemma NextWord(h: History, c: Settings)
    requires ControlOk(h, c) && StoreOk(h, c) && h.hw.state != Idle
    ensures 0 <= Position(h, c) < |h.queue[0]| + 28
    ensures NextFramed(h.hw, c) == Stage(true, Datagram(c, h.queue[0])[Position(h, c)])
  {
    hide HeaderBytes, UdpBytes, DatagramBytes, F.Contents, Left, Lengths, F.WellFormed;
    var s, p, k := h.hw, h.queue[0], Position(h, c);
    var length := |p| + 28;
    var b := DatagramBytes(c, p);
    DatagramParts(c, p);
    match s.state {
      case Header(k) =>
        HeaderUpToChecksum(c.src, c.dest, length, s.c2, Checksum(c.seed, length), k);
        assert k < 20 ==> b[k] == HeaderBytes(c.src, c.dest, length, Checksum(c.seed, length))[k];
        assert k >= 20 ==> b[k] == UdpBytes(c.sourcePort, c.destPort, |p| + 8)[k - 20];
      case Data =>
        DataIsNext(h, c);
        assert b[k] == p[k - 28];
    }
  }

  /** Only header bytes 10 and 11 depend on the checksum. */
  lemma HeaderUpToChecksum(src: Address, dest: Address, length: Word16, a: Word16, b: Word16, k: nat)
    requires k >= 10 ==> a == b
    ensures k < 20 ==> HeaderBytes(src, dest, length, a)[k] == HeaderBytes(src, dest, length, b)[k]
  {
  }

  /** What a cycle adds to what has to be sent. */
  function New(h: History, c: Settings, i: Input): seq<Word>
    requires ControlOk(h, c)
  {
    if Starts(h.hw, i) && h.queue != [] then Datagram(c, h.queue[0]) else []
  }

  lemma StartedGrows(h: History, c: Settings, i: Input)
    requires ControlOk(h, c) && StoreOk(h, c) && ControlOk(Observe(h, c, i), c)
    ensures Datagrams(c, Started(Observe(h, c, i), c)) == Datagrams(c, Started(h, c)) + New(h, c, i)
  {
    var s, h' := h.hw, Observe(h, c, i);
    ControlObserved(h, c, i);
    if Starts(s, i) {
      LengthIsOldest(h, c);
      DatagramsExtend(c, h.done, h.queue[0]);
    }
    if h.queue != [] {
      QueueObserved(h, c, i);
    } else {
      NoneDone(h, c, i);
    }
    hide Observe, Step, Datagrams, Datagram, ChecksumOk, Sizes, StoreOk;
    assert Starts(s, i) ==> Started(h', c) == h.done + [h.queue[0]];
    assert !Starts(s, i) ==> Started(h', c) == Started(h, c);
  }

  lemma NoneDone(h: History, c: Settings, i: Input)
    requires ControlOk(h, c) && h.queue == []
    ensures Observe(h, c, i).done == h.done
  {
    hide Step;
  }

  /** The position in the datagram advances with every word. */
  lemma PositionStep(h: History, c: Settings, i: Input)
    requires ControlOk(h, c) && StoreOk(h, c) && ControlOk(Observe(h, c, i), c) && OutputReady(h.hw, i)
    ensures var h' := Observe(h, c, i);
            if h.hw.state == Idle then Position(h', c) == 0 && (h'.hw.state != Idle <==> Starts(h.hw, i))
            else if h'.hw.state == Idle then Position(h, c) == |h.queue[0]| + 27
            else Position(h', c) == Position(h, c) + 1
    ensures var h' := Observe(h, c, i); h'.hw.state != Idle && h.queue != [] ==> h'.queue != [] && h'.queue[0] == h.queue[0]
  {
    ControlObserved(h, c, i);
    if h.queue != [] {
      QueueObserved(h, c, i);
    }
    hide Observe, Step, ChecksumOk, Sizes, StoreOk, F.WellFormed, Flatten, Lengths, F.Contents, F.Ring;
  }

  lemma RestStep(h: History, c: Settings, i: Input)
    requires ControlOk(h, c) && StoreOk(h, c) && ControlOk(Observe(h, c, i), c) && OutputReady(h.hw, i)
    ensures Rest(h, c) + New(h, c, i) == Shown(NextFramed(h.hw, c)) + Rest(Observe(h, c, i), c)
  {
    var s, h' := h.hw, Observe(h, c, i);
    PositionStep(h, c, i);
    if s.state != Idle {
      NextWord(h, c);
      TailSplit(Datagram(c, h.queue[0]), Position(h, c));
    } else if Starts(s, i) {
      LengthIsOldest(h, c);
    }
    if s.state == Idle && Starts(s, i) {
      WholeDatagram(c, h.queue[0]);
    }
    hide Observe, ChecksumOk, Sizes, StoreOk, Datagram, HeaderByte, Position, F.WellFormed, Flatten;
    if s.state == Idle {
      assert Shown(NextFramed(s, c)) == [];
    }
  }

  lemma TailSplit(w: seq<Word>, j: nat)
    requires j < |w|
    ensures w[j..] == [w[j]] + w[j + 1..] && w[|w|..] == []
  {
  }

  lemma WholeDatagram(c: Settings, p: seq<Byte>)
    requires |p| <= 2047
    ensures Datagram(c, p)[0..] == Datagram(c, p)
  {
  }

  lemma Shuffle(spec: seq<Word>, d: seq<Word>, o: seq<Word>, f: seq<Word>, r: seq<Word>, n: seq<Word>, f': seq<Word>, r': seq<Word>)
    requires spec == d + (o + f + r) && r + n == f' + r'
    ensures spec + n == (d + o) + (f + f' + r')
  {
    assert spec + n == d + o + f + (r + n);
  }

  lemma Conserved(h: History, c: Settings, i: Input)
    requires ControlOk(h, c) && StoreOk(h, c) && ControlOk(Observe(h, c, i), c)
    requires Datagrams(c, Started(h, c)) == h.delivered + Pipeline(h, c)
    ensures var h' := Observe(h, c, i); Datagrams(c, Started(h', c)) == h'.delivered + Pipeline(h', c)
  {
    var s, h' := h.hw, Observe(h, c, i);
    StartedGrows(h, c, i);
    if OutputReady(s, i) {
      RestStep(h, c, i);
      assert h'.delivered == h.delivered + Shown(s.out);
      assert h'.hw.out == s.framed && h'.hw.framed == NextFramed(s, c);
      Shuffle(Datagrams(c, Started(h, c)), h.delivered, Shown(s.out), Shown(s.framed), Rest(h, c), New(h, c, i),
              Shown(h'.hw.framed), Rest(h', c));
    } else {
      StalledPipeline(h, c, i);
    }
    hide Observe, ControlOk, StoreOk, Datagrams, Started, Rest, New, Shown, NextFramed;
  }

  lemma StalledOutput(h: History, c: Settings, i: Input)
    requires WellFormed(h.hw) && !OutputReady(h.hw, i)
    ensures var h' := Observe(h, c, i);
            h'.hw.out == h.hw.out && h'.hw.framed == h.hw.framed && h'.delivered == h.delivered
  {
    hide F.Step, Stored, Ready;
    assert h.delivered + [] == h.delivered;
  }

  lemma StalledPipeline(h: History, c: Settings, i: Input)
    requires ControlOk(h, c) && StoreOk(h, c) && ControlOk(Observe(h, c, i), c) && !OutputReady(h.hw, i)
    ensures var h' := Observe(h, c, i);
            h'.delivered == h.delivered && Pipeline(h', c) == Pipeline(h, c) && New(h, c, i) == []
  {
    ControlObserved(h, c, i);
    if h.queue != [] {
      QueueObserved(h, c, i);
    }
    StalledOutput(h, c, i);
    hide Observe, Step, ChecksumOk, Sizes, StoreOk, Datagram, F.WellFormed, Flatten, Shown;
  }

  lemma InvStep(h: History, c: Settings, i: Input)
    requires Inv(h, c) && Fits(h, i)
    ensures Inv(Observe(h, c, i), c)
  {
    var h' := Observe(h, c, i);
    InputKept(h, c, i);
    SizesKept(h');
    StoredSizes(h, c, i);
    ControlKept(h, c, i);
    StoreKept(h, c, i);
    Conserved(h, c, i);
    hide Observe, ControlOk, StoreOk, Datagrams, Started, Pipeline, Step;
  }

  lemma StoredSizes(h: History, c: Settings, i: Input)
    requires WellFormed(h.hw) && InputOk(h.hw.input, h.accepted, h.partial, h.done + h.queue, h.open)
    ensures Sizes(Stored(h.hw.input, h.hw.input.we && Ready(h.hw), h.queue, h.open).0)
    ensures h.hw.input.lengthValid ==> h.hw.input.we && h.hw.input.counter == |h.open| + 1
  {
    var p := h.open + [h.hw.input.din];
    if h.hw.input.lengthValid {
      assert h.done + h.queue + [p] == h.done + (h.queue + [p]);
      SizesParts(h.done, h.queue + [p]);
    }
    SizesKept(h);
  }

  // ---------------------------------------------------------------- main results

  function Run(h: History, c: Settings, inputs: seq<Input>): (h': History)
    requires WellFormed(h.hw)
    ensures WellFormed(h'.hw)
    decreases |inputs|
  {
    if inputs == [] then h else Run(Observe(h, c, inputs[0]), c, inputs[1..])
  }

  /** Every payload offered has at most 2047 bytes. */
  predicate AllFit(h: History, c: Settings, inputs: seq<Input>)
    requires WellFormed(h.hw)
    decreases |inputs|
  {
    inputs != [] ==> Fits(h, inputs[0]) && AllFit(Observe(h, c, inputs[0]), c, inputs[1..])
  }

  /** After a reset cycle; the FIFOs are empty. */
  predicate JustReset(s: Regs) {
    && WellFormed(s) && s.state == Idle && s.input.firstWord && !s.input.we && !s.input.lengthValid
    && !s.framed.valid && !s.out.valid
    && !s.data.outValid && F.RingEmpty(s.data) && !s.length.outValid && F.RingEmpty(s.length)
  }

  function Start(s: Regs): History { History(s, [], [], [], [], [], []) }

  lemma InvStart(s: Regs, c: Settings)
    requires JustReset(s)
    ensures Inv(Start(s), c)
  {
    F.ContentsParts(s.data);
    F.ContentsParts(s.length);
  }

  lemma {:induction false} InvRun(h: History, c: Settings, inputs: seq<Input>)
    requires Inv(h, c) && AllFit(h, c, inputs)
    ensures Inv(Run(h, c, inputs), c)
    decreases |inputs|
  {
    assert WellFormed(h.hw);
    hide Inv, Observe;
    if inputs != [] {
      InvStep(h, c, inputs[0]);
      InvRun(Observe(h, c, inputs[0]), c, inputs[1..]);
    }
  }

  lemma {:induction false} DatagramsAppend(c: Settings, a: seq<seq<Byte>>, b: seq<seq<Byte>>)
    requires Sizes(a + b)
    ensures Sizes(a) && Sizes(b) && Datagrams(c, a + b) == Datagrams(c, a) + Datagrams(c, b)
    decreases |b|
  {
    SizesParts(a, b);
    hide Datagram;
    if b == [] {
      assert a + b == a;
    } else {
      var n := |b| - 1;
      assert (a + b)[..|a| + n] == a + b[..n];
      DatagramsAppend(c, a, b[..n]);
    }
  }

  lemma StartedIsPrefix(h: History, c: Settings) returns (rest: seq<seq<Byte>>)
    requires ControlOk(h, c) && InputOk(h.hw.input, h.accepted, h.partial, h.done + h.queue, h.open)
    ensures h.accepted == Started(h, c) + rest
  {
    hide Sizes, F.WellFormed, ChecksumOk;
    var closing := if h.hw.input.lengthValid then [h.open + [h.hw.input.din]] else [];
    assert h.accepted == h.done + h.queue + closing;
    if h.hw.state == Idle {
      rest := h.queue + closing;
    } else {
      assert h.queue == [h.queue[0]] + h.queue[1..];
      rest := h.queue[1..] + closing;
    }
  }

  /** In every run from reset, for every pattern of stalls and gaps, what was delivered is a prefix of the datagrams of
      the accepted payloads in order, and what is missing of the datagrams already begun is exactly what the pipeline and
      the state machine still hold. */
  lemma DeliversDatagrams(s: Regs, c: Settings, inputs: seq<Input>)
    requires JustReset(s) && AllFit(Start(s), c, inputs)
    ensures var h := Run(Start(s), c, inputs);
            && ControlOk(h, c) && Sizes(h.accepted)
            && Datagrams(c, Started(h, c)) == h.delivered + Pipeline(h, c)
            && h.delivered <= Datagrams(c, h.accepted)
  {
    InvStart(s, c);
    InvRun(Start(s), c, inputs);
    var h := Run(Start(s), c, inputs);
    var rest := StartedIsPrefix(h, c);
    DatagramsAppend(c, Started(h, c), rest);
    hide Run, Datagrams, Started, Pipeline, StoreOk, ControlOk;
  }

  /** The sixteen bits at place k, most significant byte first, and the thirty-two bits. */
  function At16(w: seq<Word>, k: nat): nat
    requires k + 2 <= |w|
  {
    0x100 * (w[k].data as int) + w[k + 1].data as int
  }

  function At32(w: seq<Word>, k: nat): nat
    requires k + 4 <= |w|
  {
    0x10000 * At16(w, k) + At16(w, k + 2)
  }

  /** The words of a datagram, field by field. */
  predicate IsDatagram(c: Settings, p: seq<Byte>, w: seq<Word>) {
    && |w| == |p| + 28
    && At16(w, 0) == 0x4500 && At16(w, 2) == |p| + 28 && At32(w, 4) == 0 && w[8].data == 128 && w[9].data == 17
    && At16(w, 10) == 0xFFFF - (c.seed + |p| + 28) % 0x10000
    && At32(w, 12) == c.src && At32(w, 16) == c.dest
    && At16(w, 20) == c.sourcePort && At16(w, 22) == c.destPort && At16(w, 24) == |p| + 8 && At16(w, 26) == 0
    && (forall j :: 0 <= j < |p| ==> w[28 + j].data == p[j])
    && (forall j :: 0 <= j < |w| ==> (w[j].last <==> j == |w| - 1))
  }

  lemma BigIs(n: Word16)
    ensures 0x100 * (Big(n)[0] as int) + Big(n)[1] as int == n
  {
  }

  lemma DatagramByPosition(c: Settings, p: seq<Byte>)
    requires 1 <= |p| <= 2047
    ensures IsDatagram(c, p, Datagram(c, p))
  {
    hide DatagramBytes, Big;
    DatagramSlices(c, p);
    Field(c, p, 2, |p| + 28);
    Field(c, p, 10, 0xFFFF - (c.seed + |p| + 28) % 0x10000);
    Field(c, p, 12, c.src / 0x10000);
    Field(c, p, 14, c.src % 0x10000);
    Field(c, p, 16, c.dest / 0x10000);
    Field(c, p, 18, c.dest % 0x10000);
    Field(c, p, 20, c.sourcePort);
    Field(c, p, 22, c.destPort);
    Field(c, p, 24, |p| + 8);
    DatagramConstants(c, p);
  }

  lemma Field(c: Settings, p: seq<Byte>, k: nat, n: Word16)
    requires |p| <= 2047 && k <= |p| + 26 && DatagramBytes(c, p)[k..k + 2] == Big(n)
    ensures At16(Datagram(c, p), k) == n
  {
    hide DatagramBytes;
    BigIs(n);
    var b := DatagramBytes(c, p);
    assert b[k] == b[k..k + 2][0] && b[k + 1] == b[k..k + 2][1];
  }

  lemma DatagramSlices(c: Settings, p: seq<Byte>)
    requires |p| <= 2047
    ensures var b := DatagramBytes(c, p);
            && b[2..4] == Big(|p| + 28) && b[10..12] == Big(0xFFFF - (c.seed + |p| + 28) % 0x10000)
            && b[12..14] == Big(c.src / 0x10000) && b[14..16] == Big(c.src % 0x10000)
            && b[16..18] == Big(c.dest / 0x10000) && b[18..20] == Big(c.dest % 0x10000)
            && b[20..22] == Big(c.sourcePort) && b[22..24] == Big(c.destPort) && b[24..26] == Big(|p| + 8)
  {
    hide Big;
  }

  lemma DatagramConstants(c: Settings, p: seq<Byte>)
    requires |p| <= 2047
    ensures var b := DatagramBytes(c, p);
            && b[0] == 0x45 && b[1] == b[4] == b[5] == b[6] == b[7] == b[26] == b[27] == 0 && b[8] == 0x80 && b[9] == 0x11
            && forall j :: 0 <= j < |p| ==> b[28 + j] == p[j]
  {
    hide Big;
  }

  predicate AreDatagrams(c: Settings, ps: seq<seq<Byte>>, ws: seq<seq<Word>>) {
    |ws| == |ps| && forall j :: 0 <= j < |ps| ==> IsDatagram(c, ps[j], ws[j])
  }

  lemma {:induction false} DatagramsByPosition(c: Settings, ps: seq<seq<Byte>>) returns (ws: seq<seq<Word>>)
    requires Sizes(ps)
    ensures AreDatagrams(c, ps, ws) && Datagrams(c, ps) == Flatten(ws)
    decreases |ps|
  {
    hide IsDatagram, Datagram;
    if ps == [] {
      ws := [];
    } else {
      var n := |ps| - 1;
      var front := DatagramsByPosition(c, ps[..n]);
      DatagramByPosition(c, ps[n]);
      ws := front + [Datagram(c, ps[n])];
      FlattenAppend(front, [Datagram(c, ps[n])]);
      FlattenOne(Datagram(c, ps[n]));
    }
  }

  /** In every run from reset the words delivered are a prefix of datagrams, one for each accepted payload, whose fields and
      payload are these. */
  lemma DeliversByPosition(s: Regs, c: Settings, inputs: seq<Input>) returns (ws: seq<seq<Word>>)
    requires JustReset(s) && AllFit(Start(s), c, inputs)
    ensures var h := Run(Start(s), c, inputs); AreDatagrams(c, h.accepted, ws) && h.delivered <= Flatten(ws)
  {
    hide AllFit, Run, Datagrams, Started, Pipeline, ControlOk, IsDatagram;
    DeliversDatagrams(s, c, inputs);
    ws := DatagramsByPosition(c, Run(Start(s), c, inputs).accepted);
  }

  /** In every run the payload state finds a word: the data FIFO is never read while it is empty. */
  lemma NeverReadsEmpty(s: Regs, c: Settings, inputs: seq<Input>)
    requires JustReset(s) && AllFit(Start(s), c, inputs)
    ensures var s' := Run(Start(s), c, inputs).hw;
            && (s'.state == Data ==> s'.data.outValid)
            && (s'.state == Header(25) ==> s'.length.outValid)
  {
    InvStart(s, c);
    InvRun(Start(s), c, inputs);
    hide Run;
  }

  // ---------------------------------------------------------------- nothing gets stuck

  /** No word offered, the output taken. */
  const DRAIN := Input(Nothing, true)

  /** How far the state machine is from its idle state, which itself ranks highest. */
  function Distance(s: Regs): nat
    requires WellFormed(s)
  {
    match s.state
    case Idle => 3000
    case Header(k) => 2100 - k
    case Data => 1 + s.remaining
  }

  function Waiting(s: Regs): nat { (if s.input.we then 2 else 0) + (if s.length.outValid then 0 else 1) }

  function Flushing(s: Regs): nat { if s.framed.valid then 2 else if s.out.valid then 1 else 0 }

  lemma NotFull<T>(s: F.Regs<T>)
    requires F.WellFormed(s) && |F.Contents(s)| < |s.ram| - 1
    ensures !F.Full(s)
  {
    F.ContentsParts(s);
  }

  lemma TwoRows<T>(s: F.Regs<T>)
    requires F.WellFormed(s)
    ensures |s.ram| >= 2
  {
    assert Pow2(s.n) == 2 * Pow2(s.n - 1);
  }

  lemma OpenStored(h: History, c: Settings)
    requires Inv(h, c) && h.hw.state == Idle && h.queue == [] && h.hw.input.lengthValid
    ensures F.Contents(h.hw.data) == h.open && |h.open| <= 2046 && F.Contents(h.hw.length) == []
  {
    hide F.Contents, Datagrams, Started, Pipeline, ChecksumOk;
    assert Left(false, h.hw.remaining, [], h.open) == h.open;
  }

  /** With nothing stored, the FIFOs have room. */
  lemma RoomWhenEmpty(h: History, c: Settings)
    requires Inv(h, c) && h.hw.state == Idle && h.queue == [] && |h.hw.data.ram| >= 2048 && h.hw.input.lengthValid
    ensures Ready(h.hw)
  {
    assert WellFormed(h.hw);
    OpenStored(h, c);
    TwoRows(h.hw.length);
    hide F.Contents, F.Full, Inv;
    NotFull(h.hw.data);
    EmptyIsNotFull(h.hw.length);
  }

  lemma EmptyIsNotFull<T>(s: F.Regs<T>)
    requires F.WellFormed(s) && F.Contents(s) == [] && |s.ram| >= 2
    ensures !F.Full(s)
  {
    F.ContentsParts(s);
  }

  /** The input register holds the end of a payload if it holds anything. */
  lemma ClosedRegister(h: History, c: Settings)
    requires Inv(h, c) && h.partial == []
    ensures h.hw.input.we ==> h.hw.input.lengthValid
    ensures h.hw.input.we || h.accepted == h.done + h.queue
    ensures h.hw.input.we ==> h.accepted == h.done + h.queue + [h.open + [h.hw.input.din]]
  {
    hide StoreOk, ControlOk, Datagrams, Started, Pipeline;
  }

  /** Behind the idle state with nothing shown, the length FIFO either is empty or shows a length next. */
  lemma LengthAppears(h: History, c: Settings)
    requires Inv(h, c) && h.hw.state == Idle
    ensures h.queue == [] ==> !h.hw.length.outValid && !Step(h.hw, c, DRAIN).length.outValid
    ensures h.queue != [] ==> Step(h.hw, c, DRAIN).length.outValid
  {
    var s := h.hw;
    ClosedLength(h);
    LengthObserved(h, c, DRAIN);
    F.ContentsParts(s.length);
    hide F.Contents, Left, Step, F.Ring;
  }

  lemma ClosedLength(h: History)
    requires InputOk(h.hw.input, h.accepted, h.partial, h.done + h.queue, h.open)
    ensures h.hw.input.lengthValid ==> h.hw.input.we
  {
  }

  /** The remaining payloads, then the distance to the idle state, then what waits, shrink with every cycle. */
  ghost predicate Progress(h: History, h': History)
    requires WellFormed(h.hw) && WellFormed(h'.hw)
  {
    var a, a' := |h.accepted| - |h.done|, |h'.accepted| - |h'.done|;
    var b, b' := Distance(h.hw), Distance(h'.hw);
    || 0 <= a' < a
    || (a' == a && b' < b)
    || (a' == a && b' == b && Waiting(h'.hw) < Waiting(h.hw))
    || (a' == a && b' == b && Waiting(h'.hw) == Waiting(h.hw) && Flushing(h'.hw) < Flushing(h.hw))
  }

  predicate Drained(s: Regs) {
    s.state == Idle && !s.input.we && !s.length.outValid && !s.framed.valid && !s.out.valid
  }

  lemma DistanceStep(h: History, c: Settings)
    requires WellFormed(h.hw) && (h.hw.state != Idle || h.hw.length.outValid)
    ensures Finishes(h.hw, DRAIN) || Distance(Step(h.hw, c, DRAIN)) < Distance(h.hw)
  {
    ControlObserved(h, c, DRAIN);
    hide Step, Observe, F.WellFormed;
  }

  lemma DoneStep(h: History, c: Settings)
    requires Inv(h, c)
    ensures var h' := Observe(h, c, DRAIN);
            && h'.accepted == h.accepted
            && |h'.done| == (if Finishes(h.hw, DRAIN) then |h.done| + 1 else |h.done|)
            && |h.accepted| >= |h'.done|
  {
    InputObserved(h, c, DRAIN);
    DoneIsAccepted(h, c);
    if h.queue != [] {
      QueueObserved(h, c, DRAIN);
    } else {
      NoneDone(h, c, DRAIN);
    }
    hide StoreOk, Observe, Step, Datagrams, Started, Pipeline, InputOk, Sizes, ChecksumOk, Stored, Ready, F.WellFormed, InputStep;
  }

  /** With a datagram under way, or a length shown, the state machine moves on. */
  lemma BusyProgress(h: History, c: Settings)
    requires Inv(h, c) && (h.hw.state != Idle || h.hw.length.outValid)
    ensures WellFormed(h.hw)
    ensures Progress(h, Observe(h, c, DRAIN))
  {
    InvIsWellFormed(h, c);
    DistanceStep(h, c);
    DoneStep(h, c);
    assert Observe(h, c, DRAIN).hw == Step(h.hw, c, DRAIN);
    hide Inv, Observe, Step, Distance, Waiting, Flushing, Finishes;
  }

  /** In the idle state with no length shown: the register is written, a length appears, or the output flushes. */
  lemma IdleProgress(h: History, c: Settings)
    requires Inv(h, c) && h.partial == [] && |h.hw.data.ram| >= 2048
    requires h.hw.state == Idle && !h.hw.length.outValid && !(Drained(h.hw) && h.queue == [])
    ensures Progress(h, Observe(h, c, DRAIN))
  {
    var s, h' := h.hw, Observe(h, c, DRAIN);
    ClosedRegister(h, c);
    InputObserved(h, c, DRAIN);
    ControlObserved(h, c, DRAIN);
    LengthAppears(h, c);
    DoneIsAccepted(h, c);
    IdleDone(h, c);
    if h.queue == [] && s.input.we {
      RoomWhenEmpty(h, c);
    }
    assert h'.hw.framed.valid == false && h'.hw.out == s.framed;
    hide StoreOk, Observe, Step, Datagrams, Started, Pipeline, InputOk, ControlOk, Stored, Ready, F.WellFormed;
  }

  lemma IdleDone(h: History, c: Settings)
    requires WellFormed(h.hw) && h.hw.state == Idle
    ensures Observe(h, c, DRAIN).done == h.done
  {
    hide Step, Stored;
  }

  lemma CycleProgress(h: History, c: Settings)
    requires Inv(h, c) && h.partial == [] && |h.hw.data.ram| >= 2048
    requires !(Drained(h.hw) && h.queue == [])
    ensures Progress(h, Observe(h, c, DRAIN))
  {
    InvIsWellFormed(h, c);
    hide Inv, Progress, Observe, Drained;
    if h.hw.state != Idle || h.hw.length.outValid {
      BusyProgress(h, c);
    } else {
      IdleProgress(h, c);
    }
  }

  lemma DoneIsAccepted(h: History, c: Settings)
    requires Inv(h, c)
    ensures |h.accepted| >= |h.done| + |h.queue|
  {
    hide StoreOk, ControlOk, Datagrams, Started, Pipeline;
  }

  lemma DrainedDelivers(h: History, c: Settings)
    requires Inv(h, c) && h.partial == [] && Drained(h.hw) && h.queue == []
    ensures Sizes(h.accepted) && h.delivered == Datagrams(c, h.accepted)
  {
    ClosedRegister(h, c);
    assert h.done + h.queue == h.done;
    assert Pipeline(h, c) == [];
    hide StoreOk, Datagrams, ChecksumOk;
  }

  lemma DrainCycle(h: History, c: Settings)
    requires Inv(h, c) && h.partial == []
    ensures var h' := Observe(h, c, DRAIN);
            Inv(h', c) && h'.partial == [] && h'.accepted == h.accepted && |h'.hw.data.ram| == |h.hw.data.ram|
  {
    InvStep(h, c, DRAIN);
    InputObserved(h, c, DRAIN);
    hide Inv, Stored, InputStep;
  }

  lemma RunOneStep(h: History, c: Settings, n: nat)
    requires WellFormed(h.hw) && n > 0
    ensures Run(h, c, Idling(n)) == Run(Observe(h, c, DRAIN), c, Idling(n - 1))
  {
    assert Idling(n)[1..] == Idling(n - 1);
    hide Observe;
  }

  function Idling(n: nat): (inputs: seq<Input>)
    ensures |inputs| == n
  {
    seq(n, _ => DRAIN)
  }

  /** When no payload is left open, ready cycles deliver the datagrams of all accepted payloads completely, provided the
      data FIFO has at least 2048 rows. */
  lemma {:induction false} Drains(h: History, c: Settings) returns (n: nat)
    requires Inv(h, c) && h.partial == [] && |h.hw.data.ram| >= 2048
    ensures Sizes(h.accepted) && WellFormed(h.hw)
    ensures Run(h, c, Idling(n)).delivered == Datagrams(c, h.accepted)
    decreases |h.accepted| - |h.done|, Distance(h.hw), Waiting(h.hw), Flushing(h.hw)
  {
    InvIsWellFormed(h, c);
    if Drained(h.hw) && h.queue == [] {
      n := 0;
      assert Idling(0) == [];
      DrainedDelivers(h, c);
    } else {
      CycleProgress(h, c);
      DrainCycle(h, c);
      hide Inv, Observe, Datagrams, Distance, Waiting, Flushing, Drained;
      var m := Drains(Observe(h, c, DRAIN), c);
      n := m + 1;
      RunOneStep(h, c, n);
    }
  }

  lemma InvIsWellFormed(h: History, c: Settings)
    requires Inv(h, c)
    ensures WellFormed(h.hw)
  {
  }

  /** The checksum field completes the header sum to FFFF exactly when the addition to the seed does not carry. */
  lemma DatagramChecksum(c: Settings, p: seq<Byte>)
    requires |p| <= 2047 && c.seed == Seed(c.src, c.dest)
    ensures OnesComplementSum(HeaderChecksum.Words(DatagramBytes(c, p)[..20])) == 0xFFFF <==> c.seed + |p| + 28 <= 0xFFFF
  {
    hide DatagramBytes;
    DatagramParts(c, p);
    var length := |p| + 28;
    assert DatagramBytes(c, p)[..20] == HeaderBytes(c.src, c.dest, length, Checksum(c.seed, length));
    ChecksumValidIff(c.src, c.dest, length);
  }

  // ---------------------------------------------------------------- the clocked entity

  class Framer {
    const settings: Settings
    const dataFifo: F.Fifo<Byte>
    const lengthFifo: F.Fifo<Length>
    var firstWord: bool
    var dataFifoWe: bool
    var dataFifoDin: Byte
    var packetLengthValid: bool
    var payloadLengthCounter: Length
    var framerState: State
    var payloadWordsRemaining: Length
    var udpLength: Word16
    var ipLength: Word16
    var ipChecksumC1: Word16
    var ipChecksumC2: Word16
    var framed: Stage
    var output: Stage

    function Registers(): Regs
      reads this, dataFifo, dataFifo.ram, lengthFifo, lengthFifo.ram
    {
      Regs(InputRegs(firstWord, dataFifoWe, dataFifoDin, packetLengthValid, payloadLengthCounter),
           dataFifo.Registers(), lengthFifo.Registers(),
           framerState, payloadWordsRemaining, udpLength, ipLength, ipChecksumC1, ipChecksumC2, framed, output)
    }

    constructor (settings: Settings)
      ensures JustReset(Registers()) && this.settings == settings && dataFifo.n == 12 && lengthFifo.n == 10
      ensures fresh(dataFifo) && fresh(dataFifo.ram) && fresh(lengthFifo) && fresh(lengthFifo.ram)
    {
      hide Pow2;
      this.settings := settings;
      dataFifo := new F.Fifo(12, 0);
      lengthFifo := new F.Fifo(10, 0);
      firstWord, dataFifoWe, dataFifoDin, packetLengthValid, payloadLengthCounter := true, false, 0, false, 0;
      framerState, payloadWordsRemaining, udpLength, ipLength, ipChecksumC1, ipChecksumC2 := Idle, 0, 0, 0, 0, 0;
      framed, output := Stage(false, Word(0, false)), Stage(false, Word(0, false));
    }

    /** Words are registered and counted. */
    method InputProcess(offered: Offer)
      modifies this`firstWord, this`dataFifoWe, this`dataFifoDin, this`packetLengthValid, this`payloadLengthCounter
      ensures InputRegs(firstWord, dataFifoWe, dataFifoDin, packetLengthValid, payloadLengthCounter)
              == InputStep(old(InputRegs(firstWord, dataFifoWe, dataFifoDin, packetLengthValid, payloadLengthCounter)), offered)
    {
      packetLengthValid := offered.Offered? && offered.last;
      dataFifoWe := offered.Offered?;
      if offered.Offered? {
        dataFifoDin := offered.data;
        payloadLengthCounter := if firstWord then 1 else (payloadLengthCounter + 1) % 2048;
        firstWord := false;
        if offered.last {
          firstWord := true;
        }
      }
    }

    /** The header and payload state machine, in a cycle in which the output can move; s are the registers before it. */
    method FramerProcess(ghost s: Regs, lengthShown: bool, length: Length, payload: Byte)
      requires WellFormed(s) && framerState == s.state && payloadWordsRemaining == s.remaining && framed == s.framed
      requires udpLength == s.udpLength && ipLength == s.ipLength && ipChecksumC2 == s.c2
      requires lengthShown == s.length.outValid && length == s.length.out && payload == s.data.out
      modifies this`framerState, this`payloadWordsRemaining, this`udpLength, this`ipLength, this`framed
      ensures framerState == NextState(s) && framed == NextFramed(s, settings)
      ensures var start := s.state == Idle && lengthShown;
              && payloadWordsRemaining == (if start then (length + 2047) % 2048
                                           else if s.state == Data then (s.remaining + 2047) % 2048
                                           else s.remaining)
              && udpLength == (if start then length + 8 else s.udpLength)
              && ipLength == (if start then length + 28 else s.ipLength)
    {
      match framerState {
        case Idle =>
          framed := Stage(false, Word(framed.word.data, false));
          if lengthShown {
            framerState := Header(0);
            payloadWordsRemaining := (length + 2047) % 2048;
            udpLength, ipLength := length + 8, length + 28;
          }
        case Header(k) =>
          var byte := if k < 20 then HeaderBytes(settings.src, settings.dest, ipLength, ipChecksumC2)[k]
                      else UdpBytes(settings.sourcePort, settings.destPort, udpLength)[k - 20];
          framed := Stage(true, Word(byte, false));
          framerState := if k == 27 then Data else Header(k + 1);
        case Data =>
          framed := Stage(true, Word(payload, payloadWordsRemaining == 0));
          if payloadWordsRemaining == 0 {
            framerState := Idle;
          }
          payloadWordsRemaining := (payloadWordsRemaining + 2047) % 2048;
      }
    }

    method FifoProcess(write: bool, dataRe: bool, lengthRe: bool)
      requires F.WellFormed(dataFifo.Registers()) && F.WellFormed(lengthFifo.Registers())
      modifies dataFifo, dataFifo.ram, lengthFifo, lengthFifo.ram
      ensures dataFifo.Registers() == F.Step(old(dataFifo.Registers()), dataFifoWe && write, dataFifoDin, dataRe)
      ensures lengthFifo.Registers() == F.Step(old(lengthFifo.Registers()), packetLengthValid && write, payloadLengthCounter, lengthRe)
    {
      hide F.Step, F.WellFormed;
      dataFifo.Clock(dataFifoWe && write, dataFifoDin, dataRe);
      lengthFifo.Clock(packetLengthValid && write, payloadLengthCounter, lengthRe);
    }

    /** The checksum registers and the output pipeline; s are the registers before the cycle. */
    method OutputProcess(ghost s: Regs, i: Input, lengthShown: bool, length: Length, payload: Byte)
      requires WellFormed(s) && framerState == s.state && payloadWordsRemaining == s.remaining
      requires framed == s.framed && output == s.out && udpLength == s.udpLength && ipLength == s.ipLength
      requires ipChecksumC1 == s.c1 && ipChecksumC2 == s.c2
      requires lengthShown == s.length.outValid && length == s.length.out && payload == s.data.out
      modifies this`framerState, this`payloadWordsRemaining, this`udpLength, this`ipLength, this`framed, this`output,
               this`ipChecksumC1, this`ipChecksumC2
      ensures var s' := Step(s, settings, i);
              && framerState == s'.state && payloadWordsRemaining == s'.remaining && framed == s'.framed && output == s'.out
              && udpLength == s'.udpLength && ipLength == s'.ipLength && ipChecksumC1 == s'.c1 && ipChecksumC2 == s'.c2
    {
      hide HeaderByte, F.Step, F.Full, F.WellFormed, InputStep, NextState, NextFramed;
      var outputReady := i.ready || !output.valid;
      var c2 := 0xFFFF - ipChecksumC1;
      if outputReady && framerState == Header(8) {
        ipChecksumC1 := (settings.seed + ipLength) % 0x10000;
      }
      if outputReady {
        output := framed;
        FramerProcess(s, lengthShown, length, payload);
      }
      ipChecksumC2 := c2;
    }

    method Clock(i: Input)
      requires WellFormed(Registers())
      modifies this, dataFifo, dataFifo.ram, lengthFifo, lengthFifo.ram
      ensures Registers() == Step(old(Registers()), settings, i)
    {
      hide HeaderByte, F.Step, F.Full, InputStep, NextState, NextFramed;
      ghost var s := Registers();
      var ready := !(F.Full(dataFifo.Registers()) || F.Full(lengthFifo.Registers())) || !dataFifoWe;
      var outputReady := i.ready || !output.valid;
      var lengthShown, length, payload := lengthFifo.outValid, lengthFifo.out, dataFifo.out;
      FifoProcess(ready, outputReady && framerState == Data, outputReady && framerState == Header(25));
      hide F.WellFormed;
      if ready {
        InputProcess(i.offered);
      }
      OutputProcess(s, i, lengthShown, length, payload);
    }
  }
}

