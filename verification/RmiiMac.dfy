/** RMII transmitter and receiver: preamble, start delimiter, two bits per cycle, inter-packet gap. */
module RmiiMac {
  import opened BitVectors
  import opened ByteStream

  type Dibit = n: int | 0 <= n < 4

  /** One cycle on the wire: tx_en and txd, or crs_dv and rxd. */
  datatype Symbol = Symbol(en: bool, d: Dibit)

  const SILENCE := Symbol(false, 0)

  /** The four bit pairs of a byte, low pair first. */
  function Dibits(b: Byte): (d: seq<Dibit>)
    ensures |d| == 4
  {
    var n := b as int;
    [n % 4, n / 4 % 4, n / 16 % 4, n / 64]
  }

  function Octet(d: seq<Dibit>): Byte
    requires |d| == 4
  {
    (d[0] as int) + 4 * d[1] as int + 16 * d[2] as int + 64 * d[3] as int
  }

  lemma OctetOfDibits(b: Byte)
    ensures Octet(Dibits(b)) == b
  {
    var n := b as int;
    assert n / 16 == n / 4 / 4 && n / 64 == n / 16 / 4;
  }

  // ---------------------------------------------------------------- the transmitter

  datatype TxState = Idle | Preamble | Sfd | Data | Ipg

  datatype TxRegs = TxRegs(state: TxState, counter: nat, sel: nat, ready: bool, out: Symbol)

  predicate TxWellFormed(s: TxRegs) { s.counter < 4096 && s.sel < 4 }

  function TxStep(s: TxRegs, valid: bool, data: Byte, last: bool): (s': TxRegs)
    requires TxWellFormed(s)
    ensures TxWellFormed(s')
  {
    var down := (s.counter + 4095) % 4096;
    match s.state
    case Idle => if valid then TxRegs(Preamble, 30, 0, false, SILENCE) else TxRegs(Idle, down, s.sel, false, SILENCE)
    case Preamble => TxRegs(if s.counter == 0 then Sfd else Preamble, down, s.sel, false, Symbol(true, 1))
    case Sfd => TxRegs(Data, down, s.sel, false, Symbol(true, 3))
    case Data =>
      var ends := last && s.sel == 3;
      TxRegs(if ends then Ipg else Data, if ends then 56 else down, (s.sel + 1) % 4, s.sel == 2, Symbol(true, Dibits(data)[s.sel]))
    case Ipg => TxRegs(if s.counter == 0 then Idle else Ipg, down, s.sel, false, SILENCE)
  }

  /** The packets still to be sent, the position in the first one, and whether it is already being offered. */
  datatype Source = Source(packets: seq<seq<Byte>>, pos: nat, offering: bool)

  predicate SourceOk(q: Source) {
    && (forall i :: 0 <= i < |q.packets| ==> q.packets[i] != [])
    && (if q.packets == [] then q.pos == 0 && !q.offering else q.pos < |q.packets[0]| && (q.pos > 0 ==> q.offering))
  }

  /** tvalid stays up from the first offer of a packet to its last byte. */
  predicate Valid(q: Source, offer: bool) { q.packets != [] && (q.offering || offer) }

  function SourceData(q: Source): Byte
    requires SourceOk(q)
  {
    if q.packets == [] then 0 else q.packets[0][q.pos]
  }

  predicate SourceLast(q: Source) { q.packets != [] && q.pos + 1 == |q.packets[0]| }

  function SourceStep(q: Source, offer: bool, ready: bool): (q': Source)
    requires SourceOk(q)
    ensures SourceOk(q')
  {
    if !Valid(q, offer) || !ready then q.(offering := Valid(q, offer))
    else if SourceLast(q) then Source(q.packets[1..], 0, false)
    else Source(q.packets, q.pos + 1, true)
  }

  /** The line so far, cut into the packets sent, the silence in front of each, and the silence since. */
  datatype TxHistory = TxHistory(hw: TxRegs, source: Source, sent: seq<seq<Byte>>, gaps: seq<nat>, gap: nat, line: seq<Symbol>)

  predicate TxOk(h: TxHistory) { TxWellFormed(h.hw) && SourceOk(h.source) }

  function TxObserve(h: TxHistory, offer: bool): (h': TxHistory)
    requires TxOk(h)
    ensures TxOk(h')
  {
    var q := h.source;
    var s := TxStep(h.hw, Valid(q, offer), SourceData(q), SourceLast(q));
    var ends := q.packets != [] && h.hw.state == Data && h.hw.sel == 3 && SourceLast(q);
    TxHistory(s, SourceStep(q, offer, h.hw.ready),
              if ends then h.sent + [q.packets[0]] else h.sent,
              if ends then h.gaps + [h.gap] else h.gaps,
              if ends then 0 else if !s.out.en then h.gap + 1 else h.gap,
              h.line + [s.out])
  }

  function TxRun(h: TxHistory, offers: seq<bool>): (h': TxHistory)
    requires TxOk(h)
    ensures TxOk(h')
    decreases |offers|
  {
    if offers == [] then h else TxRun(TxObserve(h, offers[0]), offers[1..])
  }

  // ---------------------------------------------------------------- what the line should look like

  function Repeat(b: Byte, n: nat): (r: seq<Byte>)
    ensures |r| == n && forall i :: 0 <= i < n ==> r[i] == b
  {
    if n == 0 then [] else Repeat(b, n - 1) + [b]
  }

  /** Seven preamble bytes, the start delimiter, the packet. */
  function Octets(p: seq<Byte>): (f: seq<Byte>)
    ensures |f| == |p| + 8 && f[8..] == p && f[7] == 0xD5 && forall i :: 0 <= i < 7 ==> f[i] == 0x55
  {
    Repeat(0x55, 7) + [0xD5] + p
  }

  function SymbolAt(f: seq<Byte>, i: nat): Symbol
    requires i < 4 * |f|
  {
    Symbol(true, Dibits(f[i / 4])[i % 4])
  }

  /** The wire symbols of a packet. */
  function Frame(p: seq<Byte>): (l: seq<Symbol>)
    ensures |l| == 4 * |p| + 32
  {
    seq(4 * |p| + 32, i requires 0 <= i < 4 * |p| + 32 => SymbolAt(Octets(p), i))
  }

  function Silent(n: nat): (l: seq<Symbol>)
    ensures |l| == n
  {
    seq(n, _ => SILENCE)
  }

  /** Each packet framed, behind its silence. */
  function Line(ps: seq<seq<Byte>>, gaps: seq<nat>): seq<Symbol>
    requires |gaps| == |ps|
  {
    if ps == [] then []
    else Line(ps[..|ps| - 1], gaps[..|ps| - 1]) + Silent(gaps[|ps| - 1]) + Frame(ps[|ps| - 1])
  }

  /** Symbols of the current frame already on the line. */
  function Position(h: TxHistory): int {
    match h.hw.state
    case Preamble => 30 - h.hw.counter
    case Sfd => 31
    case Data => 32 + 4 * h.source.pos + h.hw.sel
    case _ => 0
  }

  /** At least this many silent cycles separate frames. */
  const MIN_GAP := 58

  predicate GapsOk(gaps: seq<nat>, min: nat) { forall i :: 1 <= i < |gaps| ==> gaps[i] >= min }

  predicate TxControl(h: TxHistory) {
    var s := h.hw;
    && TxOk(h) && |h.gaps| == |h.sent| && GapsOk(h.gaps, MIN_GAP)
    && (s.ready <==> s.state == Data && s.sel == 3)
    && (s.state == Idle ==> h.source.pos == 0 && (h.sent != [] ==> h.gap >= 57))
    && (s.state == Preamble ==> s.counter <= 30)
    && (s.state == Ipg ==> s.counter <= 56 && h.gap == 56 - s.counter && h.source.pos == 0 && h.sent != [])
    && (s.state == Preamble || s.state == Sfd ==> s.sel == 0 && h.source.pos == 0)
    && (s.state == Preamble || s.state == Sfd || s.state == Data ==> h.source.offering && (h.sent != [] ==> h.gap >= MIN_GAP))
  }

  ghost predicate LineOk(h: TxHistory)
    requires TxControl(h)
  {
    h.line == Line(h.sent, h.gaps) + Silent(h.gap)
              + (if h.hw.state == Idle || h.hw.state == Ipg then [] else Frame(h.source.packets[0])[..Position(h)])
  }

  ghost predicate TxInv(h: TxHistory) {
    TxControl(h) && LineOk(h)
  }

  lemma TxControlStep(h: TxHistory, offer: bool)
    requires TxControl(h)
    ensures TxControl(TxObserve(h, offer))
  {
    hide Dibits;
    var h' := TxObserve(h, offer);
    assert forall i :: 1 <= i < |h'.gaps| ==> h'.gaps[i] == if i < |h.gaps| then h.gaps[i] else h.gap;
  }

  /** The frame spelt out: preamble, the end of the delimiter, bit pairs of the packet's byte n. */
  lemma FrameSymbol(p: seq<Byte>, q: nat, n: nat)
    requires n < |p| && q < |Frame(p)|
    ensures q < 31 ==> Frame(p)[q] == Symbol(true, 1)
    ensures q == 31 ==> Frame(p)[q] == Symbol(true, 3)
    ensures 32 + 4 * n <= q < 36 + 4 * n ==> Frame(p)[q] == Symbol(true, Dibits(p[n])[q - 32 - 4 * n])
  {
    hide Dibits;
    PreambleDibits();
    assert Octets(p)[8..][n] == Octets(p)[8 + n];
    assert q < 32 ==> q / 4 < 8;
    assert 32 + 4 * n <= q < 36 + 4 * n ==> q / 4 == 8 + n && q % 4 == q - 32 - 4 * n;
  }

  lemma PreambleDibits()
    ensures Dibits(0x55) == [1, 1, 1, 1] && Dibits(0xD5) == [1, 1, 1, 3]
  {
  }

  /** The symbol sent next is the next one of the frame. */
  lemma NextSymbol(h: TxHistory, offer: bool)
    requires TxControl(h) && (h.hw.state == Preamble || h.hw.state == Sfd || h.hw.state == Data)
    ensures Position(h) < |Frame(h.source.packets[0])|
    ensures TxObserve(h, offer).hw.out == Frame(h.source.packets[0])[Position(h)]
  {
    hide Frame, Dibits, GapsOk;
    var p, q := h.source.packets[0], Position(h);
    FrameSymbol(p, q, if h.hw.state == Data then h.source.pos else 0);
  }

  lemma LineStepBetween(h: TxHistory, offer: bool)
    requires TxInv(h) && (h.hw.state == Idle || h.hw.state == Ipg)
    ensures TxInv(TxObserve(h, offer))
  {
    TxControlStep(h, offer);
    var h' := TxObserve(h, offer);
    hide Frame, Line;
    assert Silent(h.gap + 1) == Silent(h.gap) + [SILENCE];
    assert h'.hw.state == Preamble ==> Frame(h'.source.packets[0])[..0] == [];
  }

  /** The line after a cycle inside a frame, as that frame's next prefix. */
  lemma LineGrows(h: TxHistory, offer: bool)
    requires TxInv(h) && (h.hw.state == Preamble || h.hw.state == Sfd || h.hw.state == Data)
    ensures var p, q := h.source.packets[0], Position(h);
            && q < |Frame(p)|
            && TxObserve(h, offer).line == Line(h.sent, h.gaps) + Silent(h.gap) + Frame(p)[..q + 1]
  {
    NextSymbol(h, offer);
    var p, q := h.source.packets[0], Position(h);
    assert TxObserve(h, offer).line == h.line + [Frame(p)[q]];
    hide *;
    OneMore(Line(h.sent, h.gaps) + Silent(h.gap), Frame(p), q);
  }

  lemma OneMore(front: seq<Symbol>, frame: seq<Symbol>, q: nat)
    requires q < |frame|
    ensures (front + frame[..q]) + [frame[q]] == front + frame[..q + 1]
  {
    assert frame[..q] + [frame[q]] == frame[..q + 1];
  }

  lemma LineExtends(ps: seq<seq<Byte>>, gaps: seq<nat>, p: seq<Byte>, gap: nat)
    requires |gaps| == |ps|
    ensures Line(ps + [p], gaps + [gap]) == Line(ps, gaps) + Silent(gap) + Frame(p)
  {
    assert (ps + [p])[..|ps|] == ps && (gaps + [gap])[..|ps|] == gaps;
  }

  lemma LineStepInFrame(h: TxHistory, offer: bool)
    requires TxInv(h) && (h.hw.state == Preamble || h.hw.state == Sfd || h.hw.state == Data)
    ensures TxInv(TxObserve(h, offer))
  {
    TxControlStep(h, offer);
    LineGrows(h, offer);
    var h' := TxObserve(h, offer);
    var p, q := h.source.packets[0], Position(h);
    hide Frame, Silent, Line, Dibits;
    if h'.hw.state == Ipg {
      assert Frame(p)[..q + 1] == Frame(p);
      LineExtends(h.sent, h.gaps, p, h.gap);
      SilentNone();
    } else {
      assert Position(h') == q + 1;
    }
  }

  lemma SilentNone()
    ensures Silent(0) == []
  {
  }

  // ---------------------------------------------------------------- the receiver

  datatype Stage = Stage(data: Byte, valid: bool, last: bool)

  /** octet is the shift register as four bit pairs, low pair first; inData is the state behind the start delimiter. */
  datatype RxRegs = RxRegs(
    crsR: bool, rxdR: Dibit, counterReset: bool, counter: nat, octet: seq<Dibit>, octetValid: bool, octetLast: bool,
    inData: bool, stripped: Stage, out: Stage)

  predicate RxWellFormed(s: RxRegs) { s.counter < 4 && |s.octet| == 4 }

  const EMPTY := Stage(0, false, false)

  function RxStep(s: RxRegs, line: Symbol): (s': RxRegs)
    requires RxWellFormed(s)
    ensures RxWellFormed(s')
  {
    RxRegs(line.en, line.d,
           if !s.crsR then true else if s.rxdR == 1 then false else s.counterReset,
           if s.counterReset then 1 else (s.counter + 1) % 4,
           s.octet[1..] + [s.rxdR],
           s.counter == 3 && s.crsR,
           s.crsR && !line.en,
           if s.inData then !(s.octetValid && s.octetLast) else s.octetValid && Octet(s.octet) == 0xD5,
           if s.inData then Stage(Octet(s.octet), s.octetValid, s.octetLast) else EMPTY,
           s.stripped)
  }

  function Shown(s: Stage): seq<Word> { if s.valid then [Word(s.data, s.last)] else [] }

  datatype RxHistory = RxHistory(hw: RxRegs, received: seq<Word>)

  function RxRun(h: RxHistory, line: seq<Symbol>): (h': RxHistory)
    requires RxWellFormed(h.hw)
    ensures RxWellFormed(h'.hw)
    decreases |line|
  {
    if line == [] then h else RxRun(RxHistory(RxStep(h.hw, line[0]), h.received + Shown(h.hw.out)), line[1..])
  }

  predicate NonEmpty(ps: seq<seq<Byte>>) { forall i :: 0 <= i < |ps| ==> ps[i] != [] }

  /** Between frames; out and stripped may still hold a word. */
  predicate Quiet(s: RxRegs) {
    RxWellFormed(s) && !s.crsR && s.counterReset && s.counter == 1 && !s.octetValid && !s.octetLast && !s.inData
  }

  /** What was received and what is on its way out. */
  function Known(h: RxHistory): seq<Word> { h.received + Shown(h.hw.out) + Shown(h.hw.stripped) }

  /** Bytes of the frame that have left the shift register for the output after k symbols. */
  function Passed(k: nat): nat { if k < 34 then 8 else (k - 2) / 4 }

  /** The shift register holds the last symbols but one. */
  predicate Assembled(s: RxRegs, f: seq<Byte>, k: nat)
    requires RxWellFormed(s) && k <= 4 * |f| + 1
  {
    && (k > 1 ==> s.octet[3] == SymbolAt(f, k - 2).d)
    && (k > 2 ==> s.octet[2] == SymbolAt(f, k - 3).d)
    && (k > 3 ==> s.octet[1] == SymbolAt(f, k - 4).d)
    && (k > 4 ==> s.octet[0] == SymbolAt(f, k - 5).d)
  }

  /** And the register in front of it the last one. */
  predicate Shifting(s: RxRegs, f: seq<Byte>, k: nat)
    requires RxWellFormed(s) && k <= 4 * |f|
  {
    && (k > 0 ==> s.rxdR == SymbolAt(f, k - 1).d)
    && Assembled(s, f, k)
  }

  predicate Aligned(s: RxRegs, k: nat)
  {
    && s.crsR == (k > 0) && s.counterReset == (k <= 1) && s.counter == (if k <= 1 then 1 else (k - 1) % 4)
    && s.octetValid == (k >= 5 && k % 4 == 1) && !s.octetLast && s.inData == (k >= 34)
  }

  /** k symbols of packet p's frame have been seen. */
  ghost predicate Receiving(h: RxHistory, p: seq<Byte>, k: nat, base: seq<Word>) {
    && RxWellFormed(h.hw) && k <= 4 * |p| + 32 && Passed(k) - 8 <= |p| && Shifting(h.hw, Octets(p), k) && Aligned(h.hw, k)
    && Known(h) == base + Plain(p[..Passed(k) - 8])
  }

  function RxObserve(h: RxHistory, x: Symbol): (h': RxHistory)
    requires RxWellFormed(h.hw)
    ensures RxWellFormed(h'.hw)
  {
    RxHistory(RxStep(h.hw, x), h.received + Shown(h.hw.out))
  }

  lemma SymbolOfByte(f: seq<Byte>, n: nat, j: nat)
    requires n < |f| && j < 4
    ensures SymbolAt(f, 4 * n + j).d == Dibits(f[n])[j]
  {
  }

  /** A byte complete in the shift register is the byte of the frame. */
  lemma OctetIsByte(s: RxRegs, f: seq<Byte>, k: nat, n: nat)
    requires RxWellFormed(s) && k == 4 * n + 5 <= 4 * |f| + 1 && Assembled(s, f, k)
    ensures Octet(s.octet) == f[n]
  {
    var b := f[n];
    SymbolOfByte(f, n, 0);
    SymbolOfByte(f, n, 1);
    SymbolOfByte(f, n, 2);
    SymbolOfByte(f, n, 3);
    OctetOfDibits(b);
    hide SymbolAt, Dibits, Octet;
    assert s.octet == Dibits(b);
  }

  lemma ShiftingStep(s: RxRegs, p: seq<Byte>, k: nat)
    requires RxWellFormed(s) && k < 4 * |p| + 32 && Shifting(s, Octets(p), k)
    ensures Shifting(RxStep(s, Frame(p)[k]), Octets(p), k + 1)
  {
    assert Frame(p)[k] == SymbolAt(Octets(p), k);
    hide SymbolAt, Octets, Frame, Octet;
  }

  /** The byte in the shift register, if one is complete: preamble, start delimiter or packet. */
  lemma OctetWhenValid(s: RxRegs, p: seq<Byte>, k: nat)
    requires RxWellFormed(s) && k <= 4 * |p| + 32 && Shifting(s, Octets(p), k) && Aligned(s, k) && s.octetValid
    ensures Octet(s.octet) == if k < 33 then 0x55 else if k == 33 then 0xD5 else p[(k - 37) / 4]
  {
    hide SymbolAt, Octet;
    var n := (k - 5) / 4;
    OctetIsByte(s, Octets(p), k, n);
    assert n >= 8 ==> Octets(p)[n] == Octets(p)[8..][n - 8];
  }

  lemma FirstSymbol(s: RxRegs, p: seq<Byte>)
    requires RxWellFormed(s) && Shifting(s, Octets(p), 1)
    ensures s.rxdR == 1
  {
  }

  lemma AlignedStep(s: RxRegs, p: seq<Byte>, k: nat)
    requires RxWellFormed(s) && k < 4 * |p| + 32 && Shifting(s, Octets(p), k) && Aligned(s, k)
    ensures Aligned(RxStep(s, Frame(p)[k]), k + 1)
  {
    hide Shifting, SymbolAt, Octets, Frame, Octet;
    if s.octetValid {
      OctetWhenValid(s, p, k);
    }
    if k == 1 {
      FirstSymbol(s, p);
    }
    FrameIsOn(p, k);
    ModFour(k);
  }

  lemma FrameIsOn(p: seq<Byte>, k: nat)
    requires k < 4 * |p| + 32
    ensures Frame(p)[k].en
  {
  }

  lemma ModFour(k: nat)
    ensures k % 4 == 1 <==> (k > 0 && (k - 1) % 4 == 0)
    ensures k > 0 ==> k % 4 == ((k - 1) % 4 + 1) % 4
    ensures k > 0 ==> ((k + 1) % 4 == 1 <==> (k - 1) % 4 == 3)
  {
  }

  /** A packet byte that leaves the shift register. */
  lemma PassesByte(s: RxRegs, p: seq<Byte>, k: nat)
    requires RxWellFormed(s) && k <= 4 * |p| + 32 && Shifting(s, Octets(p), k) && Aligned(s, k)
    ensures if s.octetValid && k >= 34 then
              && Passed(k) - 8 < |p| && Passed(k + 1) == Passed(k) + 1 && Octet(s.octet) == p[Passed(k) - 8]
            else Passed(k + 1) == Passed(k)
  {
    hide Shifting, Octet, Octets, SymbolAt;
    if s.octetValid {
      OctetWhenValid(s, p, k);
      if k >= 34 {
        PassedAt(k);
      }
    } else {
      PassedNext(k);
    }
  }

  lemma PassedAt(k: nat)
    requires k >= 34 && k % 4 == 1
    ensures Passed(k) - 8 == (k - 37) / 4 && Passed(k + 1) == Passed(k) + 1
  {
    assert k == 4 * (k / 4) + 1;
  }

  lemma PassedNext(k: nat)
    requires k % 4 != 1 || k < 34
    ensures Passed(k + 1) == Passed(k)
  {
    assert k == 4 * (k / 4) + k % 4;
  }

  /** Each cycle adds what leaves the shift register to what is known. */
  lemma KnownStep(h: RxHistory, x: Symbol)
    requires RxWellFormed(h.hw)
    ensures Known(RxObserve(h, x))
            == Known(h) + (if h.hw.inData && h.hw.octetValid then [Word(Octet(h.hw.octet), h.hw.octetLast)] else [])
  {
    hide Octet;
  }

  lemma AlignedFacts(s: RxRegs, k: nat)
    requires Aligned(s, k)
    ensures s.inData == (k >= 34) && !s.octetLast
  {
  }

  lemma ReceivingStep(h: RxHistory, p: seq<Byte>, k: nat, base: seq<Word>)
    requires Receiving(h, p, k, base) && k < 4 * |p| + 32
    ensures Receiving(RxObserve(h, Frame(p)[k]), p, k + 1, base)
  {
    hide Shifting, Octets, Frame, Octet, Aligned, RxStep, Known, Shown;
    AlignedStep(h.hw, p, k);
    ShiftingStep(h.hw, p, k);
    PassesByte(h.hw, p, k);
    var n := Passed(k) - 8;
    KnownStep(h, Frame(p)[k]);
    AlignedFacts(h.hw, k);
    if h.hw.octetValid && k >= 34 {
      assert Plain(p[..n + 1]) == Plain(p[..n]) + [Word(p[n], false)];
    }
  }

  lemma ReceivingStarts(h: RxHistory, p: seq<Byte>)
    requires Quiet(h.hw)
    ensures Receiving(h, p, 0, Known(h))
  {
    assert Plain(p[..0]) == [];
  }

  /** Two silent cycles after the last symbol, the last byte has been marked and the receiver is quiet. */
  lemma FrameEnds(h: RxHistory, p: seq<Byte>, base: seq<Word>)
    requires p != [] && Receiving(h, p, 4 * |p| + 32, base)
    ensures var h' := RxObserve(RxObserve(h, SILENCE), SILENCE);
            Quiet(h'.hw) && Known(h') == base + PacketWords(p)
  {
    var k, n := 4 * |p| + 32, |p|;
    PassesByte(h.hw, p, k);
    var h1 := RxObserve(h, SILENCE);
    EndByte(h.hw, p);
    assert Known(h1) == Known(h) + Shown(h1.hw.stripped);
    hide Assembled, Octets, Octet, SymbolAt;
    var h2 := RxObserve(h1, SILENCE);
    assert Known(h2) == Known(h1) + Shown(h2.hw.stripped);
  }

  lemma ShiftsOn(s: RxRegs, f: seq<Byte>, k: nat, x: Symbol)
    requires RxWellFormed(s) && 4 <= k <= 4 * |f| && Shifting(s, f, k)
    ensures Assembled(RxStep(s, x), f, k + 1)
  {
    hide SymbolAt;
  }

  lemma EndControl(s: RxRegs, k: nat)
    requires RxWellFormed(s) && k >= 36 && k % 4 == 0 && Aligned(s, k)
    ensures var s' := RxStep(s, SILENCE);
            s'.octetValid && s'.octetLast && s'.inData && !s'.crsR && !s'.counterReset && s'.counter == 0 && !s'.stripped.valid
  {
    hide Octet;
    assert (k - 1) % 4 == 3;
  }

  /** The last byte reaches the shift register together with its mark. */
  lemma EndByte(s: RxRegs, p: seq<Byte>)
    requires p != [] && RxWellFormed(s) && Shifting(s, Octets(p), 4 * |p| + 32) && Aligned(s, 4 * |p| + 32)
    ensures var s' := RxStep(s, SILENCE);
            && Octet(s'.octet) == p[|p| - 1] && s'.octetValid && s'.octetLast && s'.inData
            && !s'.crsR && !s'.counterReset && s'.counter == 0 && !s'.stripped.valid
  {
    hide RxStep, Octets, Octet, Shifting, Assembled, Aligned;
    var f, k := Octets(p), 4 * |p| + 32;
    ShiftsOn(s, f, k, SILENCE);
    EndControl(s, k);
    LastOctet(p);
    OctetIsByte(RxStep(s, SILENCE), f, k + 1, |p| + 7);
  }

  lemma LastOctet(p: seq<Byte>)
    requires p != []
    ensures Octets(p)[|p| + 7] == p[|p| - 1]
  {
    assert Octets(p)[|p| + 7] == Octets(p)[8..][|p| - 1];
  }

  // ---------------------------------------------------------------- the receiver over a line

  lemma {:induction false} RxRunAppend(h: RxHistory, a: seq<Symbol>, b: seq<Symbol>)
    requires RxWellFormed(h.hw)
    ensures RxRun(h, a + b) == RxRun(RxRun(h, a), b)
    decreases |a|
  {
    hide RxStep, Shown;
    if a == [] {
      assert a + b == b;
    } else {
      assert (a + b)[1..] == a[1..] + b;
      RxRunAppend(RxObserve(h, a[0]), a[1..], b);
    }
  }

  lemma RxRunStep(h: RxHistory, line: seq<Symbol>)
    requires RxWellFormed(h.hw) && line != []
    ensures RxRun(h, line) == RxRun(RxObserve(h, line[0]), line[1..])
  {
    hide RxStep, Shown;
  }

  lemma ReceivingIsWellFormed(h: RxHistory, p: seq<Byte>, k: nat, base: seq<Word>)
    requires Receiving(h, p, k, base)
    ensures RxWellFormed(h.hw)
  {
  }

  lemma {:induction false} ReceivingRun(h: RxHistory, p: seq<Byte>, k: nat, m: nat, base: seq<Word>)
    requires Receiving(h, p, k, base) && k <= m <= |Frame(p)|
    ensures RxWellFormed(h.hw)
    ensures Receiving(RxRun(h, Frame(p)[k..m]), p, m, base)
    decreases m - k
  {
    ReceivingIsWellFormed(h, p, k, base);
    hide Receiving, Frame, RxStep, Shown, RxObserve;
    if k < m {
      ReceivingStep(h, p, k, base);
      RxRunStep(h, Frame(p)[k..m]);
      assert Frame(p)[k..m][1..] == Frame(p)[k + 1..m];
      hide RxRun;
      ReceivingRun(RxObserve(h, Frame(p)[k]), p, k + 1, m, base);
    }
  }

  lemma {:induction false} QuietRun(h: RxHistory, n: nat)
    requires Quiet(h.hw)
    ensures var h' := RxRun(h, Silent(n)); Quiet(h'.hw) && Known(h') == Known(h) && (n >= 2 ==> h'.received == Known(h))
    decreases n
  {
    if n > 0 {
      assert Silent(n)[1..] == Silent(n - 1);
      var h1 := RxObserve(h, SILENCE);
      assert Known(h1) == Known(h);
      QuietRun(h1, n - 1);
      if n == 2 {
        assert RxRun(h, Silent(2)) == RxRun(h1, Silent(1)) == RxRun(RxObserve(h1, SILENCE), []) by {
          assert Silent(1)[1..] == [];
        }
      } else if n > 2 {
        assert Known(h1) == Known(h);
      }
    }
  }

  /** Everything after base and these packets, the last of them possibly not yet closed by silence. */
  ghost predicate Heard(h: RxHistory, ps: seq<seq<Byte>>, base: seq<Word>)
    requires NonEmpty(ps)
  {
    if ps == [] then Quiet(h.hw) && Known(h) == base
    else var n := |ps| - 1; Receiving(h, ps[n], 4 * |ps[n]| + 32, base + AllWords(ps[..n]))
  }

  lemma TwoSilent(h: RxHistory, g: nat)
    requires RxWellFormed(h.hw) && g >= 2
    ensures RxRun(h, Silent(g)) == RxRun(RxObserve(RxObserve(h, SILENCE), SILENCE), Silent(g - 2))
  {
    assert Silent(g)[1..] == Silent(g - 1) && Silent(g - 1)[1..] == Silent(g - 2);
    hide RxStep;
    assert RxRun(h, Silent(g)) == RxRun(RxObserve(h, SILENCE), Silent(g - 1));
  }

  lemma SilenceClosesFrame(h: RxHistory, p: seq<Byte>, base: seq<Word>, g: nat)
    requires p != [] && Receiving(h, p, 4 * |p| + 32, base) && g >= 2
    ensures RxWellFormed(h.hw)
    ensures var h' := RxRun(h, Silent(g));
            Quiet(h'.hw) && Known(h') == base + PacketWords(p) && (g >= 4 ==> h'.received == base + PacketWords(p))
  {
    hide Receiving, RxStep, RxObserve, Quiet, Shown, PacketWords, RxRun, Known;
    ReceivingIsWellFormed(h, p, 4 * |p| + 32, base);
    FrameEnds(h, p, base);
    TwoSilent(h, g);
    QuietRun(RxObserve(RxObserve(h, SILENCE), SILENCE), g - 2);
  }

  lemma SilenceCloses(h: RxHistory, ps: seq<seq<Byte>>, base: seq<Word>, g: nat)
    requires NonEmpty(ps) && Heard(h, ps, base) && (ps != [] ==> g >= 2)
    ensures RxWellFormed(h.hw)
    ensures var h' := RxRun(h, Silent(g));
            Quiet(h'.hw) && Known(h') == base + AllWords(ps) && (g >= 4 ==> h'.received == base + AllWords(ps))
  {
    hide Receiving, RxStep, Quiet, Shown, PacketWords, RxRun, Known;
    if ps == [] {
      QuietIsWellFormed(h.hw);
      QuietRun(h, g);
    } else {
      var n := |ps| - 1;
      SilenceClosesFrame(h, ps[n], base + AllWords(ps[..n]), g);
    }
  }

  /** The receiver behind a whole line. */
  lemma {:induction false} LineIsHeard(h: RxHistory, ps: seq<seq<Byte>>, gaps: seq<nat>)
    requires NonEmpty(ps) && |gaps| == |ps| && GapsOk(gaps, 2) && Quiet(h.hw)
    ensures Heard(RxRun(h, Line(ps, gaps)), ps, Known(h))
    decreases |ps|
  {
    hide Quiet, Receiving, Frame, RxStep, Known;
    assert RxWellFormed(h.hw) by { QuietIsWellFormed(h.hw); }
    if ps != [] {
      var n := |ps| - 1;
      var front, h1 := Line(ps[..n], gaps[..n]), RxRun(h, Line(ps[..n], gaps[..n]));
      LineIsHeard(h, ps[..n], gaps[..n]);
      SilenceCloses(h1, ps[..n], Known(h), gaps[n]);
      RxRunAppend(h, front, Silent(gaps[n]));
      RxRunAppend(h, front + Silent(gaps[n]), Frame(ps[n]));
      var h2 := RxRun(h1, Silent(gaps[n]));
      ReceivingStarts(h2, ps[n]);
      ReceivingRun(h2, ps[n], 0, |Frame(ps[n])|, Known(h2));
      assert Frame(ps[n])[0..|Frame(ps[n])|] == Frame(ps[n]);
    }
  }

  lemma QuietIsWellFormed(s: RxRegs)
    requires Quiet(s)
    ensures RxWellFormed(s)
  {
  }

  /** The receiver behind a whole line and some silence. */
  lemma LineAndSilence(h: RxHistory, ps: seq<seq<Byte>>, gaps: seq<nat>, g: nat)
    requires NonEmpty(ps) && |gaps| == |ps| && GapsOk(gaps, 2) && Quiet(h.hw) && (ps != [] ==> g >= 2)
    ensures RxWellFormed(h.hw)
    ensures var h' := RxRun(h, Line(ps, gaps) + Silent(g));
            Quiet(h'.hw) && Known(h') == Known(h) + AllWords(ps) && (g >= 4 ==> h'.received == Known(h) + AllWords(ps))
  {
    hide Quiet, Receiving, RxStep, Known, RxRun, Line, AllWords;
    QuietIsWellFormed(h.hw);
    LineIsHeard(h, ps, gaps);
    RxRunAppend(h, Line(ps, gaps), Silent(g));
    SilenceCloses(RxRun(h, Line(ps, gaps)), ps, Known(h), g);
  }

  /** Any non-empty packets on a line with at least two silent cycles between frames are received exactly, each with its
      last word marked, four silent cycles after the end of the last frame. */
  lemma LineIsReceived(h: RxHistory, ps: seq<seq<Byte>>, gaps: seq<nat>, g: nat)
    requires Quiet(h.hw) && Known(h) == [] && NonEmpty(ps) && |gaps| == |ps| && GapsOk(gaps, 2) && g >= 4
    ensures RxWellFormed(h.hw)
    ensures RxRun(h, Line(ps, gaps) + Silent(g)).received == AllWords(ps)
  {
    hide *;
    LineAndSilence(h, ps, gaps, g);
  }

  // ---------------------------------------------------------------- transmitter and receiver together

  function TxStart(ps: seq<seq<Byte>>): (h: TxHistory)
    requires NonEmpty(ps)
    ensures TxInv(h)
  {
    SilentNone();
    TxHistory(TxRegs(Idle, 0, 0, false, SILENCE), Source(ps, 0, false), [], [], 0, [])
  }

  lemma {:induction false} TxInvRun(h: TxHistory, offers: seq<bool>)
    requires TxInv(h)
    ensures var h' := TxRun(h, offers); TxInv(h') && h'.sent + h'.source.packets == h.sent + h.source.packets
    decreases |offers|
  {
    if offers != [] {
      assert TxOk(h);
      var h1 := TxObserve(h, offers[0]);
      if h.hw.state == Idle || h.hw.state == Ipg {
        LineStepBetween(h, offers[0]);
      } else {
        LineStepInFrame(h, offers[0]);
      }
      NoneLost(h, offers[0]);
      hide TxInv, TxObserve;
      TxInvRun(h1, offers[1..]);
    }
  }

  lemma NoneLost(h: TxHistory, offer: bool)
    requires TxControl(h)
    ensures var h' := TxObserve(h, offer); h'.sent + h'.source.packets == h.sent + h.source.packets
  {
    hide TxStep;
  }

  /** For any packets and any pattern of offers, the line is the packets in order, each behind at least 58 silent cycles
      except the first, then the silence or the frame prefix being sent; and no packet is lost. */
  lemma TransmitsFrames(ps: seq<seq<Byte>>, offers: seq<bool>)
    requires NonEmpty(ps)
    ensures var h := TxRun(TxStart(ps), offers);
            TxControl(h) && LineOk(h) && GapsOk(h.gaps, 58) && h.sent + h.source.packets == ps
  {
    TxInvRun(TxStart(ps), offers);
    hide TxRun, LineOk;
  }

  lemma NonEmptyParts(a: seq<seq<Byte>>, b: seq<seq<Byte>>)
    requires NonEmpty(a + b)
    ensures NonEmpty(a) && NonEmpty(b)
  {
    assert forall i :: 0 <= i < |a| ==> (a + b)[i] == a[i];
    assert forall i :: 0 <= i < |b| ==> (a + b)[|a| + i] == b[i];
  }

  lemma {:induction false} AllWordsAppend(a: seq<seq<Byte>>, b: seq<seq<Byte>>)
    requires NonEmpty(a + b)
    ensures NonEmpty(a) && NonEmpty(b) && AllWords(a + b) == AllWords(a) + AllWords(b)
    decreases |b|
  {
    hide PacketWords, NonEmpty;
    NonEmptyParts(a, b);
    if b == [] {
      assert a + b == a;
    } else {
      var n := |b| - 1;
      assert a + b == (a + b[..n]) + [b[n]];
      assert (a + b)[..|a| + n] == a + b[..n] && b == b[..n] + [b[n]];
      NonEmptyParts(a + b[..n], [b[n]]);
      AllWordsAppend(a, b[..n]);
    }
  }

  lemma AllWordsOfOne(p: seq<Byte>)
    requires p != []
    ensures AllWords([p]) == PacketWords(p)
  {
    assert [p][..0] == [];
  }

  predicate BetweenFrames(h: TxHistory) { h.hw.state == Idle || h.hw.state == Ipg }

  /** What the transmitter's invariant says about the line. */
  lemma LineFacts(h: TxHistory)
    requires TxInv(h)
    ensures |h.gaps| == |h.sent| && GapsOk(h.gaps, 2)
    ensures h.hw.state == Idle && h.sent != [] ==> h.gap >= 4
    ensures BetweenFrames(h) ==> h.line == Line(h.sent, h.gaps) + Silent(h.gap)
    ensures !BetweenFrames(h) ==>
              && h.source.packets != [] && h.source.packets[0] != [] && (h.sent != [] ==> h.gap >= 2)
              && 0 <= Position(h) < |Frame(h.source.packets[0])|
              && h.line == Line(h.sent, h.gaps) + Silent(h.gap) + Frame(h.source.packets[0])[..Position(h)]
  {
    hide Frame, Line, Silent;
    var silent := Line(h.sent, h.gaps) + Silent(h.gap);
    assert silent + [] == silent;
  }

  /** What the receiver knows when frame p has been sent up to symbol q behind the packets sent before. */
  lemma PrefixIsHeard(rx: RxHistory, h: TxHistory, p: seq<Byte>, q: nat)
    requires Quiet(rx.hw) && Known(rx) == [] && TxInv(h) && NonEmpty(h.sent) && !BetweenFrames(h)
    requires h.source.packets != [] && p == h.source.packets[0] && q == Position(h)
    ensures RxWellFormed(rx.hw)
    ensures Receiving(RxRun(rx, h.line), p, q, AllWords(h.sent))
  {
    hide *;
    LineFacts(h);
    LineAndSilence(rx, h.sent, h.gaps, h.gap);
    var front := Line(h.sent, h.gaps) + Silent(h.gap);
    RxRunAppend(rx, front, Frame(p)[..q]);
    var h2 := RxRun(rx, front);
    assert Known(h2) == AllWords(h.sent) by {
      assert [] + AllWords(h.sent) == AllWords(h.sent);
    }
    ReceivingStarts(h2, p);
    assert Frame(p)[0..q] == Frame(p)[..q];
    ReceivingRun(h2, p, 0, q, Known(h2));
  }

  lemma PrefixAppend(base: seq<Word>, a: seq<Word>, b: seq<Word>)
    requires a <= b
    ensures base + a <= base + b
  {
  }

  lemma PlainIsPrefix(p: seq<Byte>, m: nat)
    requires m < |p|
    ensures Plain(p[..m]) <= PacketWords(p)
  {
  }

  /** Words known so far while a frame is being received are a prefix of what its packet completes. */
  lemma KnownIsPrefix(r: RxHistory, p: seq<Byte>, q: nat, base: seq<Word>)
    requires p != [] && Receiving(r, p, q, base) && q <= |Frame(p)|
    ensures r.received <= Known(r) <= base + PacketWords(p)
  {
    var m, n := Passed(q) - 8, |p| - 1;
    assert Known(r) == base + Plain(p[..m]);
    assert m <= n;
    hide *;
    PlainIsPrefix(p, m);
    PrefixAppend(base, Plain(p[..m]), PacketWords(p));
    ReceivedIsKnown(r);
  }

  lemma LinkIsHeard(rx: RxHistory, h: TxHistory, ps: seq<seq<Byte>>)
    requires Quiet(rx.hw) && Known(rx) == [] && NonEmpty(ps) && TxInv(h) && h.sent + h.source.packets == ps
    ensures RxWellFormed(rx.hw) && NonEmpty(h.sent)
    ensures var r := RxRun(rx, h.line);
            r.received <= AllWords(ps) && (h.hw.state == Idle ==> r.received == AllWords(h.sent))
  {
    assert h.hw.state == Idle ==> BetweenFrames(h);
    hide *;
    AllWordsAppend(h.sent, h.source.packets);
    if BetweenFrames(h) {
      WholeIsHeard(rx, h);
      PrefixAppend(AllWords(h.sent), [], AllWords(h.source.packets));
    } else {
      LineFacts(h);
      PrefixIsHeard(rx, h, h.source.packets[0], Position(h));
      KnownIsPrefix(RxRun(rx, h.line), h.source.packets[0], Position(h), AllWords(h.sent));
      FirstIsPrefix(h.source.packets);
      PrefixAppend(AllWords(h.sent), PacketWords(h.source.packets[0]), AllWords(h.source.packets));
    }
  }

  lemma FirstIsPrefix(ps: seq<seq<Byte>>)
    requires NonEmpty(ps) && ps != []
    ensures PacketWords(ps[0]) <= AllWords(ps)
  {
    assert ps == [ps[0]] + ps[1..];
    AllWordsAppend([ps[0]], ps[1..]);
    AllWordsOfOne(ps[0]);
    hide PacketWords, AllWords;
  }

  /** With the transmitter wired to the receiver, in every run and for every pattern of offers the words received are a
      prefix of the packets' words, each last byte marked; and whenever the transmitter is back in its idle state, every
      packet sent has been received completely. */
  lemma LinkRecoversPackets(rx: RxHistory, ps: seq<seq<Byte>>, offers: seq<bool>)
    requires Quiet(rx.hw) && Known(rx) == [] && NonEmpty(ps)
    ensures RxWellFormed(rx.hw)
    ensures var h := TxRun(TxStart(ps), offers);
            var r := RxRun(rx, h.line);
            && h.sent + h.source.packets == ps && NonEmpty(h.sent)
            && r.received <= AllWords(ps)
            && (h.hw.state == Idle ==> r.received == AllWords(h.sent))
  {
    var h := TxRun(TxStart(ps), offers);
    TxInvRun(TxStart(ps), offers);
    assert h.sent + h.source.packets == ps;
    hide *;
    LinkIsHeard(rx, h, ps);
  }

  /** Directly behind a frame its last word is still on its way. */
  lemma ReceivedSoFar(r: RxHistory, p: seq<Byte>, base: seq<Word>, g: nat)
    requires p != [] && Receiving(r, p, 4 * |p| + 32, base) && g <= 1
    ensures RxWellFormed(r.hw)
    ensures RxRun(r, Silent(g)).received <= base + PacketWords(p)
  {
    hide Receiving, Known, PacketWords, Frame, RxStep, RxRun, Silent;
    ReceivingIsWellFormed(r, p, 4 * |p| + 32, base);
    KnownIsPrefix(r, p, 4 * |p| + 32, base);
    ReceivedByThen(r, g);
  }

  lemma ReceivedByThen(r: RxHistory, g: nat)
    requires RxWellFormed(r.hw) && g <= 1
    ensures RxRun(r, Silent(g)).received <= Known(r)
  {
    hide RxStep;
    var r1 := RxObserve(r, SILENCE);
    assert Silent(1)[1..] == [];
    assert RxRun(r, Silent(g)) == if g == 1 then RxRun(r1, []) else r;
  }

  lemma ReceivedIsKnown(r: RxHistory)
    ensures r.received <= Known(r)
  {
  }

  lemma WholeIsHeard(rx: RxHistory, h: TxHistory)
    requires Quiet(rx.hw) && Known(rx) == [] && TxInv(h) && NonEmpty(h.sent) && BetweenFrames(h)
    ensures RxWellFormed(rx.hw)
    ensures var r := RxRun(rx, h.line);
            r.received <= AllWords(h.sent) && (h.hw.state == Idle ==> r.received == AllWords(h.sent))
  {
    hide Quiet, Known, TxInv, TxControl, LineOk, Line, Silent, Frame, RxRun, Receiving, PacketWords, Octets;
    LineFacts(h);
    QuietIsWellFormed(rx.hw);
    if h.sent == [] || h.gap >= 2 {
      LineAndSilence(rx, h.sent, h.gaps, h.gap);
      ReceivedIsKnown(RxRun(rx, h.line));
    } else {
      LineIsHeard(rx, h.sent, h.gaps);
      RxRunAppend(rx, Line(h.sent, h.gaps), Silent(h.gap));
      var n := |h.sent| - 1;
      assert [] + AllWords(h.sent[..n]) == AllWords(h.sent[..n]);
      ReceivedSoFar(RxRun(rx, Line(h.sent, h.gaps)), h.sent[n], AllWords(h.sent[..n]), h.gap);
    }
  }

  /** Cycles left, at most, when every packet is offered at once. */
  function Cost(ps: seq<seq<Byte>>): nat {
    if ps == [] then 0 else 90 + 4 * |ps[0]| + Cost(ps[1..])
  }

  function Work(h: TxHistory): int
    requires TxControl(h)
  {
    var ps := h.source.packets;
    match h.hw.state
    case Idle => Cost(ps)
    case Preamble => h.hw.counter + 59 + 4 * |ps[0]| + Cost(ps[1..])
    case Sfd => 58 + 4 * |ps[0]| + Cost(ps[1..])
    case Data => 57 + 4 * (|ps[0]| - h.source.pos) - h.hw.sel + Cost(ps[1..])
    case Ipg => h.hw.counter + 1 + Cost(ps)
  }

  lemma WorkDecreases(h: TxHistory)
    requires TxControl(h)
    ensures TxControl(TxObserve(h, true)) && 0 <= Work(TxObserve(h, true))
    ensures Work(TxObserve(h, true)) <= if Work(h) > 0 then Work(h) - 1 else 0
  {
    TxControlStep(h, true);
    hide Dibits, GapsOk;
  }

  /** Offered at once, all packets are sent within a number of cycles that depends on their lengths only. */
  lemma {:induction false} SendsEverything(h: TxHistory, n: nat)
    requires TxInv(h) && Work(h) <= n
    ensures var h' := TxRun(h, seq(n, _ => true)); h'.hw.state == Idle && h'.source.packets == []
    decreases n
  {
    if n == 0 {
      assert seq(n, _ => true) == [];
      assert Cost(h.source.packets) <= 0;
    } else {
      var h1 := TxObserve(h, true);
      WorkDecreases(h);
      assert seq(n, _ => true)[1..] == seq(n - 1, _ => true);
      hide Work, TxObserve, LineOk;
      if BetweenFrames(h) {
        LineStepBetween(h, true);
      } else {
        LineStepInFrame(h, true);
      }
      hide TxControl;
      SendsEverything(h1, n - 1);
    }
  }

  /** From the first offer to the last word: every packet arrives, exactly and in order. */
  lemma EverythingArrives(rx: RxHistory, ps: seq<seq<Byte>>)
    requires Quiet(rx.hw) && Known(rx) == [] && NonEmpty(ps)
    ensures RxWellFormed(rx.hw)
    ensures var h := TxRun(TxStart(ps), seq(Cost(ps), _ => true)); RxRun(rx, h.line).received == AllWords(ps)
  {
    var offers := seq(Cost(ps), _ => true);
    var h := TxRun(TxStart(ps), offers);
    SendsEverything(TxStart(ps), Cost(ps));
    LinkRecoversPackets(rx, ps, offers);
    assert h.sent + [] == h.sent;
  }

  // ---------------------------------------------------------------- the clocked entities

  class Transmitter {
    var fsmState: TxState
    var cycleCounter: nat
    var diBitSelect: nat
    var ready: bool
    var txEn: bool
    var txd: Dibit

    function Registers(): TxRegs
      reads this
    {
      TxRegs(fsmState, cycleCounter, diBitSelect, ready, Symbol(txEn, txd))
    }

    constructor ()
      ensures Registers() == TxRegs(Idle, 0, 0, false, SILENCE)
    {
      fsmState, cycleCounter, diBitSelect, ready, txEn, txd := Idle, 0, 0, false, false, 0;
    }

    method Clock(valid: bool, data: Byte, last: bool)
      requires TxWellFormed(Registers())
      modifies this
      ensures Registers() == TxStep(old(Registers()), valid, data, last)
    {
      var counter, sel := cycleCounter, diBitSelect;
      txEn, txd, ready := false, 0, false;
      cycleCounter := (counter + 4095) % 4096;
      match fsmState {
        case Idle =>
          if valid {
            fsmState, cycleCounter, diBitSelect := Preamble, 30, 0;
          }
        case Preamble =>
          txEn, txd := true, 1;
          if counter == 0 {
            fsmState := Sfd;
          }
        case Sfd =>
          txEn, txd, fsmState := true, 3, Data;
        case Data =>
          diBitSelect := (sel + 1) % 4;
          txEn := true;
          if sel == 2 {
            ready := true;
          }
          if last && sel == 3 {
            fsmState, cycleCounter := Ipg, 56;
          }
          txd := Dibits(data)[sel];
        case Ipg =>
          if counter == 0 {
            fsmState := Idle;
          }
      }
    }
  }

  class Receiver {
    var crsR: bool
    var rxdR: Dibit
    var counterReset: bool
    var counter: nat
    var octet: seq<Dibit>
    var octetValid: bool
    var octetLast: bool
    var inData: bool
    var stripped: Stage
    var out: Stage

    function Registers(): RxRegs
      reads this
    {
      RxRegs(crsR, rxdR, counterReset, counter, octet, octetValid, octetLast, inData, stripped, out)
    }

    constructor ()
      ensures Quiet(Registers()) && out == stripped == EMPTY
    {
      crsR, rxdR, counterReset, counter := false, 0, true, 1;
      octet, octetValid, octetLast := [0, 0, 0, 0], false, false;
      inData, stripped, out := false, EMPTY, EMPTY;
    }

    /** Removal of preamble and start delimiter, then the output register. */
    method StripProcess()
      requires RxWellFormed(Registers())
      modifies this`inData, this`stripped, this`out
      ensures out == old(stripped)
      ensures inData == if old(inData) then !(octetValid && octetLast) else octetValid && Octet(octet) == 0xD5
      ensures stripped == if old(inData) then Stage(Octet(octet), octetValid, octetLast) else EMPTY
    {
      out := stripped;
      if !inData {
        stripped := EMPTY;
        if octetValid && Octet(octet) == 0xD5 {
          inData := true;
        }
      } else {
        stripped := Stage(Octet(octet), octetValid, octetLast);
        if octetValid && octetLast {
          inData := false;
        }
      }
    }

    /** The bit pair counter, held at one until the first 01 behind a rising crs_dv. */
    method CounterProcess()
      requires counter < 4
      modifies this`counterReset, this`counter
      ensures counterReset == if !crsR then true else if rxdR == 1 then false else old(counterReset)
      ensures counter == if old(counterReset) then 1 else (old(counter) + 1) % 4
    {
      if counterReset {
        counter := 1;
      } else {
        counter := (counter + 1) % 4;
      }
      if !crsR {
        counterReset := true;
      } else if rxdR == 1 {
        counterReset := false;
      }
    }

    method Clock(crsDv: bool, rxd: Dibit)
      requires RxWellFormed(Registers())
      modifies this
      ensures Registers() == RxStep(old(Registers()), Symbol(crsDv, rxd))
    {
      hide Octet;
      StripProcess();
      octet := octet[1..] + [rxdR];
      octetLast := crsR && !crsDv;
      octetValid := counter == 3 && crsR;
      CounterProcess();
      crsR, rxdR := crsDv, rxd;
    }
  }
}
