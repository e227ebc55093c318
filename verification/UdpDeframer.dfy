/** UDP/IP deframer: header parser with option skipping, address and port filters. */
module UdpDeframer {
  import opened BitVectors
  import opened ByteStream

  /** Header(k) waits for byte k of the fixed IP header, Udp(k) for byte k of the UDP header. */
  datatype State = Idle | Header(k: nat) | Options | Udp(k: nat) | Payload | Discard

  /** mask notes why packets were discarded: version, protocol, address, port. */
  datatype Regs = Regs(
    state: State, dstIp: Ip, portHigh: Byte, portLow: Byte, remaining: nat, outValid: bool, out: Word,
    validCount: Word16, droppedCount: Word16, mask: seq<bool>)

  datatype Settings = Settings(address: Ip, broadcast: Ip, port: Word16)

  predicate WellFormed(s: Regs) {
    && s.remaining < 64 && |s.mask| == 4
    && (s.state.Header? ==> 1 <= s.state.k <= 19) && (s.state.Udp? ==> s.state.k <= 7)
  }

  predicate AddressOk(c: Settings, a: Ip) { a == c.address || a == c.broadcast }

  predicate PortOk(c: Settings, high: Byte, low: Byte) { (high as int) * 0x100 + low as int == c.port }

  /** Header bytes that follow the first twenty, from the length nibble, in six bits. */
  function ExtraBytes(first: Byte): (n: nat)
    ensures n < 64
  {
    ((first as int) % 16 * 4 + 44) % 64
  }

  /** The state after a byte. */
  function NextState(c: Settings, s: Regs, b: Byte, last: bool): State {
    match s.state
    case Idle => if (b as int) / 16 == 4 then Header(1) else Discard
    case Header(k) =>
      if k == 9 && b != 0x11 then Discard
      else if k == 19 then (if s.remaining == 0 then Udp(0) else Options)
      else Header(k + 1)
    case Options => if s.remaining == 1 then Udp(0) else Options
    case Udp(k) =>
      if k == 0 && !AddressOk(c, s.dstIp) then Discard
      else if k == 4 && !PortOk(c, s.portHigh, s.portLow) then Discard
      else if k == 7 then (if last then Idle else Payload)
      else Udp(k + 1)
    case Payload => if last then Idle else Payload
    case Discard => if last then Idle else Discard
  }

  /** Why this byte makes the packet be discarded. */
  function NextMask(c: Settings, s: Regs, b: Byte): (m: seq<bool>)
    requires WellFormed(s)
    ensures |m| == 4
  {
    match s.state
    case Idle => if (b as int) / 16 == 4 then s.mask else s.mask[0 := true]
    case Header(k) => if k == 9 && b != 0x11 then s.mask[1 := true] else s.mask
    case Udp(k) =>
      if k == 0 && !AddressOk(c, s.dstIp) then s.mask[2 := true]
      else if k == 4 && !PortOk(c, s.portHigh, s.portLow) then s.mask[3 := true]
      else s.mask
    case _ => s.mask
  }

  const NO_WORD := Word(0, false)

  function Step(c: Settings, s: Regs, i: Input): (s': Regs)
    requires WellFormed(s)
    ensures WellFormed(s')
  {
    match i
    case Pause => s.(outValid := false, out := NO_WORD)
    case Arrival(b, last) =>
      Regs(NextState(c, s, b, last),
           if s.state.Header? && s.state.k >= 16 then s.dstIp[1..] + [b] else s.dstIp,
           if s.state == Udp(2) then b else s.portHigh,
           if s.state == Udp(3) then b else s.portLow,
           if s.state == Idle && (b as int) / 16 == 4 then ExtraBytes(b)
           else if s.state == Options then (s.remaining + 63) % 64
           else s.remaining,
           s.state == Payload,
           if s.state == Payload then Word(b, last) else NO_WORD,
           if s.state == Payload && last then (s.validCount + 1) % 0x10000 else s.validCount,
           if s.state == Discard && last then (s.droppedCount + 1) % 0x10000 else s.droppedCount,
           NextMask(c, s, b))
  }

  function Shown(s: Regs): seq<Word> { if s.outValid then [s.out] else [] }

  datatype History = History(hw: Regs, emitted: seq<Word>)

  function Observe(c: Settings, h: History, i: Input): (h': History)
    requires WellFormed(h.hw)
    ensures WellFormed(h'.hw)
  {
    History(Step(c, h.hw, i), h.emitted + Shown(h.hw))
  }

  function Run(c: Settings, h: History, inputs: seq<Input>): (h': History)
    requires WellFormed(h.hw)
    ensures WellFormed(h'.hw)
    decreases |inputs|
  {
    if inputs == [] then h else Run(c, Observe(c, h, inputs[0]), inputs[1..])
  }

  // ---------------------------------------------------------------- what a packet yields

  /** Where the UDP header starts: section 3.1 of RFC 791 counts the header in words of four bytes. A length nibble below
      five, which the RFC does not allow, is taken to be sixteen more. */
  function UdpStart(f: seq<Byte>): (n: nat)
    requires f != []
    ensures 20 <= n <= 80
  {
    var nibble := (f[0] as int) % 16;
    if nibble >= 5 then 4 * nibble else 4 * (nibble + 16)
  }

  /** The six-bit count of further header bytes leads there. */
  lemma UdpStartIsHeaderLength(f: seq<Byte>)
    requires f != []
    ensures 20 + ExtraBytes(f[0]) == UdpStart(f)
    ensures (f[0] as int) % 16 >= 5 ==> 20 + ExtraBytes(f[0]) == 4 * ((f[0] as int) % 16)
  {
  }

  /** Both headers are there. */
  predicate Complete(f: seq<Byte>) { |f| >= 28 && |f| >= UdpStart(f) + 8 }

  /** The version nibble says IPv4. */
  predicate VersionOk(f: seq<Byte>)
    requires f != []
  {
    (f[0] as int) / 16 == 4
  }

  /** A UDP packet over IPv4 for this station and port. */
  predicate Accepted(c: Settings, f: seq<Byte>)
    requires Complete(f)
  {
    var u := UdpStart(f);
    && 0x40 <= f[0] as int <= 0x4F && f[9] == 0x11
    && (f[16..20] == c.address || f[16..20] == c.broadcast)
    && 0x100 * (f[u + 2] as int) + f[u + 3] as int == c.port
  }

  /** The checks that the parser makes decide it. */
  lemma AcceptedIff(c: Settings, f: seq<Byte>)
    requires Complete(f)
    ensures var u := UdpStart(f);
            Accepted(c, f) <==> VersionOk(f) && f[9] == 0x11 && AddressOk(c, f[16..20]) && PortOk(c, f[u + 2], f[u + 3])
  {
    hide UdpStart;
  }

  /** The payload of an accepted packet, its last byte marked; nothing for any other packet. */
  function Expected(c: Settings, f: seq<Byte>): seq<Word>
    requires Complete(f)
  {
    if Accepted(c, f) then PacketWords(f[UdpStart(f) + 8..]) else []
  }

  // ---------------------------------------------------------------- inside a packet

  /** The state in front of byte k. */
  function StateAt(c: Settings, f: seq<Byte>, k: nat): State
    requires Complete(f) && k < |f|
  {
    var u := UdpStart(f);
    if k == 0 then Idle
    else if !VersionOk(f) then Discard
    else if k <= 9 then Header(k)
    else if f[9] != 0x11 then Discard
    else if k <= 19 then Header(k)
    else if k < u then Options
    else if k == u then Udp(0)
    else if !AddressOk(c, f[16..20]) then Discard
    else if k <= u + 4 then Udp(k - u)
    else if !PortOk(c, f[u + 2], f[u + 3]) then Discard
    else if k <= u + 7 then Udp(k - u)
    else Payload
  }

  /** The captured fields in front of byte k, as far as they still matter. */
  predicate FieldsAt(s: Regs, f: seq<Byte>, k: nat)
    requires Complete(f) && k < |f|
  {
    var u := UdpStart(f);
    && (s.state.Header? ==> s.remaining == u - 20)
    && (s.state == Options ==> s.remaining == u - k)
    && (s.state.Header? && 17 <= k <= 19 ==> s.dstIp[20 - k..] == f[16..k])
    && (k >= 20 && (s.state == Options || s.state == Udp(0)) ==> s.dstIp == f[16..20])
    && (s.state.Udp? && s.state.k >= 3 ==> s.portHigh == f[u + 2])
    && (s.state.Udp? && s.state.k >= 4 ==> s.portLow == f[u + 3])
  }

  /** What has come out in front of byte k. */
  function OutAt(c: Settings, f: seq<Byte>, k: nat): seq<Word>
    requires Complete(f) && k < |f|
  {
    if StateAt(c, f, k) == Payload then Plain(f[UdpStart(f) + 8..k]) else []
  }

  /** The mask with the bit of the first check that the packet fails. */
  function Blamed(c: Settings, f: seq<Byte>, mask: seq<bool>): (m: seq<bool>)
    requires Complete(f) && |mask| == 4
    ensures |m| == 4
  {
    var u := UdpStart(f);
    if !VersionOk(f) then mask[0 := true]
    else if f[9] != 0x11 then mask[1 := true]
    else if !AddressOk(c, f[16..20]) then mask[2 := true]
    else if !PortOk(c, f[u + 2], f[u + 3]) then mask[3 := true]
    else mask
  }

  /** The counters have not moved since the packet began, and the mask only if it was discarded. */
  predicate Bookkeeping(c: Settings, s: Regs, start: Regs, f: seq<Byte>)
    requires Complete(f) && WellFormed(start)
  {
    && s.validCount == start.validCount && s.droppedCount == start.droppedCount
    && s.mask == if s.state == Discard then Blamed(c, f, start.mask) else start.mask
  }

  /** k bytes of packet f have arrived, the last one not being among them. */
  ghost predicate InPacket(c: Settings, h: History, f: seq<Byte>, k: nat, base: seq<Word>) {
    && WellFormed(h.hw) && Complete(f) && k < |f|
    && h.hw.state == StateAt(c, f, k) && FieldsAt(h.hw, f, k)
    && h.emitted + Shown(h.hw) == base + OutAt(c, f, k)
  }

  lemma BookkeepingStep(c: Settings, s: Regs, start: Regs, f: seq<Byte>, k: nat)
    requires WellFormed(s) && Complete(f) && k < |f| - 1 && s.state == StateAt(c, f, k) && FieldsAt(s, f, k)
    requires WellFormed(start) && Bookkeeping(c, s, start, f)
    ensures Bookkeeping(c, Step(c, s, Arrival(f[k], false)), start, f)
  {
    StateAtShape(c, f, k);
    if s.state != Discard {
      PassedChecks(c, f, k);
    }
    hide AddressOk, PortOk, ExtraBytes, VersionOk, StateAt;
  }

  /** The checks that a packet has passed when it is not discarded. */
  lemma PassedChecks(c: Settings, f: seq<Byte>, k: nat)
    requires Complete(f) && k < |f| && StateAt(c, f, k) != Discard
    ensures k > 0 ==> VersionOk(f)
    ensures k > 9 ==> f[9] == 0x11
    ensures StateAt(c, f, k).Udp? && StateAt(c, f, k).k > 0 ==> AddressOk(c, f[16..20])
  {
    hide AddressOk, PortOk, ExtraBytes, VersionOk;
  }

  lemma PauseStep(c: Settings, h: History, f: seq<Byte>, k: nat, base: seq<Word>)
    requires InPacket(c, h, f, k, base)
    ensures InPacket(c, Observe(c, h, Pause), f, k, base)
  {
    hide StateAt, OutAt, UdpStart;
  }

  /** The shape of the state in front of a byte. */
  lemma StateAtShape(c: Settings, f: seq<Byte>, k: nat)
    requires Complete(f) && k < |f|
    ensures var s, u := StateAt(c, f, k), UdpStart(f);
            match s
            case Idle => k == 0
            case Header(j) => 1 <= j == k <= 19
            case Options => 20 <= k < u
            case Udp(j) => j <= 7 && k == u + j
            case Payload => k >= u + 8
            case Discard => k > 0
  {
    hide AddressOk, PortOk, VersionOk, ExtraBytes;
  }

  /** Within the IP header. */
  lemma StateStepInIp(c: Settings, s: Regs, f: seq<Byte>, k: nat)
    requires WellFormed(s) && Complete(f) && k < |f| - 1 && s.state == StateAt(c, f, k)
    requires s.state == Idle || s.state.Header? || s.state == Options
    requires s.state.Header? ==> s.remaining == UdpStart(f) - 20
    requires s.state == Options ==> s.remaining == UdpStart(f) - k
    ensures NextState(c, s, f[k], false) == StateAt(c, f, k + 1)
  {
    StateAtShape(c, f, k);
    hide AddressOk, PortOk, ExtraBytes;
  }

  /** Within the UDP header and behind it. */
  lemma StateStepBehind(c: Settings, s: Regs, f: seq<Byte>, k: nat)
    requires WellFormed(s) && Complete(f) && k < |f| - 1 && s.state == StateAt(c, f, k)
    requires s.state.Udp? || s.state == Payload || s.state == Discard
    requires s.state == Udp(0) ==> s.dstIp == f[16..20]
    requires s.state == Udp(4) ==> s.portHigh == f[UdpStart(f) + 2] && s.portLow == f[UdpStart(f) + 3]
    ensures NextState(c, s, f[k], false) == StateAt(c, f, k + 1)
  {
    StateAtShape(c, f, k);
    hide AddressOk, PortOk, ExtraBytes, VersionOk;
    assert 20 <= UdpStart(f) <= 83;
  }

  lemma StateStep(c: Settings, s: Regs, f: seq<Byte>, k: nat)
    requires WellFormed(s) && Complete(f) && k < |f| - 1 && s.state == StateAt(c, f, k) && FieldsAt(s, f, k)
    ensures NextState(c, s, f[k], false) == StateAt(c, f, k + 1)
  {
    StateAtShape(c, f, k);
    hide AddressOk, PortOk, ExtraBytes, VersionOk, StateAt, NextState;
    if s.state.Udp? || s.state == Payload || s.state == Discard {
      StateStepBehind(c, s, f, k);
    } else {
      StateStepInIp(c, s, f, k);
    }
  }

  lemma AddressByte(a: Ip, f: seq<Byte>, k: nat)
    requires 16 <= k <= 19 && k < |f| && (k >= 17 ==> a[20 - k..] == f[16..k])
    ensures (a[1..] + [f[k]])[19 - k..] == f[16..k + 1]
  {
    if k >= 17 {
      assert (a[1..] + [f[k]])[19 - k..] == a[20 - k..] + [f[k]];
    }
  }

  /** What a byte does to the captured fields. */
  lemma FieldsObserved(c: Settings, s: Regs, b: Byte)
    requires WellFormed(s)
    ensures var s' := Step(c, s, Arrival(b, false));
            && s'.state == NextState(c, s, b, false)
            && s'.dstIp == (if s.state.Header? && s.state.k >= 16 then s.dstIp[1..] + [b] else s.dstIp)
            && s'.portHigh == (if s.state == Udp(2) then b else s.portHigh)
            && s'.portLow == (if s.state == Udp(3) then b else s.portLow)
            && s'.remaining == (if s.state == Idle && (b as int) / 16 == 4 then ExtraBytes(b)
                                else if s.state == Options then (s.remaining + 63) % 64
                                else s.remaining)
  {
    hide NextState, NextMask, ExtraBytes;
  }

  lemma StateFromIdle(c: Settings, f: seq<Byte>)
    requires Complete(f)
    ensures StateAt(c, f, 1).Header? ==> (f[0] as int) / 16 == 4
    ensures StateAt(c, f, 1).Header? || StateAt(c, f, 1) == Discard
  {
  }

  lemma FieldsStep(c: Settings, s: Regs, f: seq<Byte>, k: nat)
    requires WellFormed(s) && Complete(f) && k < |f| - 1 && s.state == StateAt(c, f, k) && FieldsAt(s, f, k)
    requires NextState(c, s, f[k], false) == StateAt(c, f, k + 1)
    ensures FieldsAt(Step(c, s, Arrival(f[k], false)), f, k + 1)
  {
    hide Step, StateAt, ExtraBytes, AddressOk, PortOk;
    UdpStartIsHeaderLength(f);
    StateAtShape(c, f, k);
    StateAtShape(c, f, k + 1);
    FieldsObserved(c, s, f[k]);
    StateFromIdle(c, f);
    if 16 <= k <= 19 && s.state.Header? {
      AddressByte(s.dstIp, f, k);
      assert Step(c, s, Arrival(f[k], false)).dstIp[0..] == s.dstIp[1..] + [f[k]];
    }
  }

  lemma PlainOneMore(f: seq<Byte>, a: nat, b: nat)
    requires a <= b < |f|
    ensures Plain(f[a..b + 1]) == Plain(f[a..b]) + [Word(f[b], false)]
  {
  }

  /** Once in the payload, every byte comes out. */
  lemma OutAtStep(c: Settings, f: seq<Byte>, k: nat)
    requires Complete(f) && k < |f| - 1
    ensures OutAt(c, f, k + 1) == OutAt(c, f, k) + (if StateAt(c, f, k) == Payload then [Word(f[k], false)] else [])
  {
    hide StateAt, UdpStart, Plain;
    PayloadStarts(c, f, k);
    var u := UdpStart(f);
    if StateAt(c, f, k) == Payload {
      PlainOneMore(f, u + 8, k);
    } else if StateAt(c, f, k + 1) == Payload {
      assert f[u + 8..k + 1] == [];
      NoPlain();
    }
  }

  lemma NoPlain()
    ensures Plain([]) == []
  {
  }

  lemma PayloadStarts(c: Settings, f: seq<Byte>, k: nat)
    requires Complete(f) && k < |f| - 1
    ensures StateAt(c, f, k) == Payload ==> k >= UdpStart(f) + 8 && StateAt(c, f, k + 1) == Payload
    ensures StateAt(c, f, k) != Payload && StateAt(c, f, k + 1) == Payload ==> k + 1 == UdpStart(f) + 8
  {
    hide AddressOk, PortOk, VersionOk, ExtraBytes;
  }

  lemma ByteShown(c: Settings, s: Regs, b: Byte)
    requires WellFormed(s)
    ensures Shown(Step(c, s, Arrival(b, false))) == if s.state == Payload then [Word(b, false)] else []
  {
    hide NextState, NextMask, ExtraBytes;
  }

  /** A byte that is not the last one of its packet. */
  lemma ByteStep(c: Settings, h: History, f: seq<Byte>, k: nat, base: seq<Word>)
    requires InPacket(c, h, f, k, base) && k < |f| - 1
    ensures InPacket(c, Observe(c, h, Arrival(f[k], false)), f, k + 1, base)
  {
    hide Step, Shown, NextState, StateAt, FieldsAt, OutAt, Complete, ExtraBytes;
    StateStep(c, h.hw, f, k);
    FieldsStep(c, h.hw, f, k);
    FieldsObserved(c, h.hw, f[k]);
    ByteShown(c, h.hw, f[k]);
    OutAtStep(c, f, k);
  }

  /** Between packets; the counters and the mask are as given. */
  predicate Settled(s: Regs) { WellFormed(s) && s.state == Idle }

  /** The last byte of the packet. */
  lemma LastByteStep(c: Settings, h: History, f: seq<Byte>, base: seq<Word>)
    requires Complete(f) && InPacket(c, h, f, |f| - 1, base)
    ensures var h' := Observe(c, h, Arrival(f[|f| - 1], true));
            Settled(h'.hw) && h'.emitted + Shown(h'.hw) == base + Expected(c, f)
  {
    var k, u := |f| - 1, UdpStart(f);
    StateAtShape(c, f, k);
    LastState(c, f);
    var h' := Observe(c, h, Arrival(f[k], true));
    if h.hw.state == Payload {
      assert f[u + 8..] == f[u + 8..k] + [f[k]];
      assert PacketWords(f[u + 8..]) == Plain(f[u + 8..k]) + [Word(f[k], true)];
    }
    hide FieldsAt, NextMask, ExtraBytes, StateAt, Plain, PacketWords, PortOk, AddressOk, Accepted;
    assert Shown(h'.hw) == if h.hw.state == Payload then [Word(f[k], true)] else [];
  }

  /** Where a packet can end. */
  lemma LastState(c: Settings, f: seq<Byte>)
    requires Complete(f)
    ensures var s := StateAt(c, f, |f| - 1);
            && (Accepted(c, f) <==> s == Payload || s == Udp(7))
            && (s == Udp(7) <==> Accepted(c, f) && |f| == UdpStart(f) + 8)
            && (!Accepted(c, f) ==> s == Discard)
  {
    hide AddressOk, PortOk, VersionOk, Accepted, UdpStart;
    AcceptedIff(c, f);
  }

  /** The counters after a whole packet, and the mask. */
  predicate Counted(c: Settings, s: Regs, start: Regs, f: seq<Byte>)
    requires Complete(f) && WellFormed(start)
  {
    var delivers := Accepted(c, f) && |f| > UdpStart(f) + 8;
    && s.validCount == (if delivers then (start.validCount + 1) % 0x10000 else start.validCount)
    && s.droppedCount == (if Accepted(c, f) then start.droppedCount else (start.droppedCount + 1) % 0x10000)
    && s.mask == Blamed(c, f, start.mask)
  }

  lemma LastCounted(c: Settings, s: Regs, start: Regs, f: seq<Byte>)
    requires WellFormed(s) && Complete(f) && s.state == StateAt(c, f, |f| - 1) && FieldsAt(s, f, |f| - 1)
    requires WellFormed(start) && Bookkeeping(c, s, start, f)
    ensures Counted(c, Step(c, s, Arrival(f[|f| - 1], true)), start, f)
  {
    LastState(c, f);
    StateAtShape(c, f, |f| - 1);
    AcceptedIsBlameless(c, f, start.mask);
    hide AddressOk, PortOk, ExtraBytes, VersionOk, StateAt, Accepted, Blamed;
  }

  lemma AcceptedIsBlameless(c: Settings, f: seq<Byte>, mask: seq<bool>)
    requires Complete(f) && |mask| == 4
    ensures Accepted(c, f) ==> Blamed(c, f, mask) == mask
  {
    hide AddressOk, PortOk, VersionOk, Accepted, UdpStart;
    AcceptedIff(c, f);
  }

  // ---------------------------------------------------------------- runs

  lemma InPacketBounds(c: Settings, h: History, f: seq<Byte>, k: nat, base: seq<Word>)
    requires InPacket(c, h, f, k, base)
    ensures WellFormed(h.hw) && Complete(f) && k < |f| && h.hw.state == StateAt(c, f, k) && FieldsAt(h.hw, f, k)
  {
  }

  lemma RunOneStep(c: Settings, h: History, inputs: seq<Input>)
    requires WellFormed(h.hw) && inputs != []
    ensures Run(c, h, inputs) == Run(c, Observe(c, h, inputs[0]), inputs[1..])
    ensures Observe(c, h, inputs[0]).hw == Step(c, h.hw, inputs[0])
  {
  }

  /** Known so far: what has been emitted and the word shown. */
  function Known(h: History): seq<Word> { h.emitted + Shown(h.hw) }

  lemma {:induction false} RunSettled(c: Settings, h: History, inputs: seq<Input>)
    requires Settled(h.hw) && Carries(inputs, [])
    ensures var h' := Run(c, h, inputs);
            && Settled(h'.hw) && Known(h') == Known(h) && (inputs != [] ==> h'.emitted == Known(h))
            && h'.hw.validCount == h.hw.validCount && h'.hw.droppedCount == h.hw.droppedCount && h'.hw.mask == h.hw.mask
    decreases |inputs|
  {
    if inputs != [] {
      var h1 := Observe(c, h, Pause);
      assert h1.emitted == Known(h) == Known(h1);
      RunSettled(c, h1, inputs[1..]);
    }
  }

  lemma SomethingArrives(inputs: seq<Input>, f: seq<Byte>)
    requires f != [] && Carries(inputs, f)
    ensures inputs != []
  {
  }

  lemma {:induction false} RunPacket(c: Settings, h: History, inputs: seq<Input>, f: seq<Byte>, k: nat, base: seq<Word>,
                                     start: Regs)
    requires InPacket(c, h, f, k, base) && WellFormed(start) && Bookkeeping(c, h.hw, start, f)
    requires Carries(inputs, f[k..])
    ensures WellFormed(h.hw)
    ensures var h' := Run(c, h, inputs);
            Settled(h'.hw) && Known(h') == base + Expected(c, f) && Counted(c, h'.hw, start, f)
    decreases |inputs|
  {
    hide *;
    InPacketBounds(c, h, f, k, base);
    SomethingArrives(inputs, f[k..]);
    RunOneStep(c, h, inputs);
    CarriesStep(inputs, f, k);
    var h1 := Observe(c, h, inputs[0]);
    if inputs[0] == Pause {
      PauseStep(c, h, f, k, base);
      PauseKeeps(c, h.hw, start, f);
      RunPacket(c, h1, inputs[1..], f, k, base, start);
    } else if k < |f| - 1 {
      ByteStep(c, h, f, k, base);
      BookkeepingStep(c, h.hw, start, f, k);
      RunPacket(c, h1, inputs[1..], f, k + 1, base, start);
    } else {
      LastByteStep(c, h, f, base);
      LastCounted(c, h.hw, start, f);
      RunSettled(c, h1, inputs[1..]);
      SettledCounted(c, h1.hw, Run(c, h1, inputs[1..]).hw, start, f);
      KnownIs(h1);
    }
  }

  lemma KnownIs(h: History)
    ensures Known(h) == h.emitted + Shown(h.hw)
  {
  }

  lemma SettledCounted(c: Settings, s: Regs, s': Regs, start: Regs, f: seq<Byte>)
    requires Complete(f) && WellFormed(start) && Counted(c, s, start, f)
    requires s'.validCount == s.validCount && s'.droppedCount == s.droppedCount && s'.mask == s.mask
    ensures Counted(c, s', start, f)
  {
  }

  lemma PauseKeeps(c: Settings, s: Regs, start: Regs, f: seq<Byte>)
    requires WellFormed(s) && Complete(f) && WellFormed(start) && Bookkeeping(c, s, start, f)
    ensures Bookkeeping(c, Step(c, s, Pause), start, f)
  {
  }

  lemma CarriesStep(inputs: seq<Input>, f: seq<Byte>, k: nat)
    requires k < |f| && inputs != [] && Carries(inputs, f[k..])
    ensures inputs[0] == Pause ==> Carries(inputs[1..], f[k..])
    ensures inputs[0] != Pause ==> inputs[0] == Arrival(f[k], k == |f| - 1) && Carries(inputs[1..], f[k + 1..])
    ensures inputs[0] != Pause && k == |f| - 1 ==> Carries(inputs[1..], [])
  {
    assert f[k..][1..] == f[k + 1..];
  }

  // ---------------------------------------------------------------- main results

  /** One packet, with any gaps: a UDP packet over IPv4 for this address and port, with any header length, yields exactly
      its payload with its last byte marked; any other packet yields nothing; and counters and mask say so. */
  lemma PacketYieldsPayload(c: Settings, h: History, inputs: seq<Input>, f: seq<Byte>)
    requires Settled(h.hw) && Complete(f) && Carries(inputs, f)
    ensures var h' := Run(c, h, inputs);
            Settled(h'.hw) && Known(h') == Known(h) + Expected(c, f) && Counted(c, h'.hw, h.hw, f)
  {
    assert f[0..] == f;
    assert InPacket(c, h, f, 0, Known(h)) && Bookkeeping(c, h.hw, h.hw, f);
    hide *;
    SettledIsWellFormed(h.hw);
    RunPacket(c, h, inputs, f, 0, Known(h), h.hw);
  }

  /** Byte for byte: what one packet yields. */
  lemma PacketByPosition(c: Settings, h: History, inputs: seq<Input>, f: seq<Byte>)
    requires Settled(h.hw) && Complete(f) && Carries(inputs, f)
    ensures WellFormed(h.hw) && Known(h) <= Known(Run(c, h, inputs))
    ensures var out := Known(Run(c, h, inputs))[|Known(h)|..];
            var u := if (f[0] as int) % 16 >= 5 then 4 * ((f[0] as int) % 16) else 4 * ((f[0] as int) % 16) + 64;
            if && (f[0] as int) / 16 == 4 && f[9] == 17
               && (f[16..20] == c.address || f[16..20] == c.broadcast)
               && 256 * (f[u + 2] as int) + f[u + 3] as int == c.port
            then
              && |out| == |f| - u - 8
              && forall j :: 0 <= j < |out| ==> out[j].data == f[u + 8 + j] && (out[j].last <==> j == |out| - 1)
            else out == []
  {
    hide Settled, Run, Carries, Known, Counted;
    PacketYieldsPayload(c, h, inputs, f);
    SettledIsWellFormed(h.hw);
  }

  lemma SettledIsWellFormed(s: Regs)
    requires Settled(s)
    ensures WellFormed(s)
  {
  }

  predicate Packets(chunks: seq<seq<Input>>, fs: seq<seq<Byte>>) {
    |chunks| == |fs| && forall i :: 0 <= i < |fs| ==> Complete(fs[i]) && Carries(chunks[i], fs[i])
  }

  function ExpectedOf(c: Settings, fs: seq<seq<Byte>>): seq<Word>
    requires forall i :: 0 <= i < |fs| ==> Complete(fs[i])
  {
    if fs == [] then [] else Expected(c, fs[0]) + ExpectedOf(c, fs[1..])
  }

  lemma {:induction false} RunAppend(c: Settings, h: History, a: seq<Input>, b: seq<Input>)
    requires WellFormed(h.hw)
    ensures Run(c, h, a + b) == Run(c, Run(c, h, a), b)
    decreases |a|
  {
    hide Observe;
    if a == [] {
      assert a + b == b;
    } else {
      assert (a + b)[1..] == a[1..] + b;
      RunAppend(c, Observe(c, h, a[0]), a[1..], b);
    }
  }

  lemma FirstPacket(c: Settings, chunks: seq<seq<Input>>, fs: seq<seq<Byte>>)
    requires Packets(chunks, fs) && fs != []
    ensures |chunks| == |fs| && Complete(fs[0]) && Carries(chunks[0], fs[0]) && Packets(chunks[1..], fs[1..])
    ensures forall i :: 0 <= i < |fs| ==> Complete(fs[i])
    ensures Flatten(chunks) == chunks[0] + Flatten(chunks[1..])
    ensures ExpectedOf(c, fs) == Expected(c, fs[0]) + ExpectedOf(c, fs[1..])
  {
    hide Complete, Carries, Expected;
  }

  /** Any sequence of packets, with any gaps inside and between them or none at all, yields exactly their payloads. */
  lemma {:induction false} PacketsYieldPayloads(c: Settings, h: History, chunks: seq<seq<Input>>, fs: seq<seq<Byte>>)
    requires Settled(h.hw) && Packets(chunks, fs)
    ensures var h' := Run(c, h, Flatten(chunks)); Settled(h'.hw) && Known(h') == Known(h) + ExpectedOf(c, fs)
    decreases |fs|
  {
    SettledIsWellFormed(h.hw);
    if fs != [] {
      hide *;
      FirstPacket(c, chunks, fs);
      PacketYieldsPayload(c, h, chunks[0], fs[0]);
      RunAppend(c, h, chunks[0], Flatten(chunks[1..]));
      PacketsYieldPayloads(c, Run(c, h, chunks[0]), chunks[1..], fs[1..]);
      Associative(Known(h), Expected(c, fs[0]), ExpectedOf(c, fs[1..]));
    } else {
      hide Known;
      assert Known(h) + [] == Known(h);
    }
  }

  /** The length field of the UDP header is not looked at: bytes behind the datagram, such as the padding of a short
      Ethernet frame, are delivered as payload. */
  lemma PaddingIsDelivered(c: Settings, h: History, inputs: seq<Input>, f: seq<Byte>, padding: seq<Byte>)
    requires Settled(h.hw) && Complete(f) && Accepted(c, f) && Carries(inputs, f + padding)
    ensures var h' := Run(c, h, inputs);
            Settled(h'.hw) && Known(h') == Known(h) + PacketWords(f[UdpStart(f) + 8..] + padding)
  {
    hide Settled, Run, Carries, Known, Accepted, Expected, Counted;
    PaddingIsPayload(c, f, padding);
    PacketYieldsPayload(c, h, inputs, f + padding);
  }

  lemma PaddingIsPayload(c: Settings, f: seq<Byte>, padding: seq<Byte>)
    requires Complete(f) && Accepted(c, f)
    ensures Complete(f + padding) && Expected(c, f + padding) == PacketWords(f[UdpStart(f) + 8..] + padding)
  {
    var g, u := f + padding, UdpStart(f);
    assert g[0] == f[0] && g[9] == f[9] && g[u + 2] == f[u + 2] && g[u + 3] == f[u + 3];
    assert g[16..20] == f[16..20];
    assert g[u + 8..] == f[u + 8..] + padding;
  }

  // ---------------------------------------------------------------- the clocked entity

  class Deframer {
    const settings: Settings
    var deframerState: State
    var dstIpAddressRx: Ip
    var portHigh: Byte
    var portLow: Byte
    var wordsRemaining: nat
    var deframedValid: bool
    var deframed: Word
    var validPackets: Word16
    var droppedPackets: Word16
    var dropMask: seq<bool>

    function Registers(): Regs
      reads this
    {
      Regs(deframerState, dstIpAddressRx, portHigh, portLow, wordsRemaining, deframedValid, deframed,
           validPackets, droppedPackets, dropMask)
    }

    constructor (settings: Settings)
      ensures Settled(Registers()) && Shown(Registers()) == [] && this.settings == settings
    {
      this.settings := settings;
      deframerState, dstIpAddressRx, portHigh, portLow, wordsRemaining := Idle, [0, 0, 0, 0], 0, 0, 0;
      deframedValid, deframed, validPackets, droppedPackets, dropMask := false, NO_WORD, 0, 0, [false, false, false, false];
    }

    /** The address shift register and the port register. */
    method CaptureProcess(state: State, b: Byte)
      modifies this`dstIpAddressRx, this`portHigh, this`portLow
      ensures dstIpAddressRx == if state.Header? && state.k >= 16 then old(dstIpAddressRx)[1..] + [b] else old(dstIpAddressRx)
      ensures portHigh == if state == Udp(2) then b else old(portHigh)
      ensures portLow == if state == Udp(3) then b else old(portLow)
    {
      if state.Header? && state.k >= 16 {
        dstIpAddressRx := dstIpAddressRx[1..] + [b];
      }
      if state == Udp(2) {
        portHigh := b;
      } else if state == Udp(3) {
        portLow := b;
      }
    }

    /** The state machine, for a byte that arrives. */
    method StateProcess(b: Byte, last: bool)
      requires WellFormed(Registers())
      modifies this`deframerState, this`wordsRemaining, this`deframedValid, this`deframed, this`validPackets,
               this`droppedPackets, this`dropMask
      ensures var s, s' := old(Registers()), Step(settings, old(Registers()), Arrival(b, last));
              Registers() == s'.(dstIp := s.dstIp, portHigh := s.portHigh, portLow := s.portLow)
    {
      if deframerState == Idle || deframerState.Header? || deframerState == Options {
        IpProcess(b, last);
      } else {
        UdpProcess(b, last);
      }
    }

    /** The states of the IP header. */
    method IpProcess(b: Byte, last: bool)
      requires WellFormed(Registers()) && (deframerState == Idle || deframerState.Header? || deframerState == Options)
      modifies this`deframerState, this`wordsRemaining, this`deframedValid, this`deframed, this`dropMask
      ensures var s, s' := old(Registers()), Step(settings, old(Registers()), Arrival(b, last));
              Registers() == s'.(dstIp := s.dstIp, portHigh := s.portHigh, portLow := s.portLow)
    {
      hide AddressOk, PortOk;
      deframedValid, deframed := false, NO_WORD;
      match deframerState {
        case Idle =>
          if (b as int) / 16 == 4 {
            deframerState := Header(1);
            wordsRemaining := ((b as int) % 16 * 4 + 44) % 64;
          } else {
            deframerState := Discard;
            dropMask := dropMask[0 := true];
          }
        case Header(k) =>
          if k == 9 && b != 0x11 {
            deframerState := Discard;
            dropMask := dropMask[1 := true];
          } else if k == 19 {
            deframerState := Options;
            if wordsRemaining == 0 {
              deframerState := Udp(0);
            }
          } else {
            deframerState := Header(k + 1);
          }
        case Options =>
          if wordsRemaining == 1 {
            deframerState := Udp(0);
          }
          wordsRemaining := (wordsRemaining + 63) % 64;
      }
    }

    /** The states of the UDP header and behind it. */
    method UdpProcess(b: Byte, last: bool)
      requires WellFormed(Registers()) && (deframerState.Udp? || deframerState == Payload || deframerState == Discard)
      modifies this`deframerState, this`deframedValid, this`deframed, this`validPackets, this`droppedPackets, this`dropMask
      ensures var s, s' := old(Registers()), Step(settings, old(Registers()), Arrival(b, last));
              Registers() == s'.(dstIp := s.dstIp, portHigh := s.portHigh, portLow := s.portLow)
    {
      hide AddressOk, PortOk;
      deframedValid, deframed := false, NO_WORD;
      match deframerState {
        case Udp(k) =>
          if k == 0 && !AddressOk(settings, dstIpAddressRx) {
            deframerState := Discard;
            dropMask := dropMask[2 := true];
          } else if k == 4 && !PortOk(settings, portHigh, portLow) {
            deframerState := Discard;
            dropMask := dropMask[3 := true];
          } else if k == 7 {
            deframerState := if last then Idle else Payload;
          } else {
            deframerState := Udp(k + 1);
          }
        case Payload =>
          deframedValid, deframed := true, Word(b, last);
          if last {
            deframerState := Idle;
            validPackets := (validPackets + 1) % 0x10000;
          }
        case Discard =>
          if last {
            deframerState := Idle;
            droppedPackets := (droppedPackets + 1) % 0x10000;
          }
      }
    }

    method Clock(i: Input)
      requires WellFormed(Registers())
      modifies this
      ensures Registers() == Step(settings, old(Registers()), i)
    {
      hide NextState, NextMask, ExtraBytes;
      match i {
        case Pause =>
          deframedValid, deframed := false, NO_WORD;
        case Arrival(b, last) =>
          var state := deframerState;
          StateProcess(b, last);
          CaptureProcess(state, b);
      }
    }
  }
}
