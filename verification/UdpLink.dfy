/** UDP framer and deframer back to back, alone and through the Ethernet blocks: payloads come out as they went in. */
module UdpLink {
  import opened BitVectors
  import opened ByteStream
  import opened HeaderChecksum
  import EthernetDeframer
  import EthernetFramer
  import EthernetLink
  import UdpDeframer
  import UdpFramer

  function AddressBytes(a: Address): Ip {
    [a / 0x1000000, a / 0x10000 % 0x100, a / 0x100 % 0x100, a % 0x100]
  }

  /** The deframer takes what the framer is set up to send. */
  predicate Reaches(c: UdpFramer.Settings, d: UdpDeframer.Settings) {
    (d.address == AddressBytes(c.dest) || d.broadcast == AddressBytes(c.dest)) && d.port == c.destPort
  }

  // ---------------------------------------------------------------- headers with options

  /** A packet with any IP header length: twenty bytes whose length nibble says how many option bytes follow, the UDP
      header, the payload. */
  predicate Layout(fixed: seq<Byte>, options: seq<Byte>, udp: seq<Byte>) {
    |fixed| == 20 && |udp| == 8 && fixed[0] as int == 0x45 + |options| / 4 && |options| % 4 == 0 && |options| <= 40
  }

  /** Options are skipped, whatever their number and contents; the filters look at the right bytes behind them. */
  lemma OptionsAreSkipped(d: UdpDeframer.Settings, fixed: seq<Byte>, options: seq<Byte>, udp: seq<Byte>, payload: seq<Byte>)
    requires Layout(fixed, options, udp)
    ensures var f := fixed + options + udp + payload;
            && UdpDeframer.Complete(f)
            && UdpDeframer.Expected(d, f)
               == if && fixed[9] == 0x11 && (fixed[16..20] == d.address || fixed[16..20] == d.broadcast)
                     && 0x100 * (udp[2] as int) + udp[3] as int == d.port
                  then PacketWords(payload) else []
  {
    var f := fixed + options + udp + payload;
    UdpDeframer.UdpStartIsHeaderLength(f);
    var u := 20 + |options|;
    assert UdpDeframer.UdpStart(f) == u;
    assert f[9] == fixed[9] && f[16..20] == fixed[16..20] && f[u + 2] == udp[2] && f[u + 3] == udp[3];
    assert f[u + 8..] == payload;
    hide PacketWords;
  }

  // ---------------------------------------------------------------- framer and deframer

  lemma SixteenBits(n: Word16)
    ensures n / 0x100 < 0x100 && (n / 0x100) * 0x100 + n % 0x100 == n
  {
  }

  /** A framed payload is complete, and yields the payload exactly if the deframer is set to its address and port. */
  lemma DatagramYieldsPayload(c: UdpFramer.Settings, d: UdpDeframer.Settings, p: seq<Byte>)
    requires |p| <= 2047
    ensures var f := UdpFramer.DatagramBytes(c, p);
            UdpDeframer.Complete(f) && UdpDeframer.Expected(d, f) == if Reaches(c, d) then PacketWords(p) else []
  {
    hide UdpDeframer.Expected, PacketWords, UdpDeframer.Complete, HeaderBytes, UdpFramer.UdpBytes, UdpFramer.DatagramBytes;
    var length := |p| + 28;
    var fixed := HeaderBytes(c.src, c.dest, length, Checksum(c.seed, length));
    var udp := UdpFramer.UdpBytes(c.sourcePort, c.destPort, |p| + 8);
    HeaderFacts(c, length, Checksum(c.seed, length), |p| + 8);
    UdpFramer.DatagramParts(c, p);
    assert fixed + [] + udp + p == UdpFramer.DatagramBytes(c, p) by {
      assert fixed + [] == fixed;
    }
    OptionsAreSkipped(d, fixed, [], udp, p);
  }

  /** What the deframer looks at in the headers of a datagram. */
  lemma HeaderFacts(c: UdpFramer.Settings, length: Word16, checksum: Word16, udpLength: Word16)
    ensures var fixed, udp := HeaderBytes(c.src, c.dest, length, checksum), UdpFramer.UdpBytes(c.sourcePort, c.destPort, udpLength);
            && fixed[0] == 0x45 && fixed[9] == 0x11 && fixed[16..20] == AddressBytes(c.dest)
            && 0x100 * (udp[2] as int) + udp[3] as int == c.destPort
  {
    SixteenBits(c.destPort);
  }

  lemma DatagramMarks(c: UdpFramer.Settings, p: seq<Byte>)
    requires |p| <= 2047
    ensures Marks(UdpFramer.Datagram(c, p), UdpFramer.DatagramBytes(c, p))
  {
  }

  lemma OneDatagram(c: UdpFramer.Settings, d: UdpDeframer.Settings, h: UdpDeframer.History, inputs: seq<Input>, p: seq<Byte>)
    requires UdpDeframer.Settled(h.hw) && Reaches(c, d) && |p| <= 2047 && Received(inputs, UdpFramer.Datagram(c, p))
    ensures var h' := UdpDeframer.Run(d, h, inputs);
            UdpDeframer.Settled(h'.hw) && UdpDeframer.Known(h') == UdpDeframer.Known(h) + PacketWords(p)
  {
    DatagramMarks(c, p);
    DatagramYieldsPayload(c, d, p);
    hide *;
    ReceivedCarries(inputs, UdpFramer.Datagram(c, p), UdpFramer.DatagramBytes(c, p));
    UdpDeframer.PacketYieldsPayload(d, h, inputs, UdpFramer.DatagramBytes(c, p));
  }

  /** Inputs that are two runs of words can be cut between them. */
  lemma {:induction false} ReceivedSplit(inputs: seq<Input>, a: seq<Word>, b: seq<Word>) returns (n: nat)
    requires Received(inputs, a + b)
    ensures n <= |inputs| && Received(inputs[..n], a) && Received(inputs[n..], b)
    decreases |inputs|
  {
    if a == [] {
      n := 0;
      assert inputs[..0] == [] && inputs[0..] == inputs && a + b == b;
    } else {
      assert inputs != [];
      var rest := if inputs[0].Pause? then a else a[1..];
      assert !inputs[0].Pause? ==> (a + b)[1..] == a[1..] + b;
      var m := ReceivedSplit(inputs[1..], rest, b);
      n := m + 1;
      assert inputs[..n][1..] == inputs[1..][..m] && inputs[n..] == inputs[1..][m..];
    }
  }

  /** Deframing inverts framing: datagrams that arrive with any gaps at a deframer set to the framer's destination address
      and port yield exactly the payloads, each with its last byte marked. */
  lemma {:induction false} DeframingInvertsFraming(c: UdpFramer.Settings, d: UdpDeframer.Settings, h: UdpDeframer.History,
                                                   inputs: seq<Input>, ps: seq<seq<Byte>>)
    requires UdpFramer.Sizes(ps) && UdpDeframer.Settled(h.hw) && Reaches(c, d)
    requires Received(inputs, UdpFramer.Datagrams(c, ps))
    ensures var h' := UdpDeframer.Run(d, h, inputs);
            UdpDeframer.Settled(h'.hw) && UdpDeframer.Known(h') == UdpDeframer.Known(h) + AllWords(ps)
    decreases |ps|
  {
    hide *;
    UdpDeframer.SettledIsWellFormed(h.hw);
    if ps == [] {
      NoDatagram(c, inputs);
      UdpDeframer.RunSettled(d, h, inputs);
      assert UdpDeframer.Known(h) + [] == UdpDeframer.Known(h);
    } else {
      LastDatagram(c, ps);
      var k := |ps| - 1;
      var n := ReceivedSplit(inputs, UdpFramer.Datagrams(c, ps[..k]), UdpFramer.Datagram(c, ps[k]));
      assert inputs == inputs[..n] + inputs[n..];
      UdpDeframer.RunAppend(d, h, inputs[..n], inputs[n..]);
      DeframingInvertsFraming(c, d, h, inputs[..n], ps[..k]);
      OneDatagram(c, d, UdpDeframer.Run(d, h, inputs[..n]), inputs[n..], ps[k]);
    }
  }

  lemma NoDatagram(c: UdpFramer.Settings, inputs: seq<Input>)
    requires Received(inputs, UdpFramer.Datagrams(c, []))
    ensures Carries(inputs, []) && AllWords([]) == []
  {
    ReceivedCarries(inputs, [], []);
  }

  lemma LastDatagram(c: UdpFramer.Settings, ps: seq<seq<Byte>>)
    requires UdpFramer.Sizes(ps) && ps != []
    ensures var k := |ps| - 1;
            && UdpFramer.Sizes(ps[..k]) && |ps[k]| <= 2047
            && UdpFramer.Datagrams(c, ps) == UdpFramer.Datagrams(c, ps[..k]) + UdpFramer.Datagram(c, ps[k])
            && AllWords(ps) == AllWords(ps[..k]) + PacketWords(ps[k])
  {
    hide UdpFramer.Datagram, PacketWords;
  }

  // ---------------------------------------------------------------- through the Ethernet blocks

  /** The Ethernet packets that carry the datagrams. */
  function Carriers(c: UdpFramer.Settings, station: Mac, ps: seq<seq<Byte>>): (es: seq<EthernetFramer.Packet>)
    requires UdpFramer.Sizes(ps)
    ensures |es| == |ps| && forall i :: 0 <= i < |es| ==> es[i].payload != []
  {
    seq(|ps|, i requires 0 <= i < |ps| => EthernetFramer.Packet(station, false, UdpFramer.DatagramBytes(c, ps[i])))
  }

  /** Words without the verdict of the check sequence. */
  function Stripped(outs: seq<EthernetDeframer.Out>): (w: seq<Word>)
    ensures |w| == |outs|
  {
    seq(|outs|, i requires 0 <= i < |outs| => Word(outs[i].data, outs[i].last))
  }

  predicate AllGood(outs: seq<EthernetDeframer.Out>) { forall i :: 0 <= i < |outs| ==> !outs[i].bad }

  lemma StrippedAppend(a: seq<EthernetDeframer.Out>, b: seq<EthernetDeframer.Out>)
    ensures Stripped(a + b) == Stripped(a) + Stripped(b)
  {
  }

  lemma CarrierYieldsDatagram(c: UdpFramer.Settings, e: EthernetDeframer.Settings, source: Mac, station: Mac, p: seq<Byte>)
    requires |p| <= 2047 && EthernetDeframer.ForStation(e, station, source)
    ensures var packet := EthernetFramer.Packet(station, false, UdpFramer.DatagramBytes(c, p));
            && AllGood(EthernetLink.Payload(e, packet, source))
            && Stripped(EthernetLink.Payload(e, packet, source)) == UdpFramer.Datagram(c, p)
  {
    hide UdpFramer.DatagramBytes, EthernetDeframer.ForStation;
  }

  /** The payloads of Ethernet packets, in the order of the packets. */
  lemma {:induction false} PayloadsExtend(e: EthernetDeframer.Settings, es: seq<EthernetFramer.Packet>, p: EthernetFramer.Packet,
                                          source: Mac)
    requires p.payload != [] && forall i :: 0 <= i < |es| ==> es[i].payload != []
    ensures EthernetLink.Payloads(e, es + [p], source)
            == EthernetLink.Payloads(e, es, source) + EthernetLink.Payload(e, p, source)
    decreases |es|
  {
    hide EthernetLink.Payload;
    if es == [] {
      assert (es + [p])[1..] == [];
    } else {
      assert (es + [p])[1..] == es[1..] + [p];
      PayloadsExtend(e, es[1..], p, source);
    }
  }

  lemma {:induction false} CarriersYieldDatagrams(c: UdpFramer.Settings, e: EthernetDeframer.Settings, source: Mac, station: Mac,
                                                  ps: seq<seq<Byte>>)
    requires UdpFramer.Sizes(ps)
    requires EthernetDeframer.ForStation(e, station, source)
    ensures var outs := EthernetLink.Payloads(e, Carriers(c, station, ps), source);
            AllGood(outs) && Stripped(outs) == UdpFramer.Datagrams(c, ps)
    decreases |ps|
  {
    if ps != [] {
      var k, es := |ps| - 1, Carriers(c, station, ps);
      LastDatagram(c, ps);
      LastCarrier(c, station, ps);
      hide *;
      CarrierYieldsDatagram(c, e, source, station, ps[k]);
      CarriersYieldDatagrams(c, e, source, station, ps[..k]);
      var front := Carriers(c, station, ps[..k]);
      PayloadsExtend(e, front, es[k], source);
      AppendGood(EthernetLink.Payloads(e, front, source), EthernetLink.Payload(e, es[k], source));
    }
  }

  lemma LastCarrier(c: UdpFramer.Settings, station: Mac, ps: seq<seq<Byte>>)
    requires UdpFramer.Sizes(ps) && ps != []
    ensures var k, es := |ps| - 1, Carriers(c, station, ps);
            && UdpFramer.Sizes(ps[..k]) && es == Carriers(c, station, ps[..k]) + [es[k]]
            && es[k] == EthernetFramer.Packet(station, false, UdpFramer.DatagramBytes(c, ps[k]))
  {
    hide UdpFramer.DatagramBytes;
  }

  lemma AppendGood(a: seq<EthernetDeframer.Out>, b: seq<EthernetDeframer.Out>)
    requires AllGood(a) && AllGood(b)
    ensures AllGood(a + b) && Stripped(a + b) == Stripped(a) + Stripped(b)
  {
    StrippedAppend(a, b);
  }

  /** Through both layers: payloads are framed as UDP datagrams, these as Ethernet frames for a station that accepts them;
      the frames arrive with any gaps and an idle cycle behind each, and what the Ethernet deframer delivers reaches the
      UDP deframer with any gaps. Then no frame is flagged, and the payloads come out exactly as they went in. */
  lemma PayloadsPassBothLayers(c: UdpFramer.Settings, d: UdpDeframer.Settings, e: EthernetDeframer.Settings, source: Mac,
                               station: Mac, ps: seq<seq<Byte>>, lower: EthernetDeframer.History, chunks: seq<seq<Input>>,
                               upper: UdpDeframer.History, inputs: seq<Input>)
    requires UdpFramer.Sizes(ps)
    requires Reaches(c, d) && EthernetDeframer.ForStation(e, station, source)
    requires EthernetDeframer.Settled(lower.hw) && lower.emitted == [] && UdpDeframer.Settled(upper.hw)
    requires EthernetLink.AllArrive(chunks, Carriers(c, station, ps), source)
    requires Received(inputs, Stripped(EthernetDeframer.Run(e, lower, Flatten(chunks)).emitted))
    ensures AllGood(EthernetDeframer.Run(e, lower, Flatten(chunks)).emitted)
    ensures UdpDeframer.Known(UdpDeframer.Run(d, upper, inputs)) == UdpDeframer.Known(upper) + AllWords(ps)
  {
    var es := Carriers(c, station, ps);
    hide EthernetDeframer.Settled, UdpDeframer.Settled, EthernetLink.AllArrive, Received, EthernetDeframer.Run, Stripped;
    EthernetLink.DeframingInvertsFraming(e, source, lower, chunks, es);
    CarriersYieldDatagrams(c, e, source, station, ps);
    assert lower.emitted + EthernetLink.Payloads(e, es, source) == EthernetLink.Payloads(e, es, source);
    DeframingInvertsFraming(c, d, upper, inputs, ps);
  }
}
