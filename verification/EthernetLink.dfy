/** Framer and deframer back to back: deframing inverts framing. */
module EthernetLink {
  import opened BitVectors
  import opened ByteStream
  import opened EthernetFcs
  import Framer = EthernetFramer
  import Deframer = EthernetDeframer

  /** The words of a frame arrive, and at least one idle cycle after them. */
  predicate Arrives(inputs: seq<Input>, words: seq<Word>) {
    Received(inputs, words) && inputs != [] && inputs[|inputs| - 1] == Pause
  }

  function Bytes(p: Framer.Packet, source: Mac): seq<Byte> {
    Framer.Body(p, source) + Fcs(Crc(INIT, Framer.Body(p, source)))
  }

  lemma FrameMarksBytes(p: Framer.Packet, source: Mac)
    ensures Marks(Framer.Frame(p, source), Bytes(p, source))
  {
    hide Crc, Fcs, Framer.Body;
  }

  /** What the deframer should deliver for a framed packet: its payload, end marked, check sequence good. */
  function Payload(c: Deframer.Settings, p: Framer.Packet, source: Mac): seq<Deframer.Out>
    requires p.payload != []
  {
    var n := |p.payload| - 1;
    if !p.arp && Deframer.ForStation(c, p.dest, source)
    then Deframer.Unmarked(p.payload[..n]) + [Deframer.Out(p.payload[n], true, false)]
    else []
  }

  function Payloads(c: Deframer.Settings, ps: seq<Framer.Packet>, source: Mac): seq<Deframer.Out>
    requires forall i :: 0 <= i < |ps| ==> ps[i].payload != []
  {
    if ps == [] then [] else Payload(c, ps[0], source) + Payloads(c, ps[1..], source)
  }

  lemma BytesLayout(p: Framer.Packet, source: Mac)
    requires p.payload != []
    ensures var f := Bytes(p, source);
            && Deframer.Complete(f) && |f| == |p.payload| + 18
            && f[..6] == p.dest && f[6..12] == source && f[12] == 0x08 && f[13] == (if p.arp then 0x06 else 0x00)
            && f[14..|f| - 5] == p.payload[..|p.payload| - 1] && f[|f| - 5] == p.payload[|p.payload| - 1]
            && f[|f| - 4..] == Fcs(Crc(INIT, f[..|f| - 4]))
  {
    hide Crc, Fcs;
    var f := Bytes(p, source);
    assert f[..|f| - 4] == Framer.Body(p, source);
  }

  lemma ExpectedIsPayload(c: Deframer.Settings, p: Framer.Packet, source: Mac)
    requires p.payload != []
    ensures Deframer.Complete(Bytes(p, source)) && Deframer.Expected(c, Bytes(p, source)) == Payload(c, p, source)
  {
    BytesLayout(p, source);
    hide Crc, Fcs, Bytes, Deframer.ForStation;
    assert Bytes(p, source)[12..14] == [Bytes(p, source)[12], Bytes(p, source)[13]];
  }

  function AllBytes(ps: seq<Framer.Packet>, source: Mac): seq<seq<Byte>> {
    if ps == [] then [] else [Bytes(ps[0], source)] + AllBytes(ps[1..], source)
  }

  /** The words of each packet arrive in a chunk of their own. */
  predicate AllArrive(chunks: seq<seq<Input>>, ps: seq<Framer.Packet>, source: Mac) {
    |chunks| == |ps|
    && forall i :: 0 <= i < |ps| ==> ps[i].payload != [] && Arrives(chunks[i], Framer.Frame(ps[i], source))
  }

  lemma ArrivesIsChunk(inputs: seq<Input>, p: Framer.Packet, source: Mac)
    requires Arrives(inputs, Framer.Frame(p, source))
    ensures Deframer.Chunk(inputs, Bytes(p, source))
  {
    FrameMarksBytes(p, source);
    ReceivedCarries(inputs, Framer.Frame(p, source), Bytes(p, source));
  }

  lemma {:induction false} ArrivalsAreChunks(c: Deframer.Settings, source: Mac, chunks: seq<seq<Input>>,
                                             ps: seq<Framer.Packet>)
    requires AllArrive(chunks, ps, source)
    ensures Deframer.Chunks(chunks, AllBytes(ps, source))
    ensures Deframer.ExpectedOf(c, AllBytes(ps, source)) == Payloads(c, ps, source)
    decreases |ps|
  {
    hide Arrives, Bytes, Payload, Framer.Frame, Deframer.Expected, Deframer.Chunk;
    if ps != [] {
      ExpectedIsPayload(c, ps[0], source);
      ArrivesIsChunk(chunks[0], ps[0], source);
      ArrivalsAreChunks(c, source, chunks[1..], ps[1..]);
      assert AllBytes(ps, source)[1..] == AllBytes(ps[1..], source);
    }
  }

  /** Deframing inverts framing: for any packets, each framed, received with any gaps inside and at least one idle
      cycle behind it, the deframer delivers exactly the payloads of the IPv4 packets for this station, each with only
      its last byte marked, none flagged, and nothing of any header, check sequence or other packet. */
  lemma DeframingInvertsFraming(c: Deframer.Settings, source: Mac, h: Deframer.History,
                                chunks: seq<seq<Input>>, ps: seq<Framer.Packet>)
    requires Deframer.Settled(h.hw) && AllArrive(chunks, ps, source)
    ensures var h' := Deframer.Run(c, h, Flatten(chunks));
            Deframer.Settled(h'.hw) && h'.emitted == h.emitted + Payloads(c, ps, source)
  {
    ArrivalsAreChunks(c, source, chunks, ps);
    Deframer.FramesYieldPayloads(c, h, chunks, AllBytes(ps, source));
  }
}
