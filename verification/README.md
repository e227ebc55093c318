# Verified model of a clocked Ethernet/UDP stack

This project models the hardware of a small Ethernet/UDP stack (VHDL under `src/vhdl`) and the host code that prepares
and checks its data (C++ under `example/cpp`), and proves what the blocks promise over whole runs.

## How the hardware is modelled

Each entity's registers are a datatype. One clock edge is a function on that datatype, usually called `Step`, in which
every right-hand side reads the registers before the edge and combinational signals are functions of them. Beside it
stands a class with the registers as fields whose `Clock` method is written process by process, as the entity is, and is
proved to do exactly what the step function says. Ghost histories record what was accepted and what was delivered, and
the theorems are about `Run`, the fold of the step over an arbitrary list of inputs: every pattern of stalls, gaps and
requests, and for the two-clock blocks every interleaving of the edges, including both edges at once with every
changing pointer bit sampled old or new independently.

Most invariants are conservation laws: what was delivered, followed by what the registers hold, is what has to be
delivered for everything accepted so far. Prefix, order and completeness statements follow from them. What counts as
accepted is what the ports show: an offer in a cycle in which the block says that it takes it. That blocks do take what
they are offered is proved with senders that hold each word until it is taken: everything they have comes out within a
bound, under every pattern of stalls. Frames and datagrams are also given byte by byte, with the constants written out.

| file | models |
|---|---|
| `BitVectors.dfy`, `Wrapping.dfy`, `ByteStream.dfy`, `EndMarks.dfy`, `Options.dfy` | bit vectors, wrapping counters, byte streams, words with end marks and how many are marked, optional values |
| `GrayCode.dfy`, `AsyncFifo.dfy` | the asynchronous FIFO: Gray pointers, synchronisers, flags, RAM, fall-through stage |
| `WordTransfer.dfy` | the toggle handshake that carries a word between clocks |
| `SyncFifo.dfy`, `PacketAfifo.dfy`, `RxPacketBuffer.dfy` | single-clock FIFO, store-and-forward buffers |
| `EthernetFcs.dfy`, `EthernetFramer.dfy`, `EthernetDeframer.dfy`, `EthernetLink.dfy` | check sequence, framing, deframing, and the two composed |
| `ArpInserter.dfy` | insertion of ARP frames between data packets |
| `RmiiMac.dfy` | RMII transmitter and receiver, alone and wired together |
| `HeaderChecksum.dfy`, `UdpFramer.dfy`, `UdpSender.dfy`, `UdpDeframer.dfy`, `UdpLink.dfy` | IPv4 header checksum, UDP/IP framing, the framer with a sender, deframing, and the layers composed |
| `Prbs.dfy` | pseudo-random generator and verifier |

## What does not hold, and when it does

- The receive packet buffer can present a word of a packet that later turns out bad (`RxPacketBuffer.BadPacketLeaks`): a
  fetch caused by an earlier good packet loads the output register with the next packet's first word. Whether this happens
  can be read off the registers in the cycle in which the packet ends bad: the output is valid, and either no good packet
  is counted, or one is, its last word is presented in this cycle and the RAM is not empty, so that the fetch happens now
  (`RxPacketBuffer.LeaksIff`). In that case the next good packet makes the word come out; otherwise the packet leaves no
  trace (`RxPacketBuffer.TakenBackIff`). Over whole runs without overflow the words presented stay a prefix of the good
  packets, should a good packet arrive next, if and only if no packet ends bad in such a cycle
  (`RxPacketBuffer.PrefixIffNoLeak`).
- The packet FIFO's five-bit counter stops the gate, not the data: with a multiple of 32 packets stored the gate does not
  open (`PacketAfifo.GateOpensIff`). The stall can be reached from reset (`PacketAfifo.StallIsReached`), and it lasts until
  another packet ends (`PacketAfifo.StuckAt32`). Nothing is lost, the output still never runs dry inside a packet, and with
  1 to 31 packets stored the oldest comes out (`PacketAfifo.OldestComesOut`).
- The Ethernet deframer accepts gaps anywhere but needs one idle cycle between frames. Without it a valid frame is always
  flagged (`EthernetDeframer.BackToBackIsFlagged`), because the check-sequence reset swallows its first byte.
- The header checksum adder has no end-around carry. The framed header is valid exactly when seed plus total length stays
  within sixteen bits (`HeaderChecksum.ChecksumValidIff`), and there are addresses for which it is not
  (`HeaderChecksum.LostCarry`).
- The UDP deframer ignores the UDP length field, so bytes behind the datagram are delivered as payload
  (`UdpDeframer.PaddingIsDelivered`).
- A verifier locks for the first time only after at least the lock threshold of consecutive bits without an error
  (`Prbs.LocksOnlyAfterCleanBits`), but one that loses lock keeps its count of good bits and is locked again by the next
  word exactly when that word has no error (`Prbs.RelocksAtOnce`); this happens (`Prbs.LosesAndRegainsLock`).
- Errors that the verifier meets while it looks for lock stay in its count: a lock just found is lost again with the next
  word, even one without an error, unless fewer errors than the unlock threshold were counted before it
  (`Prbs.FreshLockLasts`).
- The comment on the transmitter's preamble constant speaks of dibits `10`; the code sends `01`, and the model follows
  the code.

## Model

| member | source | states |
|---|---|---|
| GrayCode.GrayInjective | src/vhdl/afifo/afifo_read_logic.vhd:39 | two counts with the same Gray code are the same count, so comparing Gray pointers for empty compares the counts |
| GrayCode.IncrementChangesOneBit | src/vhdl/afifo/afifo_write_logic.vhd:70-74 | for every width, incrementing a wrapping count changes exactly one bit of its Gray code |
| GrayCode.EverySampleOccurs | src/vhdl/afifo/grey_pointer_sync.vhd:30-43 | every mixture of old and new bits is among the samples |
| GrayCode.SampleIsOldOrNew | src/vhdl/afifo/grey_pointer_sync.vhd:30-43 | a sample of a moving pointer, each changing bit resolving either way, is the old or the new pointer |
| GrayCode.FullTestIsHalfApart | src/vhdl/afifo/afifo_write_logic.vhd:42-52 | top two bits different and the rest equal holds if and only if the counts are half the range apart |
| AsyncFifo.PointersEqual | src/vhdl/afifo/afifo_read_logic.vhd:39 | within one lap, equal pointers mean equal counts |
| AsyncFifo.PointersFull | src/vhdl/afifo/afifo_write_logic.vhd:42-52 | within one lap, the full test means a whole RAM apart |
| AsyncFifo.FallThroughStep | src/vhdl/afifo/fifo_fwft.vhd:36-92 | the three-slot stage is a queue: a read takes the oldest word, a fetched word goes behind the others, nothing overwrites |
| AsyncFifo.WriteSideStep | src/vhdl/afifo/afifo_write_logic.vhd:42-87 | the write side keeps its pointer, its delayed read pointers and a full flag that never understates the fill |
| AsyncFifo.ReadSideStep | src/vhdl/afifo/afifo_read_logic.vhd:39-75 | the read side keeps its pointer, its delayed write pointers and an empty flag that never overstates the fill |
| AsyncFifo.RamWriteStep | src/vhdl/ram/sdp_ram.vhd:32-39 | a write puts the word at its count and disturbs no word still to be read |
| AsyncFifo.InvStep | src/vhdl/afifo/afifo.vhd:67-184 | every write edge, read edge and simultaneous edge keeps the whole invariant |
| AsyncFifo.TakenIsPrefixOfAccepted | src/vhdl/afifo/afifo.vhd:67-184 | in every interleaving of the clocks the words taken while the output is valid are a prefix of those offered while the full flag is low, and at most RAM plus three slots are outstanding |
| AsyncFifo.FlagsAreSafe | src/vhdl/afifo/afifo_write_logic.vhd:42-87 | in every reachable state the fill is within the RAM, the synchronised read pointer lags by less than a lap and the synchronised write pointer is between the two counts, not full means a free slot, full means that a whole RAM has been written, not empty means the addressed slot holds the next word, and the ports never meet |
| AsyncFifo.ReaderDrainsEverything | src/vhdl/afifo/afifo_read_logic.vhd:39-75 | from any reachable state, whatever else the two clocks do, everything accepted by then has been taken once the reader has had one enabled edge for each word outstanding and five more |
| AsyncFifo.FirstWordFallsThrough | src/vhdl/afifo/fifo_fwft.vhd:47-92 | with a word outstanding, six read edges show one at the output without the read enable |
| AsyncFifo.FreeSlotIsSeen | src/vhdl/afifo/afifo_write_logic.vhd:54-87 | with a free slot and no write, the full flag is low after three write edges among any read edges |
| AsyncFifo.WriterGetsEveryWord | src/vhdl/afifo/afifo_write_logic.vhd:54-87 | from any reachable state a writer that holds the enable gets every word of any list accepted, in order and nothing else, once there was for each word a round of nine enabled read edges and four write edges among any others |
| AsyncFifo.PointerSync.Clock | src/vhdl/afifo/grey_pointer_sync.vhd:30-43 | the two flops shift |
| AsyncFifo.FallThrough.Clock | src/vhdl/afifo/fifo_fwft.vhd:47-92 | the fall-through process does what the specified step does |
| AsyncFifo.Fifo.WriteProcess | src/vhdl/afifo/afifo_write_logic.vhd:54-87 | everything the write clock drives, with RAM and synchroniser, is the specified write half and leaves the read side alone |
| AsyncFifo.Fifo.ReadProcess | src/vhdl/afifo/afifo_read_logic.vhd:41-75 | everything the read clock drives is the specified read half and leaves the write side and the RAM alone |
| AsyncFifo.Fifo.ClockWrite | src/vhdl/afifo/afifo.vhd:67-184 | a write edge of the object is the specified step |
| AsyncFifo.Fifo.ClockRead | src/vhdl/afifo/afifo.vhd:67-184 | a read edge of the object is the specified step |
| AsyncFifo.Fifo.ClockBoth | src/vhdl/afifo/afifo.vhd:67-184 | both edges together, with any resolution of the sampled pointer bits, are the specified step |
| WordTransfer.InvStep | src/vhdl/cdc/word_transfer.vhd:51-112 | every edge keeps: at most one toggle in flight, and one word owed exactly while the far flop lags |
| WordTransfer.ExactlyOnceInOrder | src/vhdl/cdc/word_transfer.vhd:51-112 | in every interleaving accepted words arrive once and in order, none is owed while ready, and busy is the difference from the last acknowledge flop |
| WordTransfer.StableWhenSampled | src/vhdl/cdc/word_transfer.vhd:88-98 | when side b samples the data register, side a cannot be changing it and it holds the word owed |
| WordTransfer.ReadyReturns | src/vhdl/cdc/word_transfer.vhd:51-83 | once both clocks have covered the flops still ahead of the toggle, side a has been ready again |
| WordTransfer.ReadyWithinThreeAndThree | src/vhdl/cdc/sync_pulse_gen.vhd:26-36 | three edges of clock b and then three of clock a always bring ready back |
| WordTransfer.SyncPulseGen.Clock | src/vhdl/cdc/sync_pulse_gen.vhd:26-36 | the three flops shift |
| WordTransfer.Transfer.ClockA | src/vhdl/cdc/word_transfer.vhd:54-70 | an edge of clock a is the specified step |
| WordTransfer.Transfer.ClockB | src/vhdl/cdc/word_transfer.vhd:88-98 | an edge of clock b is the specified step |
| WordTransfer.Transfer.ClockBoth | src/vhdl/cdc/word_transfer.vhd:51-112 | both edges together are the specified step |
| SyncFifo.RingStep | src/vhdl/fifo/fifo.vhd:59-93 | the ring loses its oldest word to a fetch and gains the written word unless full |
| SyncFifo.StepIsQueue | src/vhdl/fifo/fifo.vhd:59-112 | ring and output register together are a queue, full exactly when the ring holds one word less than its rows, and when the output is valid next is decided exactly |
| SyncFifo.Fifo.Clock | src/vhdl/fifo/fifo.vhd:59-112 | the three processes over the array do what the specified step does |
| PacketAfifo.StepConserves | src/vhdl/ethernet/packet_afifo/skid_buffer_single.vhd:39-68 | what leaves, what is stored and what the skid buffer holds follow the input in order |
| PacketAfifo.StepKeepsInv | src/vhdl/ethernet/packet_afifo/packet_afifo.vhd:147-189 | the counter is the number of stored end words modulo 32, and an open gate has a valid word and an end word behind it |
| PacketAfifo.ValidUntilLast | src/vhdl/ethernet/packet_afifo/packet_afifo.vhd:164-189 | once valid the output stays valid until the end word has left, and an untaken word does not change |
| PacketAfifo.GateOpensIff | src/vhdl/ethernet/packet_afifo/packet_afifo.vhd:164-185 | a closed gate opens if and only if the number of stored packets is not a multiple of 32 |
| PacketAfifo.StuckAt32 | src/vhdl/ethernet/packet_afifo/packet_afifo.vhd:147-185 | exactly 32 stored packets behind a closed gate: in every run in which no further packet ends, nothing leaves and the gate stays closed |
| PacketAfifo.StallIsReached | src/vhdl/ethernet/packet_afifo/packet_afifo.vhd:147-189 | that stall is reached from reset: 33 one-word packets while the receiver is not ready, then one ready cycle, for every depth of 64 or more |
| PacketAfifo.OldestComesOut | src/vhdl/ethernet/packet_afifo/packet_afifo.vhd:164-189 | with 1 to 31 packets stored, the oldest leaves first and whole once there were one more ready cycles than it has words, whatever arrives meanwhile |
| PacketAfifo.LeavesInWriteOrder | src/vhdl/ethernet/packet_afifo/packet_afifo.vhd:108-189 | across both clock domains words leave in the order accepted at the write port; what has left, what is stored and what the skid buffer holds are the words taken from the asynchronous FIFO, and no more than its RAM and three words are still in it |
| PacketAfifo.NeverDryInsidePacket | src/vhdl/ethernet/packet_afifo/packet_afifo.vhd:108-189 | in every reachable state of the whole chain the output does not drop inside a packet, and the counter is exact below 32 |
| PacketAfifo.ReadDomain.Clock | src/vhdl/ethernet/packet_afifo/packet_afifo.vhd:108-189 | skid buffer, FIFO, counter and gate clocked together do what the specified step does |
| RxPacketBuffer.InvStep | src/vhdl/ethernet/rx_packet_buffer/rx_packet_buffer.vhd:108-208 | without overflow, unless a packet ends bad after one of its words was fetched, every cycle keeps pointers, RAM contents and packet count in step with the stream of good words |
| RxPacketBuffer.DeliversGoodPackets | src/vhdl/ethernet/rx_packet_buffer/rx_packet_buffer.vhd:108-208 | without overflow and without a leak, the words presented are a prefix of the good packets, and the counter is the good end words not yet presented |
| RxPacketBuffer.TakenBackIff | src/vhdl/ethernet/rx_packet_buffer/rx_packet_buffer.vhd:115-143 | when a packet ends bad: unless the registers show a leak in that cycle, the buffer is as if the packet had never come and what is presented stays a prefix of the good packets; if they show one, the next good packet, whatever its word, makes a word of the bad one come out |
| RxPacketBuffer.LeaksIff | src/vhdl/ethernet/rx_packet_buffer/rx_packet_buffer.vhd:152-208 | none of the bad packet's words has been fetched, or is being fetched, if and only if the registers show no leak: a valid output with no packet counted, or with one counted whose last word is presented while the RAM is not empty |
| RxPacketBuffer.PrefixIffNoLeak | src/vhdl/ethernet/rx_packet_buffer/rx_packet_buffer.vhd:108-208 | over whole runs without overflow, at every moment the next good packet leaves the words presented a prefix of the good packets, if and only if no packet ends bad in a cycle in which the registers show a leak |
| RxPacketBuffer.PrefetchShows | src/vhdl/ethernet/rx_packet_buffer/rx_packet_buffer.vhd:167-204 | before a cycle, a word of an unfinished packet has been fetched if and only if the output is valid while no good packet is counted |
| RxPacketBuffer.PrefetchIsOneWord | src/vhdl/ethernet/rx_packet_buffer/rx_packet_buffer.vhd:152-180 | the read side is never more than one word ahead of the good packets |
| RxPacketBuffer.BadPacketLeaks | src/vhdl/ethernet/rx_packet_buffer/rx_packet_buffer.vhd:115-180 | a concrete run without overflow in which a word of a bad packet is presented |
| RxPacketBuffer.IdleDrains | src/vhdl/ethernet/rx_packet_buffer/rx_packet_buffer.vhd:152-204 | all good packets come out within a bound of idle cycles |
| RxPacketBuffer.Buffer.Clock | src/vhdl/ethernet/rx_packet_buffer/rx_packet_buffer.vhd:115-204 | the processes over the array do what the specified step does |
| EthernetFcs.ParallelIsShift | src/vhdl/ethernet/fcs/ethernet_fcs.vhd:51-88 | the unrolled byte update is eight steps of the shift register with the data added at the top |
| EthernetFcs.CrcIsSerial | src/vhdl/ethernet/fcs/ethernet_fcs.vhd:51-94 | on every byte string the byte-parallel function gives the register of the bit-serial register with polynomial 04C11DB7 |
| EthernetFcs.RegisterOfA | src/vhdl/ethernet/fcs/ethernet_fcs.vhd:51-94 | the register of the one-byte string "a" is the one behind its CRC-32 E8B7BE43, which fixes initial value, polynomial and bit order |
| EthernetFcs.ResidueIffFcs | src/vhdl/ethernet/fcs/ethernet_fcs.vhd:94-123 | the register ends at C704DD7B if and only if the last four bytes are the check sequence of the bytes before them |
| EthernetFcs.EmittedIsFcs | src/vhdl/ethernet/fcs/ethernet_fcs.vhd:99-121 | the output register shows the four check-sequence bytes in turn |
| EthernetFcs.ShiftedOutIsInit | src/vhdl/ethernet/fcs/ethernet_fcs.vhd:99-121 | shifting out four bytes leaves the register at its initial value |
| EthernetFcs.FourBytesInjective | src/vhdl/ethernet/fcs/ethernet_fcs.vhd:51-88 | from one register different four-byte strings never meet |
| EthernetFcs.SuffixInjective | src/vhdl/ethernet/fcs/ethernet_fcs.vhd:51-88 | no common suffix hides a difference between registers |
| EthernetFcs.WindowDetected | src/vhdl/ethernet/fcs/ethernet_fcs.vhd:51-88 | strings that differ only inside a window of four bytes never reach the same register |
| EthernetFcs.CorruptedFrameRejected | src/vhdl/ethernet/fcs/ethernet_fcs.vhd:51-123 | a valid frame corrupted inside such a window fails the residue test |
| EthernetFcs.FirstByteMatters | src/vhdl/ethernet/fcs/ethernet_fcs.vhd:51-88 | no first byte leaves the initial register unchanged |
| EthernetFcs.Generator.Clock | src/vhdl/ethernet/fcs/ethernet_fcs.vhd:94-121 | reset, calculation and shifting out as specified, reset taking precedence |
| EthernetFcs.Generator.Verifies | src/vhdl/ethernet/fcs/ethernet_fcs.vhd:123 | for any split of the bytes absorbed into a string and four more, the verdict is true if and only if the four are the check sequence of the string; the deframer's output process asks it |
| EthernetFramer.InvStep | src/vhdl/ethernet/ethernet_framer.vhd:109-318 | every cycle keeps the two state machines in step, the check-sequence register at the bytes passed, and everything accepted accounted for |
| EthernetFramer.SpecGrows | src/vhdl/ethernet/ethernet_framer.vhd:118-212 | a start adds a header, an accepted byte adds itself, the last one adds the check sequence of the whole body |
| EthernetFramer.CrcStep | src/vhdl/ethernet/ethernet_framer.vhd:240-318 | the check-sequence register never misses or repeats a byte, whatever stalls |
| EthernetFramer.DeliversFrames | src/vhdl/ethernet/ethernet_framer.vhd:109-318 | for every pattern of stalls and gaps the output is, per packet, header, payload and check sequence with only the last byte marked, short of at most sixteen words in the pipeline |
| EthernetFramer.Drains | src/vhdl/ethernet/ethernet_framer.vhd:258-318 | ready cycles bring the rest out within a bound |
| EthernetFramer.FrameByPosition | src/vhdl/ethernet/ethernet_framer.vhd:118-212 | a frame byte by byte: destination, source, 08 and 06 or 00, payload, and four bytes that bring the register to the residue, only the last one marked |
| EthernetFramer.OffersAreFramed | src/vhdl/ethernet/ethernet_framer.vhd:109-318 | all packets of a sender that holds each byte until it is taken are delivered as frames under any pattern of stalls, once there were as many ready cycles as their bytes, 19 for each packet and two |
| EthernetFramer.OffersByPosition | src/vhdl/ethernet/ethernet_framer.vhd:109-318 | what such a sender gets delivered, byte by byte |
| EthernetFramer.ShownWithoutReady | src/vhdl/ethernet/ethernet_framer.vhd:258-318 | a held offer raises the output valid within three cycles although ready stays low, and it stays |
| EthernetFramer.Framer.HeaderProcess | src/vhdl/ethernet/ethernet_framer.vhd:109-232 | the header process does what the specified state and data functions say |
| EthernetFramer.Framer.AppendProcess | src/vhdl/ethernet/ethernet_framer.vhd:265-318 | the check-sequence process does what is specified |
| EthernetFramer.Framer.Clock | src/vhdl/ethernet/ethernet_framer.vhd:109-318 | both processes and the check-sequence block together are the specified step |
| EthernetDeframer.DelayLineStep | src/vhdl/ethernet/ethernet_deframer/circular_buffer.vhd:54-99 | the ring holds the last four bytes pushed, giving up the oldest when full |
| EthernetDeframer.StateStep | src/vhdl/ethernet/ethernet_deframer/ethernet_deframer.vhd:183-258 | the state machine follows the header, discarding at the byte where a check fails |
| EthernetDeframer.FrameYieldsPayload | src/vhdl/ethernet/ethernet_deframer/ethernet_deframer.vhd:111-321 | one frame with any gaps and an idle cycle behind it yields its payload, the last byte marked and flagged if and only if the check sequence is wrong, or nothing if it is not for this station |
| EthernetDeframer.FrameByPosition | src/vhdl/ethernet/ethernet_deframer/ethernet_deframer.vhd:111-321 | the same byte by byte: payload, end mark and verdict if and only if bytes 0 to 5 are the own address or six FF, the source filter is off or bytes 6 to 11 are the peer address or six FF, and bytes 12 and 13 are 08 00; otherwise nothing |
| EthernetDeframer.ForStationIff | src/vhdl/ethernet/ethernet_deframer/ethernet_deframer.vhd:139-140 | the comparisons of the address registers accept exactly these addresses |
| EthernetDeframer.FramesYieldPayloads | src/vhdl/ethernet/ethernet_deframer/ethernet_deframer.vhd:111-321 | any sequence of frames yields exactly their payloads |
| EthernetDeframer.FramesAreCounted | src/vhdl/ethernet/ethernet_deframer/ethernet_deframer.vhd:173-271 | the counter of dropped frames goes up by the number of frames not for this station, modulo 2^16 |
| EthernetDeframer.BackToBackIsFlagged | src/vhdl/ethernet/ethernet_deframer/ethernet_deframer.vhd:148-161 | a valid frame right behind another is always flagged |
| EthernetDeframer.CircularBuffer.Clock | src/vhdl/ethernet/ethernet_deframer/circular_buffer.vhd:54-99 | the two processes over the array do what the specified ring step does |
| EthernetDeframer.Deframer.AddressProcess | src/vhdl/ethernet/ethernet_deframer/ethernet_deframer.vhd:111-137 | each address register shifts in exactly the bytes of its field |
| EthernetDeframer.Deframer.StateProcess | src/vhdl/ethernet/ethernet_deframer/ethernet_deframer.vhd:173-271 | the state process does what the specified functions say |
| EthernetDeframer.Deframer.Clock | src/vhdl/ethernet/ethernet_deframer/ethernet_deframer.vhd:111-321 | all processes together are the specified step, and the output registers take what is specified to be emitted |
| EthernetLink.DeframingInvertsFraming | src/vhdl/ethernet/ethernet_deframer/ethernet_deframer.vhd:111-321 | for any packets framed and received with any gaps and an idle cycle behind each, the deframer delivers exactly the IPv4 payloads for this station, none flagged |
| ArpInserter.GuardedStep | src/vhdl/arp/arp.vhd:289-305 | an open data packet is always known to the flag, so no ARP frame starts inside one |
| ArpInserter.NextByte | src/vhdl/arp/arp.vhd:351-494 | each state sends the byte of the RFC 826 message, or the padding, that belongs at its position |
| ArpInserter.FrameByPosition | src/vhdl/arp/arp.vhd:351-494 | a frame byte by byte: 0001 0800 06 04, operation 2 exactly for a reply, sender, target, nineteen zeros, all marked as ARP and only the last as the end |
| ArpInserter.InvStep | src/vhdl/arp/arp.vhd:311-533 | every cycle accounts for all accepted words and all started frames |
| ArpInserter.PacketsStayWhole | src/vhdl/arp/arp.vhd:289-533 | for all stalls and request timings the output is whole data packets and complete ARP frames in order, then words of one open packet, and the data words are exactly the accepted ones |
| ArpInserter.DataStaysInOrder | src/vhdl/arp/arp.vhd:311-533 | at every moment the data words delivered are a prefix of the accepted ones |
| ArpInserter.Drains | src/vhdl/arp/arp.vhd:313-533 | a started frame is finished and everything comes out |
| ArpInserter.OffersGetThrough | src/vhdl/arp/arp.vhd:311-533 | all words of a sender that holds each word until it is taken are delivered in order, whatever the stalls and requests, once there were as many ready cycles as words, 48 for each packet and two |
| ArpInserter.ReplyIsStarted | src/vhdl/arp/arp.vhd:289-349 | a held request has its reply started once there were as many ready cycles as words left of a frame under way and of the packet being sent |
| ArpInserter.ReplyIsReported | src/vhdl/arp/arp.vhd:330-349 | the receive side is told of a reply if and only if its frame has just been queued |
| ArpInserter.ShownWithoutReady | src/vhdl/arp/arp.vhd:313-533 | held offers raise the output valid within two cycles although ready stays low |
| ArpInserter.Inserter.IdleProcess | src/vhdl/arp/arp.vhd:330-349 | the idle state passes the word and starts a reply before an announcement |
| ArpInserter.Inserter.FrameProcess | src/vhdl/arp/arp.vhd:351-494 | every other state does what the specified functions say |
| ArpInserter.Inserter.Clock | src/vhdl/arp/arp.vhd:289-533 | flag, state machine and output register together are the specified step |
| RmiiMac.NextSymbol | src/vhdl/ethernet/rmii/rmii_mac_tx.vhd:78-115 | the transmitter's next symbol is the next one of preamble, delimiter and packet |
| RmiiMac.TransmitsFrames | src/vhdl/ethernet/rmii/rmii_mac_tx.vhd:58-133 | for any packets and offers the line is the frames in order, at least 58 silent cycles between them, and no packet is lost |
| RmiiMac.SendsEverything | src/vhdl/ethernet/rmii/rmii_mac_tx.vhd:58-133 | offered packets are all sent within a bound fixed by their lengths |
| RmiiMac.AlignedStep | src/vhdl/ethernet/rmii/rmii_mac_rx.vhd:65-154 | the dibit counter stays aligned to byte boundaries from the first preamble dibit, and data begins exactly behind the delimiter |
| RmiiMac.LineIsReceived | src/vhdl/ethernet/rmii/rmii_mac_rx.vhd:65-175 | non-empty packets on a line with two or more silent cycles between frames are received exactly, the last word marked |
| RmiiMac.LinkRecoversPackets | src/vhdl/ethernet/rmii/rmii_mac_rx.vhd:65-175 | transmitter wired to receiver: in every run the words received are a prefix of the packets' words, and complete whenever the transmitter is idle |
| RmiiMac.EverythingArrives | src/vhdl/ethernet/rmii/rmii_mac_tx.vhd:58-133 | every packet offered arrives, exactly and in order |
| RmiiMac.Transmitter.Clock | src/vhdl/ethernet/rmii/rmii_mac_tx.vhd:58-133 | the process does what the specified step does |
| RmiiMac.Receiver.StripProcess | src/vhdl/ethernet/rmii/rmii_mac_rx.vhd:119-175 | delimiter search and output register as specified |
| RmiiMac.Receiver.Clock | src/vhdl/ethernet/rmii/rmii_mac_rx.vhd:65-175 | all processes together are the specified step |
| HeaderChecksum.CalculateChecksumSeed | example/cpp/udp_framer_comp.cpp:83-137 | the host loops stay within sixteen bits and compute the folded sum of the header without length and checksum |
| HeaderChecksum.SumIsRfcSum | example/cpp/udp_framer_comp.cpp:123-136 | folding every carry at once is the one's-complement sum of section 1 of RFC 1071 |
| HeaderChecksum.ChecksumValidIff | src/vhdl/udp/framer/udp_ip_framer.vhd:243-253 | the framed header sums to FFFF if and only if seed plus total length does not carry |
| HeaderChecksum.LostCarry | src/vhdl/udp/framer/udp_ip_framer.vhd:247 | concrete addresses for which the carry is lost |
| UdpFramer.InputLoaded | src/vhdl/udp/framer/udp_ip_framer.vhd:149-187 | the input register and counter track the payload being accepted, and a payload's length is complete when it is written |
| UdpFramer.ShownKept | src/vhdl/udp/framer/udp_ip_framer.vhd:189-238 | a length shown, or a datagram under way, means a payload word is shown |
| UdpFramer.NextWord | src/vhdl/udp/framer/udp_ip_framer.vhd:269-428 | each state sends the byte of the datagram that belongs at its position, with lengths and checksum of this payload |
| UdpFramer.DatagramByPosition | src/vhdl/udp/framer/udp_ip_framer.vhd:269-428 | a datagram field by field, most significant byte first: 4500, total length, zero, time to live 128, protocol 17, checksum, addresses, ports, UDP length, zero, payload, only the last byte marked |
| UdpFramer.InvStep | src/vhdl/udp/framer/udp_ip_framer.vhd:149-467 | every cycle keeps input, FIFO contents, state machine and output accounted for |
| UdpFramer.DeliversDatagrams | src/vhdl/udp/framer/udp_ip_framer.vhd:149-467 | under any stalls what is delivered is a prefix of the datagrams of the accepted payloads, and what is missing of those begun is what the registers hold |
| UdpFramer.DeliversByPosition | src/vhdl/udp/framer/udp_ip_framer.vhd:149-467 | in every run what is delivered is a prefix of strings, one for each accepted payload, with exactly these fields |
| UdpFramer.NeverReadsEmpty | src/vhdl/udp/framer/udp_ip_framer.vhd:208-235 | neither FIFO is ever read while it is empty |
| UdpFramer.Drains | src/vhdl/udp/framer/udp_ip_framer.vhd:149-467 | ready cycles deliver the datagrams of all accepted payloads completely |
| UdpSender.OffersAreFramed | src/vhdl/udp/framer/udp_ip_framer.vhd:149-467 | all payloads of a sender that holds each byte until it is taken are delivered as datagrams under any pattern of stalls, once there were three ready cycles for each byte and 33 for each payload |
| UdpSender.OffersByPosition | src/vhdl/udp/framer/udp_ip_framer.vhd:149-467 | what such a sender gets delivered, field by field |
| UdpSender.ShownWithoutReady | src/vhdl/udp/framer/udp_ip_framer.vhd:259-467 | a datagram under way, or a length shown, raises the output valid within three cycles although ready stays low |
| UdpFramer.DatagramChecksum | src/vhdl/udp/framer/udp_ip_framer.vhd:241-253 | with the host's seed the datagram's header is valid if and only if the addition does not carry |
| UdpFramer.Framer.InputProcess | src/vhdl/udp/framer/udp_ip_framer.vhd:152-187 | the input process does what is specified |
| UdpFramer.Framer.FramerProcess | src/vhdl/udp/framer/udp_ip_framer.vhd:259-444 | the state machine does what the specified functions say |
| UdpFramer.Framer.OutputProcess | src/vhdl/udp/framer/udp_ip_framer.vhd:241-467 | checksum registers, state machine and output register are the specified step |
| UdpFramer.Framer.Clock | src/vhdl/udp/framer/udp_ip_framer.vhd:149-467 | input, FIFOs, checksum and output together are the specified step |
| UdpDeframer.UdpStartIsHeaderLength | src/vhdl/udp/deframer/udp_ip_deframer.vhd:167-173 | the six-bit count of further header bytes puts the UDP header where section 3.1 of RFC 791 does for every length nibble from five up, and 64 bytes further for a smaller one |
| UdpDeframer.StateStep | src/vhdl/udp/deframer/udp_ip_deframer.vhd:153-305 | the parser is in the state of its byte position, options skipped, discarding where a check fails |
| UdpDeframer.AcceptedIff | src/vhdl/udp/deframer/udp_ip_deframer.vhd:153-305 | the checks of the parser accept exactly the packets with version 4, protocol 17, own or broadcast address and own port |
| UdpDeframer.PacketYieldsPayload | src/vhdl/udp/deframer/udp_ip_deframer.vhd:108-321 | one packet with any gaps yields its payload with the last byte marked, or nothing, and the counters and drop mask say which |
| UdpDeframer.PacketByPosition | src/vhdl/udp/deframer/udp_ip_deframer.vhd:108-321 | the same byte by byte, with the four conditions on bytes 0, 9, 16 to 19 and the port behind the options |
| UdpDeframer.PacketsYieldPayloads | src/vhdl/udp/deframer/udp_ip_deframer.vhd:108-321 | any sequence of packets, back to back or not, yields exactly their payloads |
| UdpDeframer.PaddingIsDelivered | src/vhdl/udp/deframer/udp_ip_deframer.vhd:270-296 | in every run in which an accepted packet and bytes behind it arrive as one, with any gaps, the payload comes out with those bytes appended |
| UdpDeframer.Deframer.CaptureProcess | src/vhdl/udp/deframer/udp_ip_deframer.vhd:108-143 | address and port registers take exactly their bytes |
| UdpDeframer.Deframer.StateProcess | src/vhdl/udp/deframer/udp_ip_deframer.vhd:153-321 | the state machine does what the specified step says |
| UdpDeframer.Deframer.Clock | src/vhdl/udp/deframer/udp_ip_deframer.vhd:108-321 | all processes together are the specified step |
| UdpLink.OptionsAreSkipped | src/vhdl/udp/deframer/udp_ip_deframer.vhd:167-250 | a packet with any number of option bytes from 0 to 40 yields the same as without them |
| UdpLink.DatagramYieldsPayload | src/vhdl/udp/framer/udp_ip_framer.vhd:269-428 | a framed payload yields itself if the deframer is set to its address and port, and nothing otherwise |
| UdpLink.DeframingInvertsFraming | src/vhdl/udp/deframer/udp_ip_deframer.vhd:108-321 | the words of any datagrams, received with any gaps, yield exactly the payloads |
| UdpLink.PayloadsPassBothLayers | src/vhdl/ethernet/ethernet_deframer/ethernet_deframer.vhd:111-321 | payloads framed as UDP and then as Ethernet come out of both deframers as they went in, none flagged |
| Prbs.WordIsSteps | example/cpp/prbs.hpp:46-93 | for any taps and any word length up to the lowest tap, the word form leaves the register that single steps leave |
| Prbs.WordBits | example/cpp/prbs.hpp:70-93 | the bits of a word, first generated highest, are those of single calls, with zeros above |
| Prbs.PopCountIsWrongBits | example/cpp/prbs_verifier.cpp:38 | the ones counted in the difference are as many as the places in which the word is not the generator's |
| Prbs.WordErrorsAreBitErrors | example/cpp/prbs_verifier.cpp:36-61 | a word counts as many errors as its bits compared with as many single generator steps |
| Prbs.WordIsItsBits | example/cpp/prbs_verifier.cpp:58-134 | while the errors stay below the unlock threshold, pushing a word to a locked verifier is pushing its bits one by one |
| Prbs.VerifierLocksOnce | example/cpp/prbs_verifier.cpp:18-76 | fed from any generator state the verifier synchronises from the data alone, locks within a bound and exactly once, and never counts an error |
| Prbs.StaysLocked | example/cpp/prbs_verifier.cpp:58-76 | once locked it stays locked on that stream |
| Prbs.LocksOnlyAfterCleanBits | example/cpp/prbs_verifier.cpp:36-57 | for arbitrary words after reset, the word that gives the first lock is the last of consecutive words without an error that hold at least as many bits as the lock threshold |
| Prbs.LockedIsCounted | example/cpp/prbs_verifier.cpp:36-74 | in every locked state reached after reset the count of good bits is at the lock threshold or above |
| Prbs.KeepsLockIff | example/cpp/prbs_verifier.cpp:58-74 | a locked verifier keeps its lock through any words if and only if their wrong bits leave the error count below the unlock threshold, and it counts exactly those |
| Prbs.FreshLockLasts | example/cpp/prbs_verifier.cpp:36-74 | a lock just found survives a word without an error if and only if fewer errors than the unlock threshold were counted while looking for it |
| Prbs.RelocksAtOnce | example/cpp/prbs_verifier.cpp:36-76 | after losing lock, the next word, however short, locks it again if and only if it has no error |
| Prbs.LosesAndRegainsLock | example/cpp/prbs_verifier.cpp:36-76 | from every locked state that any words reach after reset, some words make the verifier lose the lock and, with the last of them, lock once more |
| Prbs.Generator.Step | example/cpp/prbs.hpp:46-62 | one step is a word of one bit |
| Prbs.Generator.GetBit | example/cpp/prbs.hpp:40-44 | the bit returned is the lowest of the new register |
| Prbs.Generator.GetWord | example/cpp/prbs.hpp:70-93 | register and word as specified, and the exception when more bits are asked for than the lowest tap has |
| Prbs.Generator.SetReg | example/cpp/prbs.hpp:65-69 | the register is masked to its length |
| Prbs.PrbsVerifier.Push | example/cpp/prbs_verifier.cpp:18-76 | pushing a word is the specified transition, and where the generator throws only the bit count of a locked verifier has moved |
| Prbs.PrbsVerifier.PushBit | example/cpp/prbs_verifier.cpp:79-134 | pushing a bit is pushing a word of one bit |
| Prbs.PrbsVerifier.Reset | example/cpp/prbs_verifier.cpp:137-142 | status, phase and counter are reset, register and thresholds kept |

## Left out

- Reset inside a run: every run starts from the state behind a reset. The reset handshake of the asynchronous FIFO (and
  the write pointer that `reset_busy` does not gate) depends on clock ratios.
- The asynchronous FIFO without the fall-through stage, and the level counters of the FIFOs.
- The receive parser and the request bookkeeping of the ARP block: pending requests and the requester's addresses are
  arbitrary inputs of the inserter at every cycle.
- `eth_dest_mac_out` of the ARP block.
- Lines on which the carrier ends inside a byte.
- Runt frames whose last byte falls inside a header: neither deframer handles them, so frames have complete headers.
- Addresses, ports, filters and the checksum seed are held during a run; per-packet latching is modelled where the code
  latches.
- Disabling a block in the middle of a run, and a last-word mark without a valid word at the UDP framer.
- UDP payloads above 2047 bytes, which the eleven-bit length counter cannot count.
- UdpFramer.Drains: asks for a data FIFO of at least 2048 rows; the instance has 4096.
- RxPacketBuffer.DeliversGoodPackets: assumes no overflow, fewer packets pending than the RAM has rows, and no packet that
  ends bad while the registers show a leak; `RxPacketBuffer.PrefixIffNoLeak` states that the last of these is necessary.
- UdpSender.OffersAreFramed: asks for the same number of rows.
- Prbs.WordIsItsBits: says nothing of a word in which the threshold is reached; its bits may unlock before its end, the
  word only behind it.
- Prbs.PrbsVerifier.Push: the 64-bit counters are unbounded, and words of 32 bits or more are excluded because the shift
  is then undefined.
- Electrical metastability beyond a changing bit that samples as old or new.
- UART, APB registers, MDIO, statistics, host input and output, timing and logging.
