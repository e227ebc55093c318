/** The UDP framer with a sender that holds its payloads: everything offered is framed and delivered within a bound. */
module UdpSender {
  import opened BitVectors
  import opened UdpFramer
  import ByteStream
  import F = SyncFifo

  /** The payloads still to be accepted completely, and how many bytes of the first one were taken. */
  datatype Sender = Sender(payloads: seq<seq<Byte>>, pos: nat)

  predicate SenderOk(q: Sender) {
    Sizes(q.payloads) && (if q.payloads == [] then q.pos == 0 else q.pos < |q.payloads[0]|)
  }

  /** The next byte is offered until it is taken. */
  function Offering(q: Sender): Offer
    requires SenderOk(q)
  {
    if q.payloads == [] then Nothing else Offered(q.payloads[0][q.pos], q.pos == |q.payloads[0]| - 1)
  }

  function SenderStep(q: Sender, taken: bool): (q': Sender)
    requires SenderOk(q)
    ensures SenderOk(q')
  {
    if !taken || q.payloads == [] then q
    else if q.pos == |q.payloads[0]| - 1 then Sender(q.payloads[1..], 0)
    else Sender(q.payloads, q.pos + 1)
  }

  datatype Link = Link(framer: History, sender: Sender)

  predicate LinkOk(x: Link) { WellFormed(x.framer.hw) && SenderOk(x.sender) }

  function LinkStep(x: Link, c: Settings, ready: bool): (x': Link)
    requires LinkOk(x)
    ensures LinkOk(x')
  {
    Link(Observe(x.framer, c, Input(Offering(x.sender), ready)), SenderStep(x.sender, Ready(x.framer.hw)))
  }

  function LinkRun(x: Link, c: Settings, readies: seq<bool>): (x': Link)
    requires LinkOk(x)
    ensures LinkOk(x')
    decreases |readies|
  {
    if readies == [] then x else LinkRun(LinkStep(x, c, readies[0]), c, readies[1..])
  }

  // ---------------------------------------------------------------- what every cycle keeps

  /** The payload being accepted is what was taken of the sender's first one. */
  predicate InHand(x: Link)
    requires SenderOk(x.sender)
  {
    x.framer.partial == if x.sender.payloads == [] then [] else x.sender.payloads[0][..x.sender.pos]
  }

  /** Every payload is accepted completely or still with the sender. */
  ghost predicate LinkInv(x: Link, c: Settings, all: seq<seq<Byte>>) {
    && LinkOk(x) && Inv(x.framer, c) && InHand(x) && x.framer.accepted + x.sender.payloads == all
    && |x.framer.hw.data.ram| >= 2048
  }

  /** What the sender loses in a cycle, the framer has accepted. */
  lemma HandStep(x: Link, c: Settings, ready: bool)
    requires LinkOk(x) && InHand(x)
    ensures var x' := LinkStep(x, c, ready);
            InHand(x') && x'.framer.accepted + x'.sender.payloads == x.framer.accepted + x.sender.payloads
  {
    hide Observe, Ready, WellFormed, Sizes, Stored, InputStep;
    var q := x.sender;
    InputObserved(x.framer, c, Input(Offering(q), ready));
    if q.payloads != [] {
      OneMoreByte(q.payloads[0], q.pos);
      OnePayloadLess(x.framer.accepted, q.payloads);
    }
  }

  lemma OneMoreByte(p: seq<Byte>, k: nat)
    requires k < |p|
    ensures p[..k] + [p[k]] == p[..k + 1] && p[..|p|] == p
  {
  }

  lemma OnePayloadLess(accepted: seq<seq<Byte>>, payloads: seq<seq<Byte>>)
    requires payloads != []
    ensures (accepted + [payloads[0]]) + payloads[1..] == accepted + payloads
    ensures |payloads| > 1 ==> payloads[1..][0][..0] == []
  {
  }

  lemma OfferFits(x: Link, c: Settings, ready: bool)
    requires LinkOk(x) && InHand(x)
    ensures Fits(x.framer, Input(Offering(x.sender), ready))
  {
    hide Ready, WellFormed;
  }

  lemma RowsStay(h: History, c: Settings, i: Input)
    requires WellFormed(h.hw)
    ensures |Observe(h, c, i).hw.data.ram| == |h.hw.data.ram|
  {
    hide Stored, InputStep, NextFramed, Ready;
  }

  lemma LinkInvStep(x: Link, c: Settings, ready: bool, all: seq<seq<Byte>>)
    requires LinkInv(x, c, all)
    ensures LinkOk(x) && LinkInv(LinkStep(x, c, ready), c, all)
  {
    hide Inv, Observe, Fits, InHand;
    HandStep(x, c, ready);
    OfferFits(x, c, ready);
    RowsStay(x.framer, c, Input(Offering(x.sender), ready));
    InvStep(x.framer, c, Input(Offering(x.sender), ready));
  }

  // ---------------------------------------------------------------- the work left

  function Bytes(payloads: seq<seq<Byte>>): nat {
    if payloads == [] then 0 else |payloads[0]| + Bytes(payloads[1..])
  }

  /** Three cycles for each byte and 33 for each payload. */
  function Cost(payloads: seq<seq<Byte>>): nat { 3 * Bytes(payloads) + 33 * |payloads| }

  function SendWork(q: Sender): int { Cost(q.payloads) - 3 * q.pos }

  /** The payloads accepted and not yet sent completely. */
  function Pending(h: History): seq<seq<Byte>>
    requires |h.done| <= |h.accepted|
  {
    h.accepted[|h.done|..]
  }

  function PendingCost(ps: seq<seq<Byte>>): nat { Bytes(ps) + 32 * |ps| }

  /** Moving cycles until these payloads have left the output register. */
  function StateWork(s: Regs, ps: seq<seq<Byte>>): int {
    match s.state
    case Idle => PendingCost(ps) - (if s.length.outValid then 1 else 0) + Flushing(s)
    case Header(k) => if ps == [] then 0 else 30 - k + |ps[0]| + PendingCost(ps[1..])
    case Data => if ps == [] then 0 else 3 + s.remaining + PendingCost(ps[1..])
  }

  function FramerWork(h: History): int
    requires |h.done| <= |h.accepted|
  {
    |h.partial| + (if h.hw.input.we then 1 else 0) + StateWork(h.hw, Pending(h))
  }

  function LinkWork(x: Link): int
    requires |x.framer.done| <= |x.framer.accepted|
  {
    SendWork(x.sender) + FramerWork(x.framer)
  }

  /** The payloads pending are those in the FIFOs and the one that the input register completes. */
  lemma PendingIs(h: History, c: Settings)
    requires Inv(h, c)
    ensures |h.done| <= |h.accepted|
    ensures Pending(h) == h.queue + (if h.hw.input.lengthValid then [h.open + [h.hw.input.din]] else [])
    ensures h.partial == [] && h.hw.input.we ==> h.hw.input.lengthValid
    ensures h.hw.input.lengthValid ==> h.hw.input.we
  {
    hide ControlOk, StoreOk, Datagrams, Started, Pipeline, Sizes;
  }

  /** What a cycle does to the pending payloads. */
  lemma PendingStep(h: History, c: Settings, i: Input)
    requires Inv(h, c) && Inv(Observe(h, c, i), c)
    ensures var h' := Observe(h, c, i);
            && WellFormed(h.hw) && |h.done| <= |h.accepted| && |h'.done| <= |h'.accepted|
            && (Finishes(h.hw, i) ==> Pending(h) != [])
            && Pending(h') == (if Finishes(h.hw, i) then Pending(h)[1..] else Pending(h))
                              + (if Ready(h.hw) && i.offered.Offered? && i.offered.last then [h.partial + [i.offered.data]] else [])
  {
    hide Inv, Observe, InputStep, Stored, Ready;
    InvIsWellFormed(h, c);
    PendingIs(h, c);
    PendingIs(Observe(h, c, i), c);
    InputObserved(h, c, i);
    DoneObserved(h, c, i);
  }

  lemma DoneObserved(h: History, c: Settings, i: Input)
    requires Inv(h, c)
    ensures WellFormed(h.hw)
    ensures Finishes(h.hw, i) ==> h.queue != [] && Observe(h, c, i).done == h.done + [h.queue[0]]
    ensures !Finishes(h.hw, i) ==> Observe(h, c, i).done == h.done
  {
    hide StoreOk, Datagrams, Started, Pipeline, InputOk, Observe, ChecksumOk, Sizes;
    if h.queue != [] {
      QueueObserved(h, c, i);
    } else {
      NoneDone(h, c, i);
    }
  }

  /** The state machine's part of the work, for the payloads pending before the cycle. */
  lemma StateWorkStep(h: History, c: Settings, i: Input)
    requires Inv(h, c) && |h.done| <= |h.accepted| && (Finishes(h.hw, i) ==> Pending(h) != [])
    ensures WellFormed(h.hw)
    ensures var s, s', ps := h.hw, Step(h.hw, c, i), Pending(h);
            var w, w' := StateWork(s, ps), StateWork(s', if Finishes(s, i) then ps[1..] else ps);
            w' <= w && (i.ready && (s.state != Idle || h.queue != [] || Flushing(s) > 0) ==> w' < w)
  {
    hide Inv, Step, Observe, Pending;
    InvIsWellFormed(h, c);
    ControlObserved(h, c, i);
    OutputObserved(h.hw, c, i);
    StateFacts(h, c, i);
    PendingHead(h, c);
  }

  lemma PendingHead(h: History, c: Settings)
    requires Inv(h, c)
    ensures |h.done| <= |h.accepted| && (h.queue != [] ==> Pending(h) != [] && Pending(h)[0] == h.queue[0])
  {
    hide Inv;
    PendingIs(h, c);
  }

  /** What a cycle does to the two output stages. */
  lemma OutputObserved(s: Regs, c: Settings, i: Input)
    requires WellFormed(s)
    ensures var s' := Step(s, c, i);
            && (OutputReady(s, i) ==> s'.out == s.framed && (s'.framed.valid <==> s.state != Idle))
            && (!OutputReady(s, i) ==> s'.out == s.out && s'.framed == s.framed)
  {
    hide F.Step, InputStep, Ready, HeaderByte;
  }

  /** What the state machine knows of the stored payloads and of the length FIFO. */
  lemma StateFacts(h: History, c: Settings, i: Input)
    requires Inv(h, c)
    ensures WellFormed(h.hw)
    ensures var s, s' := h.hw, Step(h.hw, c, i);
            && (s.state != Idle ==> h.queue != [] && s.remaining < |h.queue[0]|)
            && (s.state == Header(27) ==> s.remaining == |h.queue[0]| - 1)
            && (s.state == Idle && s.length.outValid ==> h.queue != [])
            && (s.state == Idle && h.queue != [] ==> s'.length.outValid)
            && (s.state == Idle && s.length.outValid ==> s'.length.outValid)
  {
    hide Observe, Datagrams, Started, Pipeline, F.Ring, Left, Step, ChecksumOk, Sizes;
    ClosedLength(h);
    LengthObserved(h, c, i);
    F.ContentsParts(h.hw.length);
    if h.hw.state == Idle && h.hw.length.outValid {
      LengthIsOldest(h, c);
    }
  }

  /** With no payload complete in the FIFOs and an idle state machine, the input register can be written. */
  lemma RoomForWord(h: History, c: Settings)
    requires Inv(h, c) && h.hw.state == Idle && h.queue == [] && |h.hw.data.ram| >= 2048
    ensures WellFormed(h.hw) && Ready(h.hw)
  {
    hide F.Contents, F.Full, Inv;
    InvIsWellFormed(h, c);
    if h.hw.input.we {
      OpenInFifo(h, c);
      TwoRows(h.hw.length);
      NotFull(h.hw.data);
      EmptyIsNotFull(h.hw.length);
    }
  }

  lemma OpenInFifo(h: History, c: Settings)
    requires Inv(h, c) && h.hw.state == Idle && h.queue == [] && h.hw.input.we
    ensures WellFormed(h.hw) && |F.Contents(h.hw.data)| <= 2046 && F.Contents(h.hw.length) == []
  {
    hide F.Contents, Datagrams, Started, Pipeline, ChecksumOk;
    assert Left(false, h.hw.remaining, [], h.open) == h.open;
    var closing := h.open + [h.hw.input.din];
    if h.hw.input.lengthValid {
      assert h.accepted[|h.done|] == closing;
    } else {
      assert h.partial == closing;
    }
  }

  lemma {:induction false} BytesAppend(a: seq<seq<Byte>>, p: seq<Byte>)
    ensures Bytes(a + [p]) == Bytes(a) + |p|
    decreases |a|
  {
    if a == [] {
      assert (a + [p])[1..] == [];
    } else {
      assert (a + [p])[1..] == a[1..] + [p];
      BytesAppend(a[1..], p);
    }
  }

  /** A payload that joins the pending ones adds its cost. */
  lemma StateWorkJoin(s: Regs, ps: seq<seq<Byte>>, p: seq<Byte>)
    requires s.state != Idle ==> ps != []
    ensures StateWork(s, ps + [p]) == StateWork(s, ps) + |p| + 32
  {
    BytesAppend(ps, p);
    if ps != [] {
      assert (ps + [p])[1..] == ps[1..] + [p];
      BytesAppend(ps[1..], p);
    }
  }

  lemma SendWorkStep(q: Sender)
    requires SenderOk(q) && q.payloads != []
    ensures SendWork(SenderStep(q, true)) == SendWork(q) - 3 - (if q.pos == |q.payloads[0]| - 1 then 33 else 0)
  {
  }

  /** The state behind the cycle is idle or has a payload pending. */
  lemma NextPending(h: History, c: Settings, i: Input)
    requires Inv(h, c) && Inv(Observe(h, c, i), c)
    ensures WellFormed(h.hw) && |h.done| <= |h.accepted|
    ensures var ps := if Finishes(h.hw, i) && Pending(h) != [] then Pending(h)[1..] else Pending(h);
            Step(h.hw, c, i).state != Idle ==> ps != []
  {
    hide Inv, Step, Observe, Pending;
    InvIsWellFormed(h, c);
    PendingHead(h, c);
    ControlObserved(h, c, i);
    StateFacts(h, c, i);
  }

  /** A cycle of the framer: what an accepted byte adds, and that the rest only shrinks. */
  lemma FramerWorkStep(h: History, c: Settings, i: Input)
    requires Inv(h, c) && Inv(Observe(h, c, i), c) && |h.hw.data.ram| >= 2048
    ensures var h' := Observe(h, c, i);
            && WellFormed(h.hw) && |h.done| <= |h.accepted| && |h'.done| <= |h'.accepted|
            && (if Ready(h.hw) && i.offered.Offered? then
                  FramerWork(h') <= FramerWork(h) + 2 + (if i.offered.last then 32 else 0)
                else
                  && FramerWork(h') <= FramerWork(h)
                  && (i.ready && (h.partial == [] || i.offered.Offered?) && FramerWork(h) > 0 ==> FramerWork(h') < FramerWork(h)))
  {
    hide Inv, Observe, Pending, Stored, Ready, StateWork, Step, Finishes;
    PendingStep(h, c, i);
    StateWorkStep(h, c, i);
    InputObserved(h, c, i);
    ControlObserved(h, c, i);
    NextPending(h, c, i);
    var ps := if Finishes(h.hw, i) then Pending(h)[1..] else Pending(h);
    if Ready(h.hw) && i.offered.Offered? {
      if i.offered.last {
        StateWorkJoin(Observe(h, c, i).hw, ps, h.partial + [i.offered.data]);
      } else {
        assert ps + [] == ps;
      }
    } else {
      assert ps + [] == ps;
      if h.hw.state == Idle && h.queue == [] {
        RoomForWord(h, c);
        if Flushing(h.hw) == 0 && !h.hw.input.we && h.partial == [] {
          NothingToDo(h, c);
        }
      }
    }
  }

  lemma NothingToDo(h: History, c: Settings)
    requires Inv(h, c) && h.hw.state == Idle && h.queue == [] && Flushing(h.hw) == 0 && !h.hw.input.we && h.partial == []
    ensures |h.done| <= |h.accepted| && FramerWork(h) <= 0
  {
    hide Inv, Pending;
    PendingIs(h, c);
    assert Pending(h) == [];
  }

  lemma LinkWorkStep(x: Link, c: Settings, ready: bool, all: seq<seq<Byte>>)
    requires LinkInv(x, c, all)
    ensures LinkOk(x)
    ensures var x' := LinkStep(x, c, ready);
            && |x.framer.done| <= |x.framer.accepted| && |x'.framer.done| <= |x'.framer.accepted|
            && LinkInv(x', c, all) && LinkWork(x') <= LinkWork(x)
            && (ready && LinkWork(x) > 0 ==> LinkWork(x') < LinkWork(x))
  {
    hide Inv, Observe, FramerWork, Pending, Ready, SendWork;
    LinkInvStep(x, c, ready, all);
    FramerWorkStep(x.framer, c, Input(Offering(x.sender), ready));
    FramerWorkLeft(x.framer, c);
    if !x.framer.hw.input.we {
      FreeRegisterIsReady(x.framer.hw);
    }
    if x.sender.payloads != [] {
      SendWorkStep(x.sender);
    } else {
      NothingToSend(x.sender);
    }
  }

  lemma FreeRegisterIsReady(s: Regs)
    requires WellFormed(s) && !s.input.we
    ensures Ready(s)
  {
  }

  lemma NothingToSend(q: Sender)
    requires SenderOk(q) && q.payloads == []
    ensures SendWork(q) == 0
  {
  }

  lemma LinkDone(x: Link, c: Settings, all: seq<seq<Byte>>)
    requires LinkInv(x, c, all)
    ensures LinkOk(x) && |x.framer.done| <= |x.framer.accepted| && Sizes(all)
    ensures LinkWork(x) <= 0 ==> x.framer.delivered == Datagrams(c, all)
  {
    hide Inv, FramerWork, SendWork, Datagrams, Drained;
    var h := x.framer;
    FramerWorkLeft(h, c);
    AcceptedSizes(h, c);
    SizesJoin(h.accepted, x.sender.payloads);
    if x.sender.payloads == [] {
      NothingToSend(x.sender);
      assert h.accepted + [] == h.accepted;
    } else {
      SomethingToSend(x.sender);
    }
    if LinkWork(x) <= 0 {
      DrainedDelivers(h, c);
    }
  }

  lemma SizesJoin(a: seq<seq<Byte>>, b: seq<seq<Byte>>)
    requires Sizes(a) && Sizes(b)
    ensures Sizes(a + b)
  {
  }

  lemma AcceptedSizes(h: History, c: Settings)
    requires Inv(h, c)
    ensures Sizes(h.accepted)
  {
    hide ControlOk, StoreOk, Datagrams, Started, Pipeline;
  }

  lemma SomethingToSend(q: Sender)
    requires SenderOk(q) && q.payloads != []
    ensures SendWork(q) > 0
  {
  }

  /** Without work left, nothing is on its way. */
  lemma FramerWorkLeft(h: History, c: Settings)
    requires Inv(h, c)
    ensures |h.done| <= |h.accepted| && FramerWork(h) >= 0
    ensures FramerWork(h) == 0 ==> h.partial == [] && Drained(h.hw) && h.queue == []
  {
    hide Inv, Bytes, Pending;
    PendingHead(h, c);
    StateFacts(h, c, DRAIN);
  }

  lemma {:induction false} LinkDrains(x: Link, c: Settings, readies: seq<bool>, all: seq<seq<Byte>>)
    requires LinkInv(x, c, all)
    ensures LinkOk(x) && |x.framer.done| <= |x.framer.accepted| && Sizes(all)
    ensures ByteStream.Readies(readies) >= LinkWork(x) ==> LinkRun(x, c, readies).framer.delivered == Datagrams(c, all)
    decreases |readies|
  {
    hide LinkInv, LinkOk, LinkWork, LinkStep;
    LinkDone(x, c, all);
    if readies != [] {
      LinkWorkStep(x, c, readies[0], all);
      LinkDrains(LinkStep(x, c, readies[0]), c, readies[1..], all);
    }
  }

  /** Offered payloads are framed: whatever the pattern of stalls, the datagrams of all payloads of a sender that holds each
      byte until it is taken have been delivered once there were three ready cycles for each byte and 33 for each payload,
      provided the data FIFO has at least 2048 rows. */
  lemma OffersAreFramed(s: Regs, c: Settings, ps: seq<seq<Byte>>, readies: seq<bool>)
    requires JustReset(s) && |s.data.ram| >= 2048 && Sizes(ps) && ByteStream.Readies(readies) >= Cost(ps)
    ensures LinkRun(Link(Start(s), Sender(ps, 0)), c, readies).framer.delivered == Datagrams(c, ps)
  {
    hide Inv, Cost, Datagrams, LinkRun;
    InvStart(s, c);
    assert [] + ps == ps;
    LinkDrains(Link(Start(s), Sender(ps, 0)), c, readies, ps);
  }

  /** What such a sender gets delivered, field by field. */
  lemma OffersByPosition(s: Regs, c: Settings, ps: seq<seq<Byte>>, readies: seq<bool>) returns (ws: seq<seq<ByteStream.Word>>)
    requires JustReset(s) && |s.data.ram| >= 2048 && Sizes(ps) && ByteStream.Readies(readies) >= Cost(ps)
    ensures AreDatagrams(c, ps, ws)
    ensures LinkRun(Link(Start(s), Sender(ps, 0)), c, readies).framer.delivered == ByteStream.Flatten(ws)
  {
    hide JustReset, Cost, Datagrams, LinkRun, IsDatagram;
    OffersAreFramed(s, c, ps, readies);
    ws := DatagramsByPosition(c, ps);
  }

  // ---------------------------------------------------------------- the output does not wait

  /** Cycles until a word is shown. */
  function ToShow(s: Regs): nat {
    if s.out.valid then 0 else if s.framed.valid then 1 else if s.state != Idle then 2 else 3
  }

  lemma ToShowStep(s: Regs, c: Settings, i: UdpFramer.Input)
    requires WellFormed(s) && !i.ready && (s.state == Idle && !s.framed.valid && !s.out.valid ==> s.length.outValid)
    ensures ToShow(Step(s, c, i)) <= if ToShow(s) > 0 then ToShow(s) - 1 else 0
  {
    hide F.Step, HeaderByte, InputStep, Ready;
  }

  lemma ObservedRegisters(h: History, c: Settings, i: UdpFramer.Input)
    requires WellFormed(h.hw)
    ensures Observe(h, c, i).hw == Step(h.hw, c, i)
  {
    hide Step, Stored, Ready;
  }

  lemma {:induction false} ShownWithin(h: History, c: Settings, inputs: seq<UdpFramer.Input>)
    requires WellFormed(h.hw) && |inputs| >= ToShow(h.hw) && (ToShow(h.hw) == 3 ==> h.hw.length.outValid)
    requires forall j :: 0 <= j < |inputs| ==> !inputs[j].ready
    ensures Run(h, c, inputs).hw.out.valid
    decreases |inputs|
  {
    hide Step, Observe, WellFormed;
    if inputs != [] {
      ToShowStep(h.hw, c, inputs[0]);
      ObservedRegisters(h, c, inputs[0]);
      ShownWithin(Observe(h, c, inputs[0]), c, inputs[1..]);
    }
  }

  /** While m_axis_tready stays low, a word of a datagram that is under way, or whose length is shown, appears at the latest
      behind the third cycle, and stays, whatever is offered. */
  lemma ShownWithoutReady(h: History, c: Settings, inputs: seq<UdpFramer.Input>)
    requires WellFormed(h.hw) && (h.hw.state != Idle || h.hw.length.outValid)
    requires |inputs| >= 3 && forall j :: 0 <= j < |inputs| ==> !inputs[j].ready
    ensures Run(h, c, inputs).hw.out.valid
  {
    hide WellFormed, Run;
    ShownWithin(h, c, inputs);
  }
}
