/** Toggle handshake that carries one word from clock a to clock b. */
module WordTransfer {

  /** a1..a3 and b1..b3 are the two three-flop synchronisers; b3 is the acknowledge sent back to clock a. */
  datatype Regs<T> = Regs(
    dataA: T, validA: bool, enA: bool,
    b1: bool, b2: bool, b3: bool, dataB: T, validB: bool,
    a1: bool, a2: bool, a3: bool)

  /** One or both clocks rise. When both do, a synchroniser input that changes at that instant is captured as its
      new value if the flag says so, and as its old value otherwise. */
  datatype Event<T> =
    | EdgeA(valid: bool, data: T)
    | EdgeB
    | EdgeAB(valid: bool, data: T, newEn: bool, newAck: bool)

  function Initial<T>(x: T): Regs<T> {
    Regs(x, false, false, false, false, false, x, false, false, false, false)
  }

  predicate Ready<T>(s: Regs<T>) { !s.validA }

  predicate AckPulse<T>(s: Regs<T>) { s.a2 != s.a3 }

  predicate EnPulse<T>(s: Regs<T>) { s.b2 != s.b3 }

  predicate IsA<T>(e: Event<T>) { !e.EdgeB? }

  predicate IsB<T>(e: Event<T>) { !e.EdgeA? }

  /** Registers of clock a after its edge; ack is what the first synchroniser flop captures. */
  function AfterA<T>(s: Regs<T>, valid: bool, data: T, ack: bool): Regs<T> {
    s.(dataA := if Ready(s) then data else s.dataA,
       validA := if AckPulse(s) then false else if Ready(s) then valid else s.validA,
       enA := s.enA != (Ready(s) && valid),
       a1 := ack, a2 := s.a1, a3 := s.a2)
  }

  /** Registers of clock b after its edge; en is what the first synchroniser flop captures. */
  function AfterB<T>(s: Regs<T>, en: bool): Regs<T> {
    s.(validB := EnPulse(s),
       dataB := if EnPulse(s) then s.dataA else s.dataB,
       b1 := en, b2 := s.b1, b3 := s.b2)
  }

  function Step<T>(s: Regs<T>, e: Event<T>): Regs<T> {
    match e
    case EdgeA(valid, data) => AfterA(s, valid, data, s.b3)
    case EdgeB => AfterB(s, s.enA)
    case EdgeAB(valid, data, newEn, newAck) =>
      var a := AfterA(s, valid, data, if newAck then s.b2 else s.b3);
      var b := AfterB(s, if newEn then a.enA else s.enA);
      a.(b1 := b.b1, b2 := b.b2, b3 := b.b3, dataB := b.dataB, validB := b.validB)
  }

  /** The registers together with every word accepted on side a and every word delivered on side b. */
  datatype History<T> = History(hw: Regs<T>, sent: seq<T>, received: seq<T>)

  function Observe<T>(h: History<T>, e: Event<T>): History<T> {
    var next := Step(h.hw, e);
    History(next,
            if IsA(e) && Ready(h.hw) && e.valid then h.sent + [e.data] else h.sent,
            if IsB(e) && next.validB then h.received + [next.dataB] else h.received)
  }

  function Run<T>(h: History<T>, events: seq<Event<T>>): History<T>
    decreases |events|
  {
    if events == [] then h else Run(Observe(h, events[0]), events[1..])
  }

  function Start<T>(x: T): History<T> { History(Initial(x), [], []) }

  function Differ(a: bool, b: bool): nat { if a != b then 1 else 0 }

  /** Toggles travelling round the loop en_a, b1, b2, b3, a1, a2, a3. */
  function InFlight<T>(s: Regs<T>): nat {
    Differ(s.enA, s.b1) + Differ(s.b1, s.b2) + Differ(s.b2, s.b3) + Differ(s.b3, s.a1) + Differ(s.a1, s.a2) + Differ(s.a2, s.a3)
  }

  /** The phase invariant: one toggle is in flight exactly while a word is held, and the held word is owed to side
      b until the toggle has passed b3. */
  ghost predicate Inv<T>(h: History<T>) {
    && InFlight(h.hw) == (if h.hw.validA then 1 else 0)
    && h.sent == h.received + (if h.hw.enA != h.hw.b3 then [h.hw.dataA] else [])
    && (h.hw.validB ==> |h.received| > 0 && h.hw.dataB == h.received[|h.received| - 1])
  }

  lemma InvStep<T>(h: History<T>, e: Event<T>)
    requires Inv(h)
    ensures Inv(Observe(h, e))
  {
  }

  lemma {:induction false} InvRun<T>(h: History<T>, events: seq<Event<T>>)
    requires Inv(h)
    ensures Inv(Run(h, events))
    decreases |events|
  {
    if events != [] {
      InvStep(h, events[0]);
      InvRun(Observe(h, events[0]), events[1..]);
    }
  }

  /** In every interleaving each accepted word is delivered at most once and in order, and at most one is owed;
      the busy flag is the difference between the sent toggle and the last acknowledge flop. */
  lemma ExactlyOnceInOrder<T>(x: T, events: seq<Event<T>>)
    ensures var h := Run(Start(x), events);
            && h.received <= h.sent
            && |h.sent| <= |h.received| + 1
            && (Ready(h.hw) ==> h.received == h.sent)
            && (h.hw.validA <==> h.hw.enA != h.hw.a3)
            && InFlight(h.hw) <= 1
  {
    InvRun(Start(x), events);
  }

  /** When side b samples the multi-bit word, side a cannot be changing it, not even at the same instant, and what
      is sampled is the one word still owed. */
  lemma StableWhenSampled<T>(x: T, events: seq<Event<T>>, e: Event<T>)
    requires EnPulse(Run(Start(x), events).hw)
    ensures var h := Run(Start(x), events);
            && Step(h.hw, e).dataA == h.hw.dataA
            && !Ready(h.hw)
            && h.sent == h.received + [h.hw.dataA]
  {
    InvRun(Start(x), events);
  }

  /** Flops of clock b, then of clock a, that the toggle has still to pass. */
  function LeftB<T>(s: Regs<T>): nat {
    Differ(s.enA, s.b1) + Differ(s.enA, s.b2) + Differ(s.enA, s.b3)
  }

  function LeftA<T>(s: Regs<T>): nat {
    Differ(s.enA, s.a1) + Differ(s.enA, s.a2) + Differ(s.enA, s.a3)
  }

  /** The events contain b edges of clock b and, after those, a edges of clock a. */
  predicate Enough<T>(events: seq<Event<T>>, b: nat, a: nat)
    decreases |events|
  {
    if b == 0 && a == 0 then true
    else if events == [] then false
    else if b > 0 then Enough(events[1..], if IsB(events[0]) then b - 1 else b, a)
    else Enough(events[1..], 0, if IsA(events[0]) then a - 1 else a)
  }

  /** A held word makes progress: an edge of the clock whose turn it is brings the toggle one flop on. */
  lemma Progress<T>(h: History<T>, e: Event<T>)
    requires Inv(h) && !Ready(h.hw)
    ensures var s, t := h.hw, Step(h.hw, e);
            && (Ready(t) || (LeftB(t) <= LeftB(s) && LeftA(t) <= LeftA(s)))
            && (IsB(e) && LeftB(s) > 0 ==> !Ready(t) && LeftB(t) < LeftB(s))
            && (IsA(e) && LeftB(s) == 0 ==> Ready(t) || LeftA(t) < LeftA(s))
  {
  }

  /** Ready returns: whatever else happens, once b-clock edges and then a-clock edges have covered the flops the
      toggle still had to pass, side a has been ready again. */
  lemma {:induction false} ReadyReturns<T>(h: History<T>, events: seq<Event<T>>, b: nat, a: nat)
    requires Inv(h) && b >= LeftB(h.hw) && a >= LeftA(h.hw) && Enough(events, b, a)
    ensures exists k :: 0 <= k <= |events| && Ready(Run(h, events[..k]).hw)
    decreases |events|
  {
    if Ready(h.hw) {
      assert Ready(Run(h, events[..0]).hw);
    } else {
      assert h.hw.enA != h.hw.a3;
      var e, rest := events[0], events[1..];
      var next := Observe(h, e);
      InvStep(h, e);
      Progress(h, e);
      if Ready(next.hw) {
        assert events[..1][1..] == [];
        assert Run(h, events[..1]) == Run(next, []);
      } else {
        var b' := if b > 0 && IsB(e) then b - 1 else b;
        var a' := if b == 0 && IsA(e) then a - 1 else a;
        ReadyReturns(next, rest, b', a');
        var k :| 0 <= k <= |rest| && Ready(Run(next, rest[..k]).hw);
        assert events[..k + 1][1..] == rest[..k];
        assert Ready(Run(h, events[..k + 1]).hw);
      }
    }
  }

  /** Three edges of clock b followed by three of clock a always suffice, from any reachable state. */
  lemma ReadyWithinThreeAndThree<T>(x: T, before: seq<Event<T>>, events: seq<Event<T>>)
    requires Enough(events, 3, 3)
    ensures exists k :: 0 <= k <= |events| && Ready(Run(Run(Start(x), before), events[..k]).hw)
  {
    InvRun(Start(x), before);
    ReadyReturns(Run(Start(x), before), events, 3, 3);
  }

  /** The three-flop toggle-to-pulse synchroniser. */
  class SyncPulseGen {
    var q1: bool
    var q2: bool
    var q3: bool

    constructor ()
      ensures !q1 && !q2 && !q3
    {
      q1, q2, q3 := false, false, false;
    }

    function Pulse(): bool
      reads this
    {
      q2 != q3
    }

    method Clock(din: bool)
      modifies this
      ensures q1 == din && q2 == old(q1) && q3 == old(q2)
    {
      q1, q2, q3 := din, q1, q2;
    }
  }

  class Transfer<T> {
    var dataA: T
    var validA: bool
    var enA: bool
    var dataB: T
    var validB: bool
    const enSync: SyncPulseGen
    const ackSync: SyncPulseGen

    ghost predicate Valid()
      reads this
    {
      enSync != ackSync
    }

    function Registers(): Regs<T>
      reads this, enSync, ackSync
    {
      Regs(dataA, validA, enA, enSync.q1, enSync.q2, enSync.q3, dataB, validB, ackSync.q1, ackSync.q2, ackSync.q3)
    }

    constructor (x: T)
      ensures Valid() && fresh(enSync) && fresh(ackSync)
      ensures Registers() == Initial(x)
    {
      dataA, validA, enA, dataB, validB := x, false, false, x, false;
      enSync := new SyncPulseGen();
      ackSync := new SyncPulseGen();
    }

    method ClockA(valid: bool, data: T)
      requires Valid()
      modifies this`dataA, this`validA, this`enA, ackSync
      ensures Registers() == Step(old(Registers()), EdgeA(valid, data))
    {
      SendProcess(valid, data);
      ackSync.Clock(enSync.q3);
    }

    method ClockB()
      requires Valid()
      modifies this`dataB, this`validB, enSync
      ensures Registers() == Step(old(Registers()), EdgeB)
    {
      ReceiveProcess();
      enSync.Clock(enA);
    }

    /** Both clocks rise together. */
    method ClockBoth(valid: bool, data: T, newEn: bool, newAck: bool)
      requires Valid()
      modifies this`dataA, this`validA, this`enA, this`dataB, this`validB, enSync, ackSync
      ensures Registers() == Step(old(Registers()), EdgeAB(valid, data, newEn, newAck))
    {
      var enBefore := enA;
      BothProcesses(valid, data);
      Synchronise(if newEn then enA else enBefore, newAck);
    }

    method BothProcesses(valid: bool, data: T)
      modifies this`dataA, this`validA, this`enA, this`dataB, this`validB
      ensures dataA == if old(validA) then old(dataA) else data
      ensures validA == if ackSync.Pulse() then false else if old(validA) then true else valid
      ensures enA == (old(enA) != (!old(validA) && valid))
      ensures validB == enSync.Pulse()
      ensures dataB == if enSync.Pulse() then old(dataA) else old(dataB)
    {
      ReceiveProcess();
      SendProcess(valid, data);
    }

    /** Both synchronisers are clocked; the acknowledge that the second one samples changes in the first. */
    method Synchronise(en: bool, newAck: bool)
      requires Valid()
      modifies enSync, ackSync
      ensures enSync.q1 == en && enSync.q2 == old(enSync.q1) && enSync.q3 == old(enSync.q2)
      ensures ackSync.q1 == if newAck then old(enSync.q2) else old(enSync.q3)
      ensures ackSync.q2 == old(ackSync.q1) && ackSync.q3 == old(ackSync.q2)
    {
      var ackBefore := enSync.q3;
      enSync.Clock(en);
      ackSync.Clock(if newAck then enSync.q3 else ackBefore);
    }

    method SendProcess(valid: bool, data: T)
      modifies this`dataA, this`validA, this`enA
      ensures dataA == if old(validA) then old(dataA) else data
      ensures validA == if ackSync.Pulse() then false else if old(validA) then true else valid
      ensures enA == (old(enA) != (!old(validA) && valid))
    {
      var ready := !validA;
      if ready {
        dataA := data;
        validA := valid;
      }
      if ackSync.Pulse() {
        validA := false;
      }
      enA := enA != (ready && valid);
    }

    method ReceiveProcess()
      modifies this`dataB, this`validB
      ensures validB == enSync.Pulse()
      ensures dataB == if enSync.Pulse() then dataA else old(dataB)
    {
      validB := enSync.Pulse();
      if validB {
        dataB := dataA;
      }
    }
  }
}
