/** The publish window of `write`, between the head store and the DREIE store:
    exactly when it is safe, and how tight the one-service bound is. */
module TxWindow {
  import opened Bits
  import opened Ring
  import opened TxMachine
  import opened TxFifo

  /** Everything handed to the transmitter so far. */
  function Sent(s: State): seq<byte> {
    s.log.wire + Held(s.usart.shift) + Held(s.usart.data)
  }

  /** Nothing but the transmitter's own state differs. */
  predicate SameSoftware(s: State, t: State) {
    && t.port == s.port && t.irqOn == s.irqOn && t.pc == s.pc && t.inService == s.inService
    && t.usart.dreie == s.usart.dreie
    && t.log.accepted == s.log.accepted && t.log.queued == s.log.queued && t.log.services == s.log.services
    && Sent(t) == Sent(s)
  }

  /** Steps of the handler and the transmitter only. */
  predicate Background(ls: seq<Label>) {
    forall i :: 0 <= i < |ls| ==> ls[i].Isr? || ls[i].Store? || ls[i].Tick?
  }

  /** Left alone for long enough, the transmitter takes the byte in TXDATAL. */
  lemma {:induction false} TransmitterTakesByte(s: State) returns (ls: seq<Label>)
    requires Bounded(s)
    ensures Admissible(s, ls) && Background(ls) && Exec(s, ls).usart.data.None? && SameSoftware(s, Exec(s, ls))
    ensures s.usart.data.Some? || s.usart.shift.Some? ==> Exec(s, ls).usart.shift.Some?
    decreases s.usart.data.Some?, s.usart.shift.Some?, s.usart.ticks
  {
    if s.usart.data.None? {
      ls := [];
    } else {
      var t := Transmit(s);
      TickIsSilent(s);
      var rest := TransmitterTakesByte(t);
      ls := [Tick] + rest;
      assert ls[1..] == rest;
      hide Transmit, Sent;
    }
  }

  lemma TickIsSilent(s: State)
    requires Bounded(s)
    ensures Apply(s, Tick) == Transmit(s) && SameSoftware(s, Transmit(s))
    ensures s.usart.data.Some? ==> Transmit(s).usart.data.Some? || Transmit(s).usart.shift.Some?
  {
    assert Sent(Transmit(s)) == Sent(s);
  }

  /** One full DRE service, however long the transmitter takes to make room. */
  lemma Service(s: State) returns (ls: seq<Label>)
    requires Bounded(s) && s.irqOn && s.usart.dreie && !s.inService
    ensures Admissible(s, ls) && Background(ls)
    ensures var t, tail := Exec(s, ls), Next(s.port.tail, |s.port.buf|);
            && t.port == s.port.(tail := tail)
            && t.usart.dreie == (s.port.head != tail)
            && t.usart.data == Some(s.port.buf[s.port.tail])
            && t.pc == s.pc && t.irqOn && !t.inService
            && t.log.accepted == s.log.accepted && t.log.queued == s.log.queued
            && t.log.services == s.log.services + 1
            && Sent(t) == Sent(s) + [s.port.buf[s.port.tail]]
  {
    var ticks := TransmitterTakesByte(s);
    var t := Exec(s, ticks);
    var isr := Apply(t, Isr);
    assert Exec(isr, [Store]) == EndService(isr) by { assert [Store][1..] == []; }
    assert Admissible(isr, [Store]);
    assert [Isr, Store][1..] == [Store];
    ExecConcat(s, ticks, [Isr, Store]);
    ls := ticks + [Isr, Store];
  }

  lemma {:induction false} BackgroundIsClean(s: State, ls: seq<Label>)
    requires Bounded(s) && Background(ls)
    ensures Clean(s, ls)
    decreases |ls|
  {
    if ls != [] { BackgroundIsClean(Apply(s, ls[0]), ls[1..]); }
  }

  /** DREIE switched on over a drained ring: the next service sends a stale slot. */
  lemma DrainedPublishSendsStaleSlot(s: State) returns (ls: seq<Label>)
    requires Good(s) && s.irqOn && s.pc.EnableDre? && Empty(s) && !s.inService
    ensures Admissible(Apply(s, Main), ls) && Background(ls) && Clean(Apply(s, Main), ls)
    ensures var t := Exec(Apply(s, Main), ls);
            && Sent(t) == s.log.accepted + [s.port.buf[s.port.head]]
            && !Fifo(t) && |Queue(t)| == |s.port.buf| - 1 && t.log.accepted == s.log.accepted
  {
    var p := Apply(s, Main);
    ls := Service(p);
    var t := Exec(p, ls);
    PopEmpty(s.port.head, |s.port.buf|);
    assert Queue(s) == [];
    assert |Sent(t)| == |s.log.accepted| + 1;
    BackgroundIsClean(p, ls);
  }

  /** Every clean continuation of the DREIE store keeps the FIFO order. */
  ghost predicate SafePublish(s: State)
    requires Bounded(s)
  {
    forall ls ::
      Admissible(Apply(s, Main), ls) && Clean(Apply(s, Main), ls) ==> Fifo(Exec(Apply(s, Main), ls))
  }

  /** The exact condition: the DREIE store is safe iff bytes are still queued. */
  lemma PublishIsSafeIff(s: State)
    requires Good(s) && s.irqOn && s.pc.EnableDre? && !s.inService
    ensures SafePublish(s) <==> !Empty(s)
  {
    if Empty(s) {
      var ls := DrainedPublishSendsStaleSlot(s);
      assert !Fifo(Exec(Apply(s, Main), ls));
    } else {
      StepGood(s, Main);
      forall ls | Admissible(Apply(s, Main), ls) && Clean(Apply(s, Main), ls)
        ensures Fifo(Exec(Apply(s, Main), ls))
      {
        CleanRunIsFifo(Apply(s, Main), ls);
      }
    }
  }

  /** The one-service bound is tight: with two bytes queued, two services in the
      window and the DREIE store, the third service sends the slot at the head,
      which `write` has not filled. */
  lemma TwoServicesSendStaleSlot(s: State) returns (window: seq<Label>, after: seq<Label>)
    requires Good(s) && s.irqOn && s.pc.EnableDre? && !s.inService
    requires s.log.queued == 2 && s.log.services == 0
    ensures Background(window) && Background(after)
    ensures Admissible(s, window + [Main] + after)
    ensures Exec(s, window).log.services == 2
    ensures var t := Exec(s, window + [Main] + after);
            Sent(t) == s.log.accepted + [s.port.buf[s.port.head]] && !Fifo(t) && t.log.accepted == s.log.accepted
  {
    var first := Service(s);
    var s1 := Exec(s, first);
    ServicesKeepGood(s, first);
    var second := Service(s1);
    var s2 := Exec(s1, second);
    ServicesKeepGood(s1, second);
    ExecConcat(s, first, second);
    window := first + second;
    after := DrainedPublishSendsStaleSlot(s2);
    ExecAppend(s, window, Main);
    ExecConcat(s, window + [Main], after);
  }

  lemma ServicesKeepGood(s: State, ls: seq<Label>)
    requires Good(s) && Admissible(s, ls) && Background(ls)
    ensures Good(Exec(s, ls))
  {
    BackgroundIsClean(s, ls);
    CleanRunIsFifo(s, ls);
  }

  /** What `availableForWrite` computes from the two indices. */
  function AvailableForWrite(s: State): (n: nat)
    requires Bounded(s)
    ensures n == |s.port.buf| - 1 - |Queue(s)|
  {
    if s.port.head >= s.port.tail then |s.port.buf| - 1 - s.port.head + s.port.tail
    else s.port.tail - s.port.head - 1
  }

  /** Calls of `write` made in a run. */
  function Writes(ls: seq<Label>): nat {
    if ls == [] then 0 else (if ls[0].Write? then 1 else 0) + Writes(ls[1..])
  }

  /** Room for a further `budget` bytes, beyond the one `write` may be placing now. */
  ghost predicate Room(s: State, budget: nat)
    requires Bounded(s)
  {
    var placing := if s.pc.Idle? || s.pc.EnableDre? || Flushing(s) then 0 else 1;
    budget + placing <= |s.port.buf| - 1 - |Queue(s)| && !s.pc.PollWrite?
  }

  /** `availableForWrite` is a stable lower bound: whatever the handler and the
      transmitter do, that many calls of `write` never enter the wait loop. */
  lemma AvailableForWriteIsStable(s: State, ls: seq<Label>)
    requires Good(s) && s.pc.Idle? && Admissible(s, ls) && Clean(s, ls)
    requires Writes(ls) <= AvailableForWrite(s)
    ensures !Exec(s, ls).pc.PollWrite?
  {
    RoomLasts(s, ls, AvailableForWrite(s));
  }

  lemma {:induction false} RoomLasts(s: State, ls: seq<Label>, budget: nat)
    requires Good(s) && Admissible(s, ls) && Clean(s, ls)
    requires Writes(ls) <= budget && Room(s, budget)
    ensures !Exec(s, ls).pc.PollWrite?
    decreases |ls|
  {
    if ls != [] {
      var l, t := ls[0], Apply(s, ls[0]);
      StepGood(s, l);
      RoomStep(s, l, budget);
      RoomLasts(t, ls[1..], if l.Write? then budget - 1 else budget);
    }
  }

  lemma RoomStep(s: State, l: Label, budget: nat)
    requires Good(s) && Enabled(s, l) && !DrainedPublish(s, l)
    requires Room(s, budget) && (l.Write? ==> 1 <= budget)
    ensures Room(Apply(s, l), if l.Write? then budget - 1 else budget)
  {
    FullIff(s.port.head, s.port.tail, |s.port.buf|);
    StepGood(s, l);
  }
}
