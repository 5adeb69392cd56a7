/** The two wait loops end: on every run, clean or not, with interrupts on or
    off, each useful step made while the main thread waits lowers a rank, and
    while the loop cannot be left a useful step is always available. */
module TxProgress {
  import opened Bits
  import opened Ring
  import opened TxMachine

  /** Kept by every step of every run, including runs that break the FIFO. */
  ghost predicate Live(s: State) {
    && Bounded(s) && ByteIndex(s)
    && (s.inService ==> s.usart.dreie)
    && (!Empty(s) && !s.pc.EnableDre? ==> s.usart.dreie)
    && (!Gap(s) && !InFlight(s) && s.log.wire != [] ==> s.usart.txcif)
    && AcceptedIsSomewhere(s)
  }

  predicate Started(s: State) {
    s.log.wire != [] || InFlight(s)
  }

  ghost predicate AcceptedIsSomewhere(s: State)
    requires Bounded(s)
  {
    && (s.log.accepted != [] ==> Started(s) || !Empty(s))
    && (s.pc.StoreSlot? || s.pc.StoreHead? ==> Started(s) || Next(s.port.head, |s.port.buf|) != s.port.tail)
    && (Flushing(s) || s.pc.EnableDre? || (s.pc.Idle? && s.port.written) ==> s.log.accepted != [])
  }

  lemma InitLive(size: nat, frame: nat, irqOn: bool)
    requires 2 <= size <= 256
    ensures Live(Init(size, frame, irqOn))
  {
  }

  lemma StepLive(s: State, l: Label)
    requires Live(s) && Enabled(s, l)
    ensures Live(Apply(s, l))
  {
    match l
    case Main => if Flushing(s) { LiveFlushStep(s); } else { LiveWriteStep(s); }
    case Tick => LiveTransmit(s);
    case _ =>
  }

  lemma LiveTransmit(s: State)
    requires Live(s)
    ensures Live(Transmit(s))
  {
  }

  lemma LiveFlushStep(s: State)
    requires Live(s) && !s.inService && Flushing(s)
    ensures Live(FlushStep(s))
  {
  }

  lemma LiveWriteStep(s: State)
    requires Live(s) && Enabled(s, Main) && !Flushing(s)
    ensures Live(WriteStep(s))
  {
  }

  lemma {:induction false} LiveRun(s: State, ls: seq<Label>)
    requires Live(s) && Admissible(s, ls)
    ensures Live(Exec(s, ls))
    decreases |ls|
  {
    if ls != [] {
      StepLive(s, ls[0]);
      LiveRun(Apply(s, ls[0]), ls[1..]);
    }
  }

  /** The rank, most significant part first: DREIE left on over an empty ring,
      queued bytes, occupied registers, ticks left of the frame, service pending. */
  function Stray(s: State): nat { if s.usart.dreie && Empty(s) then 1 else 0 }

  function Queued(s: State): nat
    requires Bounded(s)
  {
    Len(s.port.head, s.port.tail, |s.port.buf|)
  }

  function Registers(s: State): nat {
    (if s.usart.data.Some? then 2 else 0) + (if s.usart.shift.Some? then 1 else 0)
  }

  function FrameLeft(s: State): nat { if s.usart.shift.Some? then s.usart.ticks else 0 }

  function Pending(s: State): nat { if s.inService then 0 else 1 }

  ghost predicate SameRank(t: State, s: State)
    requires Bounded(s) && Bounded(t)
  {
    Stray(t) == Stray(s) && Queued(t) == Queued(s) && Registers(t) == Registers(s)
    && FrameLeft(t) == FrameLeft(s) && Pending(t) == Pending(s)
  }

  ghost predicate Below(t: State, s: State)
    requires Bounded(s) && Bounded(t)
  {
    || Stray(t) < Stray(s)
    || (Stray(t) == Stray(s)
        && (|| Queued(t) < Queued(s)
            || (Queued(t) == Queued(s)
                && (|| Registers(t) < Registers(s)
                    || (Registers(t) == Registers(s)
                        && (|| FrameLeft(t) < FrameLeft(s)
                            || (FrameLeft(t) == FrameLeft(s) && Pending(t) < Pending(s))))))))
  }

  /** The main thread is inside one of the two wait loops. */
  predicate Waiting(s: State) {
    s.pc.Wait? || s.pc.PollWrite? || Flushing(s)
  }

  /** A handler or transmitter step that changes something. */
  predicate Useful(s: State, l: Label) {
    l.Isr? || l.Store? || (l.Tick? && InFlight(s))
  }

  /** A poll that services the ring or clears a stray DREIE. */
  predicate UsefulPoll(s: State) {
    (s.pc.PollWrite? || s.pc.PollFlush?) && !s.irqOn && s.usart.data.None? && (s.usart.dreie || !Empty(s))
  }

  predicate SomethingUseful(s: State) {
    InFlight(s) || s.inService || (s.irqOn && s.usart.dreie)
  }

  lemma UsefulDescends(s: State, l: Label)
    requires Live(s) && Enabled(s, l) && Useful(s, l)
    ensures Below(Apply(s, l), s)
  {
    if l.Store? {
      if Empty(s) { PopEmpty(s.port.head, |s.port.buf|); }
    }
  }

  lemma UsefulPollDescends(s: State)
    requires Live(s) && Enabled(s, Main) && UsefulPoll(s)
    ensures Below(Apply(s, Main), s)
  {
  }

  /** Where a poll returns to. */
  function AfterPoll(pc: Pc): Pc
    requires pc.PollWrite? || pc.PollFlush?
  {
    if pc.PollWrite? then Wait(pc.c) else FlushDre
  }

  /** Going round the loop otherwise costs nothing. */
  lemma LoopingIsFree(s: State)
    requires Live(s) && Enabled(s, Main) && Waiting(s) && !UsefulPoll(s)
    ensures SameRank(Apply(s, Main), s)
  {
  }

  /** No deadlock: if neither the handler nor the transmitter has anything to
      do, the loop's test passes or its next poll is useful. */
  lemma NoDeadlock(s: State)
    requires Live(s) && Waiting(s) && !SomethingUseful(s)
    ensures s.pc.Wait? ==> Apply(s, Main).pc.StoreSlot? || UsefulPoll(Apply(s, Main))
    ensures s.pc.FlushDre? ==> Apply(s, Main).pc.FlushTxc? || UsefulPoll(Apply(s, Main))
    ensures s.pc.FlushTxc? ==> Apply(s, Main).pc.Idle? || UsefulPoll(Apply(s, Main))
  {
    FullIff(s.port.head, s.port.tail, |s.port.buf|);
  }

  /** ... and if they have, a useful step is enabled. */
  lemma UsefulStepExists(s: State) returns (l: Label)
    requires Bounded(s) && SomethingUseful(s)
    ensures Enabled(s, l) && Useful(s, l)
  {
    l := if InFlight(s) then Tick else if s.inService then Store else Isr;
  }

  ghost predicate NotAbove(t: State, s: State)
    requires Bounded(s) && Bounded(t)
  {
    Below(t, s) || SameRank(t, s)
  }

  /** Nothing left anywhere: the rank's first three parts are zero. */
  predicate Quiet(s: State) {
    Empty(s) && !s.usart.dreie && !InFlight(s)
  }

  /** `flush` is let go when everything is quiet. */
  lemma QuietFlushReturns(s: State)
    requires Live(s) && Flushing(s) && !s.inService && Quiet(s)
    ensures s.usart.txcif
  {
  }

  /** A poll that found nothing to do, followed by a pause in which nothing
      happened: then all is quiet, unless a full ring waits with room to drain. */
  lemma IdlePollIsQuiet(polled: State, after: State)
    requires Live(polled) && Live(after) && SameRank(after, polled) && after.irqOn == polled.irqOn
    requires (polled.pc.PollWrite? || polled.pc.PollFlush?) && !UsefulPoll(polled) && !polled.inService
    requires after.pc.Wait? || after.pc.FlushDre?
    requires !SomethingUseful(after)
    ensures Quiet(polled) && Quiet(after)
  {
  }

  /** The transmitter alone has run from s to t. */
  ghost predicate TransmitterRan(s: State, t: State)
    requires Bounded(s) && Bounded(t)
  {
    && t.port == s.port && t.irqOn == s.irqOn && t.pc == s.pc && t.inService == s.inService
    && t.log.accepted == s.log.accepted && t.usart.dreie == s.usart.dreie
    && NotAbove(t, s)
  }

  lemma TransmitterRanStep(s: State, t: State)
    requires Bounded(s) && Live(t) && TransmitterRan(s, t)
    ensures TransmitterRan(s, Transmit(t))
  {
    if Useful(t, Tick) { UsefulDescends(t, Tick); }
  }

  /** The handler and the transmitter have run, and no service is left open. */
  ghost predicate BackgroundRan(s: State, t: State)
    requires Bounded(s) && Bounded(t)
  {
    SameMain(s, t) && t.pc == s.pc && NotAbove(t, s)
  }

  /** What only the main thread writes, and no service open. */
  predicate SameMain(s: State, t: State) {
    && t.port.buf == s.port.buf && t.port.head == s.port.head && t.port.written == s.port.written
    && t.irqOn == s.irqOn && t.log.accepted == s.log.accepted && !t.inService
  }

  lemma UsefulTick(s: State)
    requires Live(s) && InFlight(s) && !s.inService
    ensures SameMain(s, Transmit(s)) && Transmit(s).pc == s.pc && Below(Transmit(s), s)
  {
    UsefulDescends(s, Tick);
  }

  /** What the first half of a service does, whichever way it is reached. */
  lemma ServiceOpens(s: State, via: Label)
    requires Bounded(s) && Enabled(s, via) && (via.Isr? || (via.Main? && UsefulPoll(s) && !Empty(s)))
    ensures Apply(s, via) == BeginService(s.(pc := if via.Isr? then s.pc else AfterPoll(s.pc)))
  {
  }

  /** A service opened by `via`, run to its end with the transmitter active meanwhile. */
  lemma WholeService(s: State, via: Label, open: State)
    requires Live(s) && Enabled(s, via) && (via.Isr? || (via.Main? && UsefulPoll(s) && !Empty(s)))
    requires Live(open) && TransmitterRan(Apply(s, via), open)
    ensures Enabled(open, Store)
    ensures var t := EndService(open); SameMain(s, t) && t.pc == (if via.Isr? then s.pc else AfterPoll(s.pc)) && Below(t, s)
  {
    if via.Isr? { UsefulDescends(s, via); } else { UsefulPollDescends(s); }
    UsefulDescends(open, Store);
  }

  lemma RankChain(s: State, t: State, u: State)
    requires Bounded(s) && Bounded(t) && Bounded(u) && NotAbove(t, s)
    ensures NotAbove(u, t) ==> NotAbove(u, s)
    ensures Below(u, t) || (Below(t, s) && NotAbove(u, t)) ==> Below(u, s)
    ensures NotAbove(u, t) && SameRank(u, s) ==> SameRank(t, s) && SameRank(u, t)
  {
  }

  /** Interference, a poll, and interference again: the rank falls unless all was quiet before. */
  lemma PollRoundDescends(tested: State, polled: State, after: State)
    requires Live(tested) && Live(polled) && Live(after)
    requires NotAbove(polled, tested) && NotAbove(after, polled) && after.irqOn == polled.irqOn
    requires (polled.pc.PollWrite? || polled.pc.PollFlush?) && !polled.inService
    requires after.pc.Wait? || after.pc.FlushDre?
    requires Below(after, polled) || (!UsefulPoll(polled) && !SomethingUseful(after))
    ensures Below(after, tested) || Quiet(tested)
  {
    RankChain(tested, polled, after);
    if !Below(after, tested) {
      IdlePollIsQuiet(polled, after);
    }
  }

  /** What a poll leaves behind when it does not service the ring. */
  lemma PollWithoutService(s: State)
    requires Live(s) && Enabled(s, Main) && (s.pc.PollWrite? || s.pc.PollFlush?)
    requires s.irqOn || s.usart.data.Some? || Empty(s)
    ensures var t := Apply(s, Main);
            && SameMain(s, t) && t.port == s.port && t.pc == AfterPoll(s.pc)
            && t.usart == s.usart.(dreie := t.usart.dreie)
            && t.usart.dreie == (s.usart.dreie && (s.irqOn || s.usart.data.Some?))
            && if UsefulPoll(s) then Below(t, s) else SameRank(t, s)
  {
    if UsefulPoll(s) { UsefulPollDescends(s); } else { LoopingIsFree(s); }
  }
}
