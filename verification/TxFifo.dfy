/** No byte is lost, duplicated or reordered on the way out, and DREIE is on
    exactly while bytes are queued. */
module TxFifo {
  import opened Bits
  import opened Ring
  import opened TxMachine

  /** What every step keeps, provided DREIE is never switched on over a drained ring. */
  ghost predicate Good(s: State) {
    && Bounded(s) && ByteIndex(s)
    && Fifo(s)
    && DreieTracksQueue(s)
    && MainHolds(s)
    && (s.inService ==> !Empty(s) && s.usart.dreie && s.usart.data.None?)
  }

  /** Outside the publish window DREIE is on iff the ring is non-empty. Inside
      it, the ring has shrunk by the services made since the head was stored,
      and DREIE is on iff it was on before and the ring has not drained. */
  ghost predicate DreieTracksQueue(s: State)
    requires Bounded(s)
  {
    if s.pc.EnableDre? then
      && |Queue(s)| == s.log.queued - s.log.services
      && (s.usart.dreie <==> 2 <= s.log.queued && !Empty(s))
      && (s.log.queued == 1 ==> s.log.services == 0)
      && 1 <= s.log.queued
    else
      s.usart.dreie <==> !Empty(s)
  }

  /** What the main thread has observed stays true until it acts on it. */
  ghost predicate MainHolds(s: State)
    requires Bounded(s)
  {
    match s.pc
    case CheckDre(_) => Empty(s)
    case ClearTxc(_) => Empty(s) && s.usart.data.None?
    case StoreData(_) => Empty(s) && s.usart.data.None?
    case StoreSlot(_) => Next(s.port.head, |s.port.buf|) != s.port.tail
    case StoreHead(c) => Next(s.port.head, |s.port.buf|) != s.port.tail && s.port.buf[s.port.head] == c
    case FlushTxc => Empty(s)
    case _ => true
  }

  /** The step that would switch DREIE on with nothing left to send. */
  predicate DrainedPublish(s: State, l: Label) {
    l.Main? && s.pc.EnableDre? && Empty(s)
  }

  /** A run in which no such step occurs. */
  ghost predicate Clean(s: State, ls: seq<Label>)
    requires Bounded(s)
    decreases |ls|
  {
    ls == [] || (!DrainedPublish(s, ls[0]) && Clean(Apply(s, ls[0]), ls[1..]))
  }

  /** A run in which at most one DRE service falls between a head store and the DREIE store. */
  ghost predicate OneService(s: State, ls: seq<Label>)
    requires Bounded(s)
    decreases |ls|
  {
    ls == [] || ((ls[0].Main? && s.pc.EnableDre? ==> s.log.services <= 1) && OneService(Apply(s, ls[0]), ls[1..]))
  }

  lemma InitGood(size: nat, frame: nat, irqOn: bool)
    requires 2 <= size <= 256
    ensures Good(Init(size, frame, irqOn))
  {
  }

  lemma TransmitKeepsFifo(s: State)
    requires Bounded(s) && Fifo(s)
    ensures Bounded(Transmit(s)) && Fifo(Transmit(s)) && Queue(Transmit(s)) == Queue(s)
  {
    hide Contents, Gap;
  }

  lemma TransmitGood(s: State)
    requires Good(s)
    ensures Good(Transmit(s))
  {
    TransmitKeepsFifo(s);
    hide Fifo, Gap, Contents, Held;
  }

  lemma EndServiceGood(s: State)
    requires Good(s) && s.inService
    ensures Good(EndService(s))
  {
    Pop(s.port.buf, s.port.head, s.port.tail);
  }

  lemma WriteStepGood(s: State)
    requires Good(s) && !s.inService && !DrainedPublish(s, Main)
    ensures Good(WriteStep(s))
  {
    hide Contents;
    if s.pc.StoreSlot? {
      HeadSlotIsOutside(s.port.buf, s.port.head, s.port.tail, s.pc.c);
    } else if s.pc.StoreHead? {
      Push(s.port.buf, s.port.head, s.port.tail);
    }
  }

  lemma StepGood(s: State, l: Label)
    requires Good(s) && Enabled(s, l) && !DrainedPublish(s, l)
    ensures Good(Apply(s, l))
  {
    match l
    case Main => if !Flushing(s) { WriteStepGood(s); }
    case Store => EndServiceGood(s);
    case Tick => TransmitGood(s);
    case _ =>
  }

  /** FIFO over whole runs: it holds on every run without a drained publish. */
  lemma {:induction false} CleanRunIsFifo(s: State, ls: seq<Label>)
    requires Good(s) && Admissible(s, ls) && Clean(s, ls)
    ensures Good(Exec(s, ls))
    decreases |ls|
  {
    if ls != [] {
      StepGood(s, ls[0]);
      CleanRunIsFifo(Apply(s, ls[0]), ls[1..]);
    }
  }

  /** One service in the publish window cannot drain the ring. */
  lemma {:induction false} OneServiceIsClean(s: State, ls: seq<Label>)
    requires Good(s) && Admissible(s, ls) && OneService(s, ls)
    ensures Clean(s, ls)
    decreases |ls|
  {
    if ls != [] {
      assert !DrainedPublish(s, ls[0]);
      StepGood(s, ls[0]);
      OneServiceIsClean(Apply(s, ls[0]), ls[1..]);
    }
  }

  /** The theorem the handler's missing emptiness test relies on. */
  lemma TransmitFifo(size: nat, frame: nat, irqOn: bool, ls: seq<Label>)
    requires 2 <= size <= 256 && var s := Init(size, frame, irqOn); Admissible(s, ls) && OneService(s, ls)
    ensures var t := Exec(Init(size, frame, irqOn), ls);
            && t.log.accepted == t.log.wire + Held(t.usart.shift) + Held(t.usart.data) + Queue(t)
            && (!t.pc.EnableDre? ==> (t.usart.dreie <==> Queue(t) != []))
            && (t.inService ==> Queue(t) != [])
  {
    InitGood(size, frame, irqOn);
    OneServiceIsClean(Init(size, frame, irqOn), ls);
    CleanRunIsFifo(Init(size, frame, irqOn), ls);
  }
}
