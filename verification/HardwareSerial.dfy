/** The transmit side of class HardwareSerial, stepping shared memory in place.
    Between any two of its accesses the handler and the transmitter may run;
    every execution is shown to be a run of the transmit machine. */
module HardwareSerialTx {
  import opened Bits
  import opened Ring
  import opened M = TxMachine
  import opened TxFifo
  import opened TxWindow
  import opened TxFlush
  import opened TxProgress

  /** The registers of one USART that transmission uses. */
  class UsartModule {
    var dreie: bool
    var txcif: bool
    var data: Option<byte>
    var shift: Option<byte>
    var ticks: nat
    const frame: nat

    constructor (frame: nat)
      ensures Registers() == M.Usart(false, false, None, None, 0, frame)
    {
      dreie, txcif, data, shift, ticks := false, false, None, None, 0;
      this.frame := frame;
    }

    ghost function Registers(): M.Usart
      reads this
    {
      M.Usart(dreie, txcif, data, shift, ticks, frame)
    }

    /** One clock of the transmitter. */
    method Clock()
      modifies this
      ensures Registers() == M.Clock(old(Registers()))
    {
      if shift.Some? {
        if ticks > 0 {
          ticks := ticks - 1;
        } else {
          shift := None;
          if data.None? { txcif := true; }
        }
      } else if data.Some? {
        shift, data, ticks := data, None, frame;
      }
    }
  }

  class HardwareSerial {
    const usart: UsartModule
    const txBuffer: array<byte>
    const log2Size: nat
    var txHead: nat
    var txTail: nat
    var written: bool
    var irqOn: bool               // SREG.I is set and CPUINT.STATUS is clear

    ghost const start: M.State
    ghost var trace: seq<Label>   // the run so far
    ghost var m: M.State          // and the machine state it leads to

    ghost predicate History()
      reads this
    {
      && 2 <= txBuffer.Length <= 256 && start == Init(txBuffer.Length, usart.frame, start.irqOn)
      && Admissible(start, trace) && m == Exec(start, trace)
    }

    ghost predicate Valid()
      reads this, usart, txBuffer
    {
      && 1 <= log2Size <= 8 && txBuffer.Length == Pow2(log2Size)
      && History()
      && m.port == Port(txBuffer[..], txHead, txTail, written)
      && m.usart == usart.Registers()
      && m.irqOn == irqOn
    }

    constructor (usart: UsartModule, log2Size: nat, irqOn: bool)
      requires 1 <= log2Size <= 8
      requires usart.Registers() == M.Usart(false, false, None, None, 0, usart.frame)
      ensures Valid() && m == start && trace == [] && m == Init(Pow2(log2Size), usart.frame, irqOn)
    {
      this.usart, this.log2Size, this.irqOn := usart, log2Size, irqOn;
      txBuffer := new byte[Pow2(log2Size)](_ => 0);
      txHead, txTail, written := 0, 0, false;
      start, trace, m := Init(Pow2(log2Size), usart.frame, irqOn), [], Init(Pow2(log2Size), usart.frame, irqOn);
      Pow2Grows(log2Size, 8);
      Powers();
      new;
      assert txBuffer[..] == seq(Pow2(log2Size), _ => 0);
    }

    /** Records that the access just made was label l. */
    ghost method Took(l: Label)
      requires History() && Enabled(m, l)
      modifies `trace, `m
      ensures History() && m == Apply(old(m), l)
      ensures trace == old(trace) + [l]
      ensures Program(trace) == Program(old(trace)) + (if l.Write? || l.Flush? || l.SetIrq? then [l] else [])
    {
      ExecAppend(start, trace, l);
      ProgramNext(trace, l);
      trace, m := trace + [l], Apply(m, l);
    }

    lemma StaysLive()
      requires History()
      ensures Live(m)
    {
      InitLive(txBuffer.Length, usart.frame, start.irqOn);
      LiveRun(start, trace);
    }

    /** The transmitter runs for any number of clocks. */
    method Clocks()
      requires Valid()
      modifies usart, `trace, `m
      ensures Valid() && Program(trace) == Program(old(trace)) && TransmitterRan(old(m), m)
    {
      var n: nat := *;
      while n > 0
        invariant Valid() && Program(trace) == Program(old(trace)) && TransmitterRan(old(m), m)
      {
        StaysLive();
        TransmitterRanStep(old(m), m);
        usart.Clock();
        Took(Tick);
        n := n - 1;
      }
    }

    /** The byte at the old tail has been stored, the tail has moved on, and DREIE is off
        if that was the last byte. */
    ghost predicate Serviced(tail: nat)
      reads this, usart, txBuffer
      requires Valid()
    {
      && tail < txBuffer.Length && usart.data == Some(txBuffer[tail])
      && txTail == (if tail + 1 == txBuffer.Length then 0 else tail + 1)
      && (txHead == txTail ==> !usart.dreie)
    }

    /** `_tx_data_empty_irq`: sends the tail slot without looking at the head
        first. Label `via` is the interrupt, or the poll, that leads here. */
    method TxDataEmptyIrq(ghost via: Label)
      requires Valid() && Enabled(m, via)
      requires via.Isr? || (via.Main? && UsefulPoll(m) && m.port.head != m.port.tail)
      modifies this`txTail, usart, `trace, `m
      ensures Valid() && Program(trace) == Program(old(trace))
      ensures SameMain(old(m), m) && m.pc == (if via.Isr? then old(m.pc) else AfterPoll(old(m.pc))) && Below(m, old(m))
      ensures Serviced(old(txTail))
    {
      var tail := txTail;
      var c := txBuffer[tail];
      ServiceOpens(m, via);
      StaysLive();
      usart.txcif := false;
      Took(via);
      Clocks();
      StaysLive();
      WholeService(old(m), via, m);
      SendTail(tail, c);
    }

    /** The handler from the TXDATAL store on. */
    method SendTail(sent: nat, c: byte)
      requires Valid() && m.inService && sent == txTail && c == txBuffer[sent]
      modifies this`txTail, usart, `trace, `m
      ensures Valid() && m == EndService(old(m)) && Program(trace) == Program(old(trace))
    {
      usart.data := Some(c);
      NextIsMask(sent, log2Size);
      var tail := And(sent + 1, txBuffer.Length - 1);
      if txHead == tail {
        usart.dreie := false;
      }
      txTail := tail;
      Took(Store);
    }

    /** The handler and the transmitter act for any finite while. */
    method Interfere()
      requires Valid() && !m.inService
      modifies this`txTail, usart, `trace, `m
      ensures Valid() && Program(trace) == Program(old(trace)) && BackgroundRan(old(m), m)
    {
      var n: nat := *;
      while n > 0
        invariant Valid() && Program(trace) == Program(old(trace)) && BackgroundRan(old(m), m)
      {
        ghost var before := m;
        Clocks();
        RankChain(old(m), before, m);
        if irqOn && usart.dreie && usart.data.None? {
          before := m;
          TxDataEmptyIrq(Isr);
          RankChain(old(m), before, m);
        }
        n := n - 1;
      }
    }

    method OneUsefulStep()
      requires Valid() && !m.inService && SomethingUseful(m)
      modifies this`txTail, usart, `trace, `m
      ensures Valid() && Program(trace) == Program(old(trace)) && BackgroundRan(old(m), m) && Below(m, old(m))
    {
      if usart.data.Some? || usart.shift.Some? {
        StaysLive();
        UsefulTick(m);
        usart.Clock();
        Took(Tick);
      } else {
        TxDataEmptyIrq(Isr);
      }
    }

    /** Interference that includes at least one useful step, if there is any to make. */
    method InterfereUsefully()
      requires Valid() && !m.inService
      modifies this`txTail, usart, `trace, `m
      ensures Valid() && Program(trace) == Program(old(trace)) && BackgroundRan(old(m), m)
      ensures Below(m, old(m)) || !SomethingUseful(m)
    {
      Interfere();
      ghost var before := m;
      if usart.data.Some? || usart.shift.Some? || (irqOn && usart.dreie) {
        OneUsefulStep();
        RankChain(old(m), before, m);
      }
    }

    /** `_poll_tx_data_empty`. */
    method PollTxDataEmpty()
      requires Valid() && !m.inService && (m.pc.PollWrite? || m.pc.PollFlush?)
      modifies this`txTail, usart, `trace, `m
      ensures Valid() && Program(trace) == Program(old(trace))
      ensures SameMain(old(m), m) && m.pc == AfterPoll(old(m.pc))
      ensures if UsefulPoll(old(m)) then Below(m, old(m)) else SameRank(m, old(m))
      ensures old(irqOn) || old(usart.data).Some? ==> m == old(m).(pc := AfterPoll(old(m.pc)))
      ensures !old(irqOn) && old(usart.data).None? && old(txHead == txTail) ==>
        m == old(m).(usart := old(m.usart).(dreie := false), pc := AfterPoll(old(m.pc)))
      ensures !old(irqOn) && old(usart.data).None? && old(txHead != txTail) ==> Serviced(old(txTail))
    {
      hide Exec, Admissible, Contents;
      StaysLive();
      if !irqOn && usart.data.None? && txHead != txTail {
        TxDataEmptyIrq(Main);
      } else {
        PollWithoutService(m);
        if !irqOn && usart.data.None? {
          usart.dreie := false;
        }
        Took(Main);
      }
    }

    /** Interference, then a poll; `polled` is the state the poll found. */
    method PollTurn() returns (ghost polled: M.State)
      requires Valid() && !m.inService && (m.pc.PollWrite? || m.pc.PollFlush?)
      modifies this`txTail, usart, `trace, `m
      ensures Valid() && Program(trace) == Program(old(trace))
      ensures SameMain(old(m), m) && m.pc == AfterPoll(old(m.pc))
      ensures Live(polled) && BackgroundRan(old(m), polled)
      ensures if UsefulPoll(polled) then Below(m, polled) else SameRank(m, polled)
    {
      Interfere();
      StaysLive();
      polled := m;
      PollTxDataEmpty();
    }

    /** One pass through a wait loop's body, with the interference around it. */
    method PollRound()
      requires Valid() && !m.inService && (m.pc.PollWrite? || m.pc.PollFlush?)
      modifies this`txTail, usart, `trace, `m
      ensures Valid() && Program(trace) == Program(old(trace))
      ensures SameMain(old(m), m) && m.pc == AfterPoll(old(m.pc))
      ensures Below(m, old(m)) || Quiet(old(m))
    {
      StaysLive();
      ghost var polled := PollTurn();
      ghost var serviced := m;
      InterfereUsefully();
      StaysLive();
      RankChain(polled, serviced, m);
      PollRoundDescends(old(m), polled, m);
    }

    /** The test of `write`'s wait loop. */
    method RingFull(i: nat, ghost c: byte) returns (full: bool)
      requires Valid() && !m.inService && m.pc == Wait(c) && i == Next(txHead, txBuffer.Length)
      modifies this`txTail, usart, `trace, `m
      ensures Valid() && Program(trace) == Program(old(trace)) && SameMain(old(m), m)
      ensures m.pc == if full then PollWrite(c) else StoreSlot(c)
      ensures full ==> !Quiet(m) && NotAbove(m, old(m))
    {
      Interfere();
      StaysLive();
      ghost var seen := m;
      LoopingIsFree(seen);
      full := i == txTail;
      Took(Main);
      RankChain(old(m), seen, m);
    }

    /** The wait loop of `write`: ends with a free slot, in every environment. */
    method WaitForRoom(i: nat, ghost c: byte)
      requires Valid() && !m.inService && m.pc == Wait(c) && i == Next(txHead, txBuffer.Length)
      modifies this`txTail, usart, `trace, `m
      ensures Valid() && Program(trace) == Program(old(trace))
      ensures SameMain(old(m), m) && m.pc == StoreSlot(c)
    {
      var full := RingFull(i, c);
      while full
        invariant Valid() && Program(trace) == Program(old(trace))
        invariant SameMain(old(m), m) && m.pc == (if full then PollWrite(c) else StoreSlot(c))
        invariant full ==> !Quiet(m)
        decreases full, Stray(m), Queued(m), Registers(m), FrameLeft(m), Pending(m)
      {
        ghost var tested := m;
        PollRound();
        ghost var polled := m;
        full := RingFull(i, c);
        if full { RankChain(tested, polled, m); }
      }
    }

    /** The fast path of `write`: the ring and the data register were seen empty. */
    method StoreDirectly(c: byte)
      requires Valid() && !m.inService && m.pc == ClearTxc(c)
      modifies this`txTail, usart, `trace, `m
      ensures Valid() && Program(trace) == Program(old(trace))
      ensures m.pc == Idle && !m.inService && m.irqOn == old(m.irqOn)
      ensures m.log.accepted == old(m.log.accepted) + [c]
    {
      usart.txcif := false;
      Took(Main);
      Interfere();
      usart.data := Some(c);
      Took(Main);
    }

    method FillSlot(c: byte)
      requires Valid() && !m.inService && m.pc == StoreSlot(c)
      modifies txBuffer, `trace, `m
      ensures Valid() && Program(trace) == Program(old(trace)) && m == M.FillSlot(old(m), c)
    {
      txBuffer[txHead] := c;
      Took(Main);
    }

    method MoveHead(i: nat, ghost c: byte)
      requires Valid() && !m.inService && m.pc == StoreHead(c) && i == Next(txHead, txBuffer.Length)
      modifies this`txHead, `trace, `m
      ensures Valid() && Program(trace) == Program(old(trace)) && m == PublishHead(old(m), c)
    {
      txHead := i;
      Took(Main);
    }

    method SwitchDreieOn()
      requires Valid() && !m.inService && m.pc.EnableDre?
      modifies usart, `trace, `m
      ensures Valid() && Program(trace) == Program(old(trace)) && m == M.SwitchDreieOn(old(m))
    {
      usart.dreie := true;
      Took(Main);
    }

    /** The slow path of `write`: queue the byte and switch DREIE on. */
    method Enqueue(c: byte)
      requires Valid() && !m.inService && m.pc == Wait(c)
      modifies this`txHead, this`txTail, txBuffer, usart, `trace, `m
      ensures Valid() && Program(trace) == Program(old(trace))
      ensures m.pc == Idle && !m.inService && m.irqOn == old(m.irqOn)
      ensures m.log.accepted == old(m.log.accepted) + [c]
    {
      NextIsMask(txHead, log2Size);
      var i := And(txHead + 1, txBuffer.Length - 1);
      WaitForRoom(i, c);
      Interfere();
      FillSlot(c);
      Interfere();
      MoveHead(i, c);
      Interfere();
      SwitchDreieOn();
    }

    /** `write`'s two tests: is the ring empty, and if so is TXDATAL free? */
    method TestForDirect(ghost c: byte) returns (direct: bool)
      requires Valid() && !m.inService && m.pc == CheckRing(c)
      modifies this`txTail, usart, `trace, `m
      ensures Valid() && Program(trace) == Program(old(trace)) && SameMain(old(m), m)
      ensures m.pc == if direct then ClearTxc(c) else Wait(c)
    {
      direct := txHead == txTail;
      Took(Main);
      if direct {
        Interfere();
        direct := usart.data.None?;
        Took(Main);
      }
    }

    /** `write`. It accepts exactly c, always returns, and if no DREIE store of
        the whole history met a drained ring, the FIFO invariant holds. */
    method Write(c: byte) returns (n: nat)
      requires Valid() && !m.inService && m.pc.Idle?
      modifies this`written, this`txHead, this`txTail, txBuffer, usart, `trace, `m
      ensures Valid() && !m.inService && m.pc.Idle? && irqOn == old(irqOn) && n == 1
      ensures Program(trace) == Program(old(trace)) + [Label.Write(c)]
      ensures m.log.accepted == old(m.log.accepted) + [c]
      ensures Clean(start, trace) ==> Good(m)
    {
      written := true;
      Took(Label.Write(c));
      Interfere();
      var direct := TestForDirect(c);
      Interfere();
      if direct {
        StoreDirectly(c);
      } else {
        Enqueue(c);
      }
      StaysGood();
      n := 1;
    }

    /** `flush`. It always returns; with a clean history, every accepted byte is
        then on the wire unless the transmitter struck the latest gap. */
    method Flush()
      requires Valid() && !m.inService && m.pc.Idle?
      modifies this`txTail, usart, `trace, `m
      ensures Valid() && !m.inService && m.pc.Idle? && irqOn == old(irqOn)
      ensures Program(trace) == Program(old(trace)) + [Label.Flush]
      ensures m.log.accepted == old(m.log.accepted)
      ensures Clean(start, trace) ==> m.log.wire == m.log.accepted || (m.log.struck && InFlight(m))
    {
      Took(Label.Flush);
      if !written {
        StaysGood();
        return;
      }
      var done := FlushTest();
      while !done
        invariant Valid() && Program(trace) == Program(old(trace)) + [Label.Flush]
        invariant SameMain(old(m), m) && m.pc == if done then Idle else PollFlush
        invariant done && Clean(start, trace) ==> m.log.wire == m.log.accepted || (m.log.struck && InFlight(m))
        invariant !done ==> !Quiet(m)
        decreases !done, Stray(m), Queued(m), Registers(m), FrameLeft(m), Pending(m)
      {
        ghost var tested := m;
        PollRound();
        ghost var polled := m;
        done := FlushTest();
        if !done { RankChain(tested, polled, m); }
      }
    }

    /** The condition of `flush`'s loop: DREIE off, then TXCIF set. */
    method FlushTest() returns (done: bool)
      requires Valid() && !m.inService && m.pc.FlushDre?
      modifies this`txTail, usart, `trace, `m
      ensures Valid() && Program(trace) == Program(old(trace)) && SameMain(old(m), m)
      ensures m.pc == if done then Idle else PollFlush
      ensures done && Clean(start, trace) ==> m.log.wire == m.log.accepted || (m.log.struck && InFlight(m))
      ensures !done ==> !Quiet(m) && NotAbove(m, old(m))
    {
      Interfere();
      StaysLive();
      ghost var seen := m;
      LoopingIsFree(seen);
      done := !usart.dreie;
      Took(Main);
      RankChain(old(m), seen, m);
      if done {
        seen := m;
        done := TestTxcif();
        if !done { RankChain(old(m), seen, m); }
      }
    }

    method TestTxcif() returns (done: bool)
      requires Valid() && !m.inService && m.pc.FlushTxc?
      modifies this`txTail, usart, `trace, `m
      ensures Valid() && Program(trace) == Program(old(trace)) && SameMain(old(m), m)
      ensures m.pc == if done then Idle else PollFlush
      ensures done && Clean(start, trace) ==> m.log.wire == m.log.accepted || (m.log.struck && InFlight(m))
      ensures !done ==> !Quiet(m) && NotAbove(m, old(m))
    {
      Interfere();
      StaysLive();
      StaysGood();
      ghost var seen, before := m, trace;
      LoopingIsFree(seen);
      if Quiet(seen) { QuietFlushReturns(seen); }
      done := usart.txcif;
      Took(Main);
      RankChain(old(m), seen, m);
      CleanConcat(start, before, [Main]);
      if Clean(start, trace) { FlushReturnsExactly(seen); }
    }

    /** `availableForWrite`: the head is the caller's own, so only the tail can move. */
    method AvailableForWrite() returns (n: int)
      requires Valid() && !m.inService && m.pc.Idle?
      modifies this`txTail, usart, `trace, `m
      ensures Valid() && BackgroundRan(old(m), m) && Program(trace) == Program(old(trace))
      ensures n == TxWindow.AvailableForWrite(m) == txBuffer.Length - 1 - |Queue(m)|
    {
      var head := txHead;
      Interfere();
      var tail := txTail;
      n := if head >= tail then txBuffer.Length - 1 - head + tail else tail - head - 1;
    }

    /** cli() and sei(), between calls. */
    method SetIrq(on: bool)
      requires Valid() && !m.inService && m.pc.Idle?
      modifies this`irqOn, `trace, `m
      ensures Valid() && irqOn == on && m == old(m).(irqOn := on)
      ensures Program(trace) == Program(old(trace)) + [Label.SetIrq(on)]
    {
      irqOn := on;
      Took(Label.SetIrq(on));
    }

    /** The machine theorems, applied to this object's history. */
    lemma StaysGood()
      requires History()
      ensures Clean(start, trace) ==> FlagExact(m)
    {
      InitFlagExact(txBuffer.Length, usart.frame, start.irqOn);
      if Clean(start, trace) { FlagRun(start, trace); }
    }
  }
}
