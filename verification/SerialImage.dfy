/** The memory image of a HardwareSerial object against the machines: one run of
    an assembly handler is one step of the transmit or receive machine. */
module SerialImage {
  import opened Bits
  import opened Ring
  import opened Avr
  import opened SerialLayout
  import DreAsm
  import RxcAsm
  import Tx = TxMachine
  import Rx = Spsc

  ghost predicate TxImage(mem: Mem, obj: word, rx: nat, tx: nat, p: Tx.Port)
    requires Laid(mem, obj, rx, tx)
  {
    var at := obj + RX_BUFFER + rx;
    mem[obj + TX_HEAD] == p.head && mem[obj + TX_TAIL] == p.tail && mem[at..at + tx] == p.buf
  }

  ghost predicate RxImage(mem: Mem, obj: word, rx: nat, tx: nat, s: Rx.State<byte>)
    requires Laid(mem, obj, rx, tx)
  {
    var at := obj + RX_BUFFER;
    mem[obj + RX_HEAD] == s.head && mem[obj + RX_TAIL] == s.tail && mem[at..at + rx] == s.buf
  }

  /** What the transmitter is told: clear TXCIF, then send c, then, if anything,
      CTRLA as read but with DREIE off. */
  ghost predicate Tells(accesses: seq<Access>, usart: nat, c: byte, ctrla: byte, off: bool)
    requires usart + CTRLA < 65536
  {
    && |accesses| == (if off then 4 else 3)
    && accesses[..3] == [Wr(usart + STATUS, 0x40), Wr(usart + TXDATAL, c), Rd(usart + CTRLA)]
    && (off ==> accesses[3].Wr? && accesses[3].addr == usart + CTRLA && OnlyDreieCleared(accesses[3].value, ctrla))
  }

  /** DREIE is bit 5. */
  ghost predicate OnlyDreieCleared(v: byte, ctrla: byte) {
    forall k :: 0 <= k < 8 ==> (Bit(v, k) <==> k != 5 && Bit(ctrla, k))
  }

  lemma DreieMask(ctrla: byte, k: nat)
    requires k < 8
    ensures Bit(And(ctrla, 0xDF), k) <==> k != 5 && Bit(ctrla, k)
  {
    Powers();
    hide And, Bit;
    ClearBit(ctrla, 5, k);
  }

  /** The C handler on the image is EndService after BeginService on the machine. */
  lemma CHandlerIsService(mem: Mem, obj: word, rx: nat, tx: nat, s: Tx.State)
    requires Laid(mem, obj, rx, tx) && TxImage(mem, obj, rx, tx, s.port) && Tx.Bounded(s) && s.usart.dreie
    ensures var (after, accesses) := DreAsm.TxDataEmptyIrq(mem, obj, rx, tx);
            var t, usart := Tx.EndService(Tx.BeginService(s)), Module(mem, obj);
            && Laid(after, obj, rx, tx) && TxImage(after, obj, rx, tx, t.port)
            && t.usart.data.Some?
            && Tells(accesses, usart, t.usart.data.value, mem[usart + CTRLA], !t.usart.dreie)
  {
    hide And, Bit;
    var (after, accesses) := DreAsm.TxDataEmptyIrq(mem, obj, rx, tx);
    var t := Tx.EndService(Tx.BeginService(s));
    var at, ctrla := obj + RX_BUFFER + rx, mem[Module(mem, obj) + CTRLA];
    assert mem[at..at + tx][s.port.tail] == mem[at + s.port.tail];
    assert after[at..at + tx] == mem[at..at + tx];
    MaskedNext(s.port.tail, tx);
    forall k | 0 <= k < 8 ensures Bit(And(ctrla, 0xDF), k) <==> k != 5 && Bit(ctrla, k) { DreieMask(ctrla, k); }
  }

  /** One DRE interrupt of the assembly is one service of the transmit machine. */
  lemma DreInterruptIsService(e: Env, obj: word, rx: nat, tx: nat, cpu: Cpu, st: seq<byte>, zl: byte, zh: byte, s: Tx.State)
      returns (n: nat)
    requires Laid(cpu.mem, obj, rx, tx) && Ptr(cpu.r, 30) == obj && cpu.pc == 0 && cpu.exit == Running
    requires cpu.stack == st + [zl, zh]
    requires TxImage(cpu.mem, obj, rx, tx, s.port) && Tx.Bounded(s) && Tx.Enabled(s, Tx.Isr)
    ensures var c := Exec(e, DreAsm.DoDre(rx, tx), cpu, n);
            var t, usart := Tx.Apply(Tx.Apply(s, Tx.Isr), Tx.Store), Module(cpu.mem, obj);
            && c.exit == Returned && c.r == cpu.r[30 := zl][31 := zh] && c.sreg == cpu.sreg && c.stack == st
            && Laid(c.mem, obj, rx, tx) && TxImage(c.mem, obj, rx, tx, t.port)
            && |cpu.log| <= |c.log| && c.log[..|cpu.log|] == cpu.log && t.usart.data.Some?
            && Tells(c.log[|cpu.log|..], usart, t.usart.data.value, cpu.mem[usart + CTRLA], !t.usart.dreie)
  {
    hide Exec, Tells, TxImage, DreAsm.DoDre;
    n := DreAsm.InterruptRefinesC(e, obj, rx, tx, cpu, st, zl, zh);
    CHandlerIsService(cpu.mem, obj, rx, tx, s);
    var accesses := DreAsm.TxDataEmptyIrq(cpu.mem, obj, rx, tx).1;
    assert (cpu.log + accesses)[|cpu.log|..] == accesses;
  }

  /** What a received frame offers to the ring: nothing, after a parity error. */
  function Offered(dataH: byte, c: byte): seq<byte> { if Bit(dataH, 1) then [] else [c] }

  /** The RXC specification on the image is one arrival at the receive machine. */
  lemma RxCompleteIsArrival(mem: Mem, obj: word, rx: nat, tx: nat, s: Rx.State<byte>)
    requires Laid(mem, obj, rx, tx) && RxImage(mem, obj, rx, tx, s) && Rx.Bounded(s)
    ensures var after, usart := RxcAsm.RxComplete(mem, obj, rx, tx), Module(mem, obj);
            var t := Rx.Apply(s, Rx.Arrive(Offered(mem[usart + RXDATAH], mem[usart + RXDATAL])));
            && Laid(after, obj, rx, tx) && RxImage(after, obj, rx, tx, t)
            && (forall p :: TxImage(mem, obj, rx, tx, p) ==> TxImage(after, obj, rx, tx, p))
  {
    var after, usart := RxcAsm.RxComplete(mem, obj, rx, tx), Module(mem, obj);
    var at, c, dataH := obj + RX_BUFFER, mem[usart + RXDATAL], mem[usart + RXDATAH];
    assert after[at + rx..at + rx + tx] == mem[at + rx..at + rx + tx];
    if !Bit(dataH, 1) && Next(s.head, rx) != s.tail {
      assert [c][1..] == [];
      assert Rx.Fill(s.buf, s.head, s.tail, [c]) == (s.buf[s.head := c], Next(s.head, rx));
      assert after[at..at + rx] == mem[at..at + rx][s.head := c];
    } else {
      assert after[at..at + rx] == mem[at..at + rx];
    }
  }

  /** One RXC interrupt of the assembly is one arrival. */
  lemma RxcInterruptIsArrival(e: Env, obj: word, rx: nat, tx: nat, wake: bool, cpu: Cpu, st: seq<byte>, zl: byte, zh: byte,
                              s: Rx.State<byte>)
      returns (n: nat)
    requires Laid(cpu.mem, obj, rx, tx) && Ptr(cpu.r, 30) == obj && cpu.pc == 0 && cpu.exit == Running
    requires cpu.stack == st + [zl, zh]
    requires RxImage(cpu.mem, obj, rx, tx, s) && Rx.Bounded(s)
    ensures var c, usart := Exec(e, RxcAsm.DoRxc(rx, wake), cpu, n), Module(cpu.mem, obj);
            var t := Rx.Apply(s, Rx.Arrive(Offered(cpu.mem[usart + RXDATAH], cpu.mem[usart + RXDATAL])));
            && c.exit == Returned && c.r == cpu.r[30 := zl][31 := zh] && c.sreg == cpu.sreg && c.stack == st
            && Laid(c.mem, obj, rx, tx) && RxImage(c.mem, obj, rx, tx, t)
  {
    hide Exec, RxImage, RxcAsm.DoRxc;
    n := RxcAsm.InterruptMeetsSpec(e, obj, rx, tx, wake, cpu, st, zl, zh);
    RxCompleteIsArrival(cpu.mem, obj, rx, tx, s);
  }
}
