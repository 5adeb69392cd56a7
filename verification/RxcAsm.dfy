/** The assembly handler `_do_rxc` against its specification: errors recorded,
    parity-clean bytes queued unless the ring is full, everything else intact. */
module RxcAsm {
  import opened Bits
  import opened Ring
  import opened Avr
  import opened SerialLayout
  import DreAsm

  const CTRLB := 6
  const ERRORS := 0x46      // BUFOVF, FERR and PERR in RXDATAH
  const RING_OVERFLOW := 0x40

  /** What the handler is for: the new memory. A parity error drops the byte. */
  ghost function RxComplete(mem: Mem, obj: word, rx: nat, tx: nat): Mem
    requires Laid(mem, obj, rx, tx)
  {
    var usart := Module(mem, obj);
    var (dataH, c, head) := (mem[usart + RXDATAH], mem[usart + RXDATAL], mem[obj + RX_HEAD]);
    var state := OrByte(mem[obj + STATE], 2 * And(dataH, ERRORS));
    var next := Next(head, rx);
    if Bit(dataH, 1) then mem[obj + STATE := state]
    else if next == mem[obj + RX_TAIL] then mem[obj + STATE := OrByte(state, RING_OVERFLOW)]
    else mem[obj + RX_BUFFER + head := c][obj + RX_HEAD := next][obj + STATE := state]
  }

  /** The accesses: with the erratum workaround, start-frame detection goes off
      before the data registers are read, high byte first. */
  ghost function Accesses(mem: Mem, obj: word, wake: bool): seq<Access>
    requires obj + MODULE + 1 < 65536 && mem[obj + MODULE] < 0xC0
  {
    var usart := Module(mem, obj);
    (if wake then [Rd(usart + CTRLB), Wr(usart + CTRLB, And(mem[usart + CTRLB], 0xEF))] else [])
    + [Rd(usart + RXDATAH), Rd(usart + RXDATAL)]
  }

  /** `_state` after a frame: the buffer overflow, framing and parity errors of
      RXDATAH are recorded one place to the left, and a ring overflow at bit 6 when a
      parity-clean byte met a full ring. Nothing recorded is lost. */
  ghost predicate Recorded(now: byte, was: byte, dataH: byte, full: bool) {
    forall k :: 0 <= k < 8 ==>
      (Bit(now, k) <==> Bit(was, k) || (k in {2, 3, 7} && Bit(dataH, k - 1)) || (k == 6 && !Bit(dataH, 1) && full))
  }

  lemma ErrorBits(k: nat)
    requires k < 8
    ensures Bit(ERRORS, k) <==> k in {1, 2, 6}
    ensures Bit(RING_OVERFLOW, k) <==> k == 6
  {
    assert 0x46 / 2 == 35 && 35 / 2 == 17 && 17 / 2 == 8 && 8 / 2 == 4 && 4 / 2 == 2 && 2 / 2 == 1 && 1 / 2 == 0;
    assert 0x40 / 2 == 32 && 32 / 2 == 16 && 16 / 2 == 8;
    assert !Bit(0, 0) && Bit(1, 0) && !Bit(1, 1);
    assert !Bit(2, 0) && !Bit(4, 0) && !Bit(8, 0) && Bit(17, 0) && Bit(35, 0) && !Bit(16, 0) && !Bit(32, 0);
  }

  lemma ShiftedBit(a: nat, k: nat)
    ensures Bit(2 * a, k) <==> k > 0 && Bit(a, k - 1)
  {
    assert (2 * a) % 2 == 0 && (2 * a) / 2 == a;
  }

  lemma Records(was: byte, dataH: byte, full: bool)
    ensures var errors := OrByte(was, 2 * And(dataH, ERRORS));
            Recorded(if !Bit(dataH, 1) && full then OrByte(errors, RING_OVERFLOW) else errors, was, dataH, full)
  {
    var errors := OrByte(was, 2 * And(dataH, ERRORS));
    forall k | 0 <= k < 8
      ensures Bit(errors, k) <==> Bit(was, k) || (k in {2, 3, 7} && Bit(dataH, k - 1))
      ensures Bit(OrByte(errors, RING_OVERFLOW), k) <==> Bit(errors, k) || k == 6
    {
      hide Bit, And, Or;
      OrBit(was, 2 * And(dataH, ERRORS), k);
      ShiftedBit(And(dataH, ERRORS), k);
      if k > 0 {
        AndBit(dataH, ERRORS, k - 1);
        ErrorBits(k - 1);
      }
      OrBit(errors, RING_OVERFLOW, k);
      ErrorBits(k);
    }
  }

  lemma RxCompleteRecords(mem: Mem, obj: word, rx: nat, tx: nat)
    requires Laid(mem, obj, rx, tx)
    ensures Recorded(RxComplete(mem, obj, rx, tx)[obj + STATE], mem[obj + STATE], mem[Module(mem, obj) + RXDATAH],
                     Next(mem[obj + RX_HEAD], rx) == mem[obj + RX_TAIL])
  {
    hide Recorded, Bit, OrByte, And;
    Records(mem[obj + STATE], mem[Module(mem, obj) + RXDATAH], Next(mem[obj + RX_HEAD], rx) == mem[obj + RX_TAIL]);
  }

  /** What is read and written: RXDATAH, then RXDATAL; before them, with the erratum
      workaround, bit 4 of CTRLB, and no other, is switched off. */
  ghost predicate ReadsFrame(accesses: seq<Access>, usart: nat, ctrlb: byte, wake: bool)
    requires usart + 6 < 65536
  {
    var n := if wake then 2 else 0;
    && |accesses| == n + 2 && accesses[n..] == [Rd(usart + 1), Rd(usart)]
    && (wake ==> accesses[0] == Rd(usart + 6) && accesses[1].Wr? && accesses[1].addr == usart + 6
                 && forall k :: 0 <= k < 8 ==> (Bit(accesses[1].value, k) <==> k != 4 && Bit(ctrlb, k)))
  }

  lemma AccessesReadFrame(mem: Mem, obj: word, wake: bool)
    requires obj + MODULE + 1 < 65536 && mem[obj + MODULE] < 0xC0 && Module(mem, obj) + 6 < 65536
    ensures ReadsFrame(Accesses(mem, obj, wake), Module(mem, obj), mem[Module(mem, obj) + 6], wake)
  {
    var ctrlb := mem[Module(mem, obj) + 6];
    forall k | 0 <= k < 8 ensures Bit(And(ctrlb, 0xEF), k) <==> k != 4 && Bit(ctrlb, k) {
      Powers();
      hide And, Bit;
      ClearBit(ctrlb, 4, k);
    }
  }

  // The program text, in blocks.
  const SAVE1 := [Push(18), InSreg(18), Push(18), Push(19)]
  const SAVE2 := [Push(24), Push(25), Push(28), Push(29)]
  const USART_TO_Y := [Ld(28, 30, 8), Ldi(29, 8)]
  const LOADS := [Ld(24, 28, 1), Ld(25, 28, 0)]
  const MASK := [Andi(24, 0x46), Add(24, 24)]
  const READ := LOADS + MASK
  const ERR := [Ld(19, 30, 14), OrReg(19, 24)]
  const HEAD := [Ld(28, 30, 15), Ldi(24, 1), Add(24, 28)]
  const TAIL := [Ld(18, 30, 16), Cp(18, 24)]
  const SLOT := [Add(28, 30), Mov(29, 31)] + [Ldi(18, 0), Adc(29, 18)]
  const QUEUE := [St(28, 19, 25), St(30, 15, 24)]
  const END1 := [St(30, 14, 19)] + [Pop(29), Pop(28)] + [Pop(25), Pop(24)]
  const END2 := [Pop(19), Pop(18)]
  const END := END1 + END2 + DreAsm.RESTORE2

  /** The erratum workaround, where the part needs it. */
  function Wake(wake: bool): seq<Instr> {
    if wake then [Ld(18, 28, 6), Andi(18, 0xEF)] + [St(28, 6, 18)] else []
  }

  function Wrap(rx: nat): seq<Instr> {
    if rx == 256 then [] else [Andi(24, if 0 < rx < 256 then rx - 1 else 0)]
  }

  function Begin(wake: bool): seq<Instr> { SAVE1 + SAVE2 + USART_TO_Y + Wake(wake) + READ + ERR }

  /** Skip over the jump to the end if bit 2, the shifted parity error, is clear. */
  function Parity(rx: nat): seq<Instr> { [Sbrc(24, 2), Rjmp(12 + |Wrap(rx)|)] }

  function Locate(rx: nat): seq<Instr> { HEAD + Wrap(rx) + TAIL }

  /** `_do_rxc`; the two instructions after Reti are `_buff_full_rxc`. */
  function DoRxc(rx: nat, wake: bool): seq<Instr> {
    Begin(wake) + Parity(rx) + Locate(rx) + [Breq(18)] + (SLOT + QUEUE) + END + [Reti] + [Ori(19, 0x40), Rjmp(-14)]
  }

  /** Registers that the handler does not touch. */
  predicate Kept(r: Regs, was: Regs) {
    forall k :: 0 <= k < 32 && k != 18 && k != 19 && k != 24 && k != 25 && k != 28 && k != 29 ==> r[k] == was[k]
  }

  lemma Save(e: Env, s: Cpu)
    ensures Run(e, SAVE1 + SAVE2, s) ==
            s.(pc := s.pc + 8, r := s.r[18 := Pack(s.sreg)],
               stack := s.stack + [s.r[18], Pack(s.sreg), s.r[19]] + [s.r[24], s.r[25], s.r[28], s.r[29]])
  {
    Run4(e, Push(18), InSreg(18), Push(18), Push(19), s);
    var s1 := Run(e, SAVE1, s);
    Run4(e, Push(24), Push(25), Push(28), Push(29), s1);
    RunAppend(e, SAVE1, SAVE2, s);
  }

  lemma UsartToY(e: Env, s: Cpu)
    requires IO_END <= Ptr(s.r, 30) && Ptr(s.r, 30) + 32 < 65536
    ensures Run(e, USART_TO_Y, s) ==
            s.(pc := s.pc + 2, r := s.r[28 := s.mem[Ptr(s.r, 30) + MODULE]][29 := 8])
  {
    Run2(e, Ld(28, 30, 8), Ldi(29, 8), s);
  }

  lemma WakeOff(e: Env, wake: bool, s: Cpu)
    requires s.r[29] == 8 && s.r[28] < 0xC0
    ensures var t, usart := Run(e, Wake(wake), s), Ptr(s.r, 28);
            && t == s.(pc := s.pc + |Wake(wake)|, r := t.r, sreg := t.sreg,
                       log := s.log + if wake then [Rd(usart + CTRLB), Wr(usart + CTRLB, And(s.mem[usart + CTRLB], 0xEF))] else [])
            && Kept(t.r, s.r) && t.r[28] == s.r[28] && t.r[29] == s.r[29]
  {
    if wake {
      hide Run, Step, And;
      ReadCtrlb(e, s);
      WriteCtrlb(e, Run(e, [Ld(18, 28, 6), Andi(18, 0xEF)], s));
      RunAppend(e, [Ld(18, 28, 6), Andi(18, 0xEF)], [St(28, 6, 18)], s);
    } else {
      DreAsm.RunNothing(e, s);
    }
  }

  lemma ReadCtrlb(e: Env, s: Cpu)
    requires s.r[29] == 8 && s.r[28] < 0xC0
    ensures var t, usart := Run(e, [Ld(18, 28, 6), Andi(18, 0xEF)], s), Ptr(s.r, 28);
            t == s.(pc := s.pc + 2, r := s.r[18 := And(s.mem[usart + CTRLB], 0xEF)], sreg := t.sreg,
                    log := s.log + [Rd(usart + CTRLB)])
  {
    hide And;
    Run2(e, Ld(18, 28, 6), Andi(18, 0xEF), s);
  }

  lemma WriteCtrlb(e: Env, s: Cpu)
    requires s.r[29] == 8 && s.r[28] < 0xC0
    ensures Run(e, [St(28, 6, 18)], s) == s.(pc := s.pc + 1, log := s.log + [Wr(Ptr(s.r, 28) + CTRLB, s.r[18])])
  {
    Run1(e, St(28, 6, 18), s);
  }

  lemma Loads(e: Env, s: Cpu)
    requires s.r[29] == 8 && s.r[28] < 0xC0
    ensures var t, usart := Run(e, LOADS, s), Ptr(s.r, 28);
            && t == s.(pc := s.pc + 2, r := t.r, log := s.log + [Rd(usart + RXDATAH), Rd(usart + RXDATAL)])
            && t.r == s.r[24 := s.mem[usart + RXDATAH]][25 := s.mem[usart + RXDATAL]]
  {
    Run2(e, Ld(24, 28, 1), Ld(25, 28, 0), s);
  }

  lemma Mask(e: Env, s: Cpu)
    ensures var t := Run(e, MASK, s);
            && t == s.(pc := s.pc + 2, r := s.r[24 := 2 * And(s.r[24], ERRORS)], sreg := t.sreg)
  {
    Run2(e, Andi(24, 0x46), Add(24, 24), s);
  }

  lemma Read(e: Env, s: Cpu)
    requires s.r[29] == 8 && s.r[28] < 0xC0
    ensures var t, usart := Run(e, READ, s), Ptr(s.r, 28);
            && t == s.(pc := s.pc + 4, r := t.r, sreg := t.sreg, log := s.log + [Rd(usart + RXDATAH), Rd(usart + RXDATAL)])
            && Kept(t.r, s.r) && t.r[25] == s.mem[usart + RXDATAL]
            && t.r[24] == 2 * And(s.mem[usart + RXDATAH], ERRORS)
  {
    hide Run, Step, And;
    Loads(e, s);
    Mask(e, Run(e, LOADS, s));
    RunAppend(e, LOADS, MASK, s);
  }

  lemma Err(e: Env, s: Cpu)
    requires IO_END <= Ptr(s.r, 30) && Ptr(s.r, 30) + 32 < 65536
    ensures var t := Run(e, ERR, s);
            && t == s.(pc := s.pc + 2, r := t.r, sreg := t.sreg)
            && t.r == s.r[19 := OrByte(s.mem[Ptr(s.r, 30) + STATE], s.r[24])]
  {
    Run2(e, Ld(19, 30, 14), OrReg(19, 24), s);
  }

  /** After the first half: the errors are in r24 and r19, the byte in r25. */
  ghost predicate Received(s: Cpu, t: Cpu, obj: word, wake: bool)
    requires obj + RX_BUFFER < 65536 && s.mem[obj + MODULE] < 0xC0
  {
    var usart := Module(s.mem, obj);
    && t == s.(pc := t.pc, r := t.r, sreg := t.sreg, log := s.log + Accesses(s.mem, obj, wake),
               stack := s.stack + [s.r[18], Pack(s.sreg), s.r[19]] + [s.r[24], s.r[25], s.r[28], s.r[29]])
    && Kept(t.r, s.r)
    && t.r[25] == s.mem[usart + RXDATAL]
    && t.r[24] == 2 * And(s.mem[usart + RXDATAH], ERRORS)
    && t.r[19] == OrByte(s.mem[obj + STATE], t.r[24])
  }

  lemma FrontRuns(e: Env, obj: word, rx: nat, tx: nat, wake: bool, s: Cpu)
    requires Laid(s.mem, obj, rx, tx) && Ptr(s.r, 30) == obj
    ensures var t, usart := Run(e, SAVE1 + SAVE2 + USART_TO_Y + Wake(wake), s), Module(s.mem, obj);
            && t == s.(pc := s.pc + 10 + |Wake(wake)|, r := t.r, sreg := t.sreg,
                       log := s.log + if wake then [Rd(usart + CTRLB), Wr(usart + CTRLB, And(s.mem[usart + CTRLB], 0xEF))] else [],
                       stack := s.stack + [s.r[18], Pack(s.sreg), s.r[19]] + [s.r[24], s.r[25], s.r[28], s.r[29]])
            && Kept(t.r, s.r) && t.r[28] == s.mem[obj + MODULE] && t.r[29] == 8
  {
    hide Run, Step, And, Pack;
    Save(e, s);
    var s1 := Run(e, SAVE1 + SAVE2, s);
    UsartToY(e, s1);
    RunAppend(e, SAVE1 + SAVE2, USART_TO_Y, s);
    var s2 := Run(e, USART_TO_Y, s1);
    assert Ptr(s2.r, 28) == Module(s.mem, obj) && s2.mem == s.mem && s2.log == s.log;
    WakeOff(e, wake, s2);
    RunAppend(e, SAVE1 + SAVE2 + USART_TO_Y, Wake(wake), s);
  }

  lemma BeginRuns(e: Env, obj: word, rx: nat, tx: nat, wake: bool, s: Cpu)
    requires Laid(s.mem, obj, rx, tx) && Ptr(s.r, 30) == obj
    ensures var t := Run(e, Begin(wake), s); Received(s, t, obj, wake) && t.pc == s.pc + |Begin(wake)|
  {
    hide Run, Step, And, OrByte, Pack;
    FrontRuns(e, obj, rx, tx, wake, s);
    var s3 := Run(e, SAVE1 + SAVE2 + USART_TO_Y + Wake(wake), s);
    Read(e, s3);
    RunAppend(e, SAVE1 + SAVE2 + USART_TO_Y + Wake(wake), READ, s);
    Err(e, Run(e, READ, s3));
    RunAppend(e, SAVE1 + SAVE2 + USART_TO_Y + Wake(wake) + READ, ERR, s);
  }

  /** Bit 2 after the shift is the parity error of RXDATAH. */
  lemma ShiftedParity(h: byte)
    ensures Bit(2 * And(h, ERRORS), 2) <==> Bit(h, 1)
  {
    AndBit(h, ERRORS, 1);
    var a := And(h, ERRORS);
    assert Bit(2 * a, 2) == Bit(a, 1) by { assert 2 * a / 2 == a; }
  }

  lemma HeadRuns(e: Env, s: Cpu)
    requires IO_END <= Ptr(s.r, 30) && Ptr(s.r, 30) + 32 < 65536
    ensures var t, head := Run(e, HEAD, s), s.mem[Ptr(s.r, 30) + RX_HEAD];
            && t == s.(pc := s.pc + 3, r := t.r, sreg := t.sreg)
            && Kept(t.r, s.r) && t.r[19] == s.r[19] && t.r[25] == s.r[25]
            && t.r[28] == head && t.r[24] == (head as int + 1) % 256
  {
    LoadHead(e, s);
    var s1 := Run(e, [Ld(28, 30, 15), Ldi(24, 1)], s);
    Run1(e, Add(24, 28), s1);
    hide Run;
    RunAppend(e, [Ld(28, 30, 15), Ldi(24, 1)], [Add(24, 28)], s);
    assert HEAD == [Ld(28, 30, 15), Ldi(24, 1)] + [Add(24, 28)];
  }

  lemma LoadHead(e: Env, s: Cpu)
    requires IO_END <= Ptr(s.r, 30) && Ptr(s.r, 30) + 32 < 65536
    ensures Run(e, [Ld(28, 30, 15), Ldi(24, 1)], s) == s.(pc := s.pc + 2, r := s.r[28 := s.mem[Ptr(s.r, 30) + RX_HEAD]][24 := 1])
  {
    Run2(e, Ld(28, 30, 15), Ldi(24, 1), s);
  }

  lemma WrapHead(e: Env, rx: nat, s: Cpu)
    requires Size(rx) && s.r[28] < rx && s.r[24] == (s.r[28] as int + 1) % 256
    ensures var t := Run(e, Wrap(rx), s);
            && t == s.(pc := s.pc + |Wrap(rx)|, r := t.r, sreg := t.sreg)
            && t.r == s.r[24 := Next(s.r[28], rx)]
  {
    MaskedNext(s.r[28], rx);
    if rx == 256 {
      WrapsTo(s.r[28] as int + 1);
    } else {
      Run1(e, Andi(24, rx - 1), s);
    }
  }

  lemma TailRuns(e: Env, s: Cpu)
    requires IO_END <= Ptr(s.r, 30) && Ptr(s.r, 30) + 32 < 65536
    ensures var t, tail := Run(e, TAIL, s), s.mem[Ptr(s.r, 30) + RX_TAIL];
            && t == s.(pc := s.pc + 2, r := s.r[18 := tail], sreg := t.sreg)
            && (t.sreg.z <==> tail == s.r[24])
  {
    Run2(e, Ld(18, 30, 16), Cp(18, 24), s);
  }

  /** The next head is in r24, and Z says whether it is the tail. */
  lemma LocateRuns(e: Env, obj: word, rx: nat, tx: nat, s: Cpu)
    requires Laid(s.mem, obj, rx, tx) && Ptr(s.r, 30) == obj
    ensures var t, head := Run(e, Locate(rx), s), s.mem[obj + RX_HEAD];
            && t == s.(pc := s.pc + 5 + |Wrap(rx)|, r := t.r, sreg := t.sreg)
            && Kept(t.r, s.r) && t.r[19] == s.r[19] && t.r[25] == s.r[25]
            && t.r[28] == head && t.r[24] == Next(head, rx)
            && (t.sreg.z <==> s.mem[obj + RX_TAIL] == Next(head, rx))
  {
    hide Run, Step;
    HeadRuns(e, s);
    var s1 := Run(e, HEAD, s);
    WrapHead(e, rx, s1);
    RunAppend(e, HEAD, Wrap(rx), s);
    TailRuns(e, Run(e, Wrap(rx), s1));
    RunAppend(e, HEAD + Wrap(rx), TAIL, s);
  }

  lemma SlotLow(e: Env, s: Cpu)
    ensures var t, sum := Run(e, [Add(28, 30), Mov(29, 31)], s), s.r[28] as int + s.r[30];
            && t == s.(pc := s.pc + 2, r := s.r[28 := sum % 256][29 := s.r[31]], sreg := t.sreg)
            && t.sreg.c == (sum >= 256)
  {
    Run2(e, Add(28, 30), Mov(29, 31), s);
  }

  lemma SlotHigh(e: Env, s: Cpu)
    ensures var t := Run(e, [Ldi(18, 0), Adc(29, 18)], s);
            t == s.(pc := s.pc + 2, r := s.r[18 := 0][29 := (s.r[29] as int + B(s.sreg.c)) % 256], sreg := t.sreg)
  {
    Run2(e, Ldi(18, 0), Adc(29, 18), s);
  }

  lemma Carried(lo: byte, hi: byte, k: byte)
    requires Word(lo, hi) + k < 65536
    ensures Word((k as int + lo) % 256, (hi as int + B(k as int + lo >= 256)) % 256) == Word(lo, hi) + k
  {
  }

  /** Y ends 19 bytes before the slot to fill. */
  lemma SlotRuns(e: Env, s: Cpu)
    requires Ptr(s.r, 30) + s.r[28] < 65536
    ensures var t := Run(e, SLOT, s);
            && t == s.(pc := s.pc + 4, r := t.r, sreg := t.sreg)
            && Kept(t.r, s.r) && t.r[19] == s.r[19] && t.r[24] == s.r[24] && t.r[25] == s.r[25]
            && Ptr(t.r, 28) == Ptr(s.r, 30) + s.r[28]
  {
    hide Run, Step, Word;
    SlotLow(e, s);
    var s1 := Run(e, [Add(28, 30), Mov(29, 31)], s);
    SlotHigh(e, s1);
    RunAppend(e, [Add(28, 30), Mov(29, 31)], [Ldi(18, 0), Adc(29, 18)], s);
    Carried(s.r[30], s.r[31], s.r[28]);
    var t := Run(e, SLOT, s);
    assert t.r == s1.r[18 := 0][29 := (s1.r[29] as int + B(s1.sreg.c)) % 256];
  }

  lemma StoreStep(e: Env, s: Cpu, p: Pair, q: byte, x: Reg)
    requires IO_END <= Ptr(s.r, p) + q < 65536
    ensures Step(e, St(p, q, x), s) == s.(pc := s.pc + 1, mem := s.mem[Ptr(s.r, p) + q := s.r[x]])
  {
  }

  lemma QueueRuns(e: Env, s: Cpu)
    requires IO_END <= Ptr(s.r, 28) && Ptr(s.r, 28) + 19 < 65536
    requires IO_END <= Ptr(s.r, 30) && Ptr(s.r, 30) + 32 < 65536
    ensures Run(e, QUEUE, s) ==
            s.(pc := s.pc + 2, mem := s.mem[Ptr(s.r, 28) + RX_BUFFER := s.r[25]][Ptr(s.r, 30) + RX_HEAD := s.r[24]])
  {
    Run2(e, St(28, 19, 25), St(30, 15, 24), s);
    StoreStep(e, s, 28, 19, 25);
    StoreStep(e, Step(e, St(28, 19, 25), s), 30, 15, 24);
    hide Run, Step;
  }

  lemma End1Runs(e: Env, s: Cpu, st: seq<byte>, r24: byte, r25: byte, r28: byte, r29: byte)
    requires IO_END <= Ptr(s.r, 30) && Ptr(s.r, 30) + 32 < 65536
    requires s.stack == st + [r24, r25, r28, r29]
    ensures Run(e, END1, s) ==
            s.(pc := s.pc + 5, mem := s.mem[Ptr(s.r, 30) + STATE := s.r[19]], stack := st,
               r := s.r[29 := r29][28 := r28][25 := r25][24 := r24])
  {
    hide Run, Step;
    StoreState(e, s);
    var s1 := Run(e, [St(30, 14, 19)], s);
    assert s1.stack == st + [r24, r25] + [r28, r29];
    PopTwo(e, 29, 28, s1, st + [r24, r25], r29, r28);
    RunAppend(e, [St(30, 14, 19)], [Pop(29), Pop(28)], s);
    PopTwo(e, 25, 24, Run(e, [Pop(29), Pop(28)], s1), st, r25, r24);
    RunAppend(e, [St(30, 14, 19)] + [Pop(29), Pop(28)], [Pop(25), Pop(24)], s);
  }

  lemma StoreState(e: Env, s: Cpu)
    requires IO_END <= Ptr(s.r, 30) && Ptr(s.r, 30) + 32 < 65536
    ensures Run(e, [St(30, 14, 19)], s) == s.(pc := s.pc + 1, mem := s.mem[Ptr(s.r, 30) + STATE := s.r[19]])
  {
    Run1(e, St(30, 14, 19), s);
  }

  lemma End2Runs(e: Env, s: Cpu, st: seq<byte>, flags: byte, r19: byte)
    requires s.stack == st + [flags, r19]
    ensures Run(e, END2, s) == s.(pc := s.pc + 2, stack := st, r := s.r[19 := r19][18 := flags])
  {
    PopTwo(e, 19, 18, s, st, r19, flags);
  }

  /** The state byte is stored and every register and flag comes back. */
  lemma EndRuns(e: Env, s: Cpu, st: seq<byte>, was: Regs, flags: Sreg, zl: byte, zh: byte)
    requires IO_END <= Ptr(s.r, 30) && Ptr(s.r, 30) + 32 < 65536 && Kept(s.r, was)
    requires s.stack == st + [zl, zh] + [was[18], Pack(flags), was[19]] + [was[24], was[25], was[28], was[29]]
    ensures Run(e, END, s) ==
            s.(pc := s.pc + 11, mem := s.mem[Ptr(s.r, 30) + STATE := s.r[19]], stack := st, sreg := flags,
               r := was[30 := zl][31 := zh])
  {
    hide Run, Step;
    End1Runs(e, s, st + [zl, zh] + [was[18], Pack(flags), was[19]], was[24], was[25], was[28], was[29]);
    var s1 := Run(e, END1, s);
    assert st + [zl, zh] + [was[18], Pack(flags), was[19]] == st + [zl, zh] + [was[18]] + [Pack(flags), was[19]];
    End2Runs(e, s1, st + [zl, zh] + [was[18]], Pack(flags), was[19]);
    RunAppend(e, END1, END2, s);
    var s2 := Run(e, END2, s1);
    DreAsm.Restore2(e, s2, st, was[18], zl, zh, flags);
    RunAppend(e, END1 + END2, DreAsm.RESTORE2, s);
    assert Run(e, DreAsm.RESTORE2, s2).r == was[30 := zl][31 := zh];
  }

  lemma BeginIsStraight(wake: bool)
    ensures AllStraight(Begin(wake))
  {
    assert AllStraight(SAVE1 + SAVE2 + USART_TO_Y) && AllStraight(READ + ERR);
    StraightConcat(SAVE1 + SAVE2 + USART_TO_Y, Wake(wake));
    StraightConcat(SAVE1 + SAVE2 + USART_TO_Y + Wake(wake), READ + ERR);
    assert Begin(wake) == SAVE1 + SAVE2 + USART_TO_Y + Wake(wake) + (READ + ERR);
  }

  lemma LocateIsStraight(rx: nat)
    ensures AllStraight(Locate(rx))
  {
    StraightConcat(HEAD, Wrap(rx));
    StraightConcat(HEAD + Wrap(rx), TAIL);
  }

  /** Index of `_end_rxc`. */
  function EndAt(rx: nat, wake: bool): nat { |Begin(wake)| + 14 + |Wrap(rx)| }

  /** The ways of cutting the program that the proofs use. */
  lemma Cuts(rx: nat, wake: bool)
    ensures var code, rest := DoRxc(rx, wake), [Reti] + [Ori(19, 0x40), Rjmp(-14)];
            && code == [] + Begin(wake) + (Parity(rx) + Locate(rx) + [Breq(18)] + (SLOT + QUEUE) + END + rest)
            && code == Begin(wake) + Parity(rx) + Locate(rx) + ([Breq(18)] + (SLOT + QUEUE) + END + rest)
            && code == Begin(wake) + Parity(rx) + Locate(rx) + [Breq(18)] + (SLOT + QUEUE) + (END + rest)
            && code == Begin(wake) + Parity(rx) + Locate(rx) + [Breq(18)] + (SLOT + QUEUE) + END + rest
            && |Begin(wake) + Parity(rx) + Locate(rx)| == EndAt(rx, wake) - 7
  {
    hide Begin;
    Regroup(Begin(wake), Parity(rx), Locate(rx), [Breq(18)], SLOT + QUEUE, END, [Reti], [Ori(19, 0x40), Rjmp(-14)]);
  }

  lemma Regroup(a: seq<Instr>, b: seq<Instr>, c: seq<Instr>, d: seq<Instr>, f: seq<Instr>, g: seq<Instr>,
                reti: seq<Instr>, full: seq<Instr>)
    ensures var code, rest := a + b + c + d + f + g + reti + full, reti + full;
            && code == [] + a + (b + c + d + f + g + rest)
            && code == a + b + c + (d + f + g + rest)
            && code == a + b + c + d + f + (g + rest)
            && code == a + b + c + d + f + g + rest
  {
  }

  /** Which instruction stands where the branches meet. */
  lemma Landmarks(rx: nat, wake: bool)
    ensures var code, b, end := DoRxc(rx, wake), |Begin(wake)|, EndAt(rx, wake);
            && |code| == end + 14
            && code[b..b + 2] == Parity(rx) && code[end - 7] == Breq(18)
            && code[end + 11] == Reti && code[end + 12] == Ori(19, 0x40) && code[end + 13] == Rjmp(-14)
  {
    hide Begin;
    assert |Locate(rx)| == 5 + |Wrap(rx)|;
  }

  /** A parity error goes straight to the end. */
  lemma ParityBranches(e: Env, rx: nat, wake: bool, s: Cpu) returns (n: nat)
    requires s.pc == |Begin(wake)| && s.exit == Running
    ensures Exec(e, DoRxc(rx, wake), s, n) ==
            s.(pc := if Bit(s.r[24], 2) then EndAt(rx, wake) else |Begin(wake)| + 2)
  {
    hide DoRxc, Begin, Bit;
    var code := DoRxc(rx, wake);
    Landmarks(rx, wake);
    assert code[s.pc] == code[s.pc..s.pc + 2][0] == Sbrc(24, 2);
    assert code[s.pc + 1] == code[s.pc..s.pc + 2][1] == Rjmp(12 + |Wrap(rx)|);
    var s1 := Step(e, Sbrc(24, 2), s);
    if Bit(s.r[24], 2) {
      n := 2;
      var s2 := Step(e, Rjmp(12 + |Wrap(rx)|), s1);
      assert Exec(e, code, s1, 1) == Exec(e, code, s2, 0);
    } else {
      n := 1;
      assert Exec(e, code, s1, 0) == s1;
    }
  }

  lemma OverflowStep(e: Env, s: Cpu)
    ensures var t := Step(e, Ori(19, 0x40), s);
            t == s.(pc := s.pc + 1, r := s.r[19 := OrByte(s.r[19], RING_OVERFLOW)], sreg := t.sreg)
  {
  }

  /** A full ring takes the detour that records the overflow. */
  lemma FullBranches(e: Env, rx: nat, wake: bool, s: Cpu) returns (n: nat)
    requires s.pc == EndAt(rx, wake) - 7 && s.exit == Running
    ensures var t := Exec(e, DoRxc(rx, wake), s, n);
            if s.sreg.z then t == s.(pc := EndAt(rx, wake), r := s.r[19 := OrByte(s.r[19], RING_OVERFLOW)], sreg := t.sreg)
            else t == s.(pc := s.pc + 1)
  {
    hide Exec, Step, DoRxc, Begin, OrByte;
    var code := DoRxc(rx, wake);
    Landmarks(rx, wake);
    var s1 := Step(e, Breq(18), s);
    ZeroStep(e, s, 18);
    if s.sreg.z {
      n := 3;
      var s2 := Step(e, Ori(19, 0x40), s1);
      OverflowStep(e, s1);
      var s3 := Step(e, Rjmp(-14), s2);
      JumpStep(e, s2, -14);
      Exec3(e, code, s, s1, s2, s3);
    } else {
      n := 1;
      Exec1(e, code, s, s1, 0);
      Exec0(e, code, s1);
    }
  }

  lemma Ends(e: Env, rx: nat, wake: bool, s: Cpu, st: seq<byte>, was: Regs, flags: Sreg, zl: byte, zh: byte)
    requires s.pc == EndAt(rx, wake) && s.exit == Running
    requires IO_END <= Ptr(s.r, 30) && Ptr(s.r, 30) + 32 < 65536 && Kept(s.r, was)
    requires s.stack == st + [zl, zh] + [was[18], Pack(flags), was[19]] + [was[24], was[25], was[28], was[29]]
    ensures Exec(e, DoRxc(rx, wake), s, 12) ==
            s.(pc := s.pc + 11, mem := s.mem[Ptr(s.r, 30) + STATE := s.r[19]], stack := st, sreg := flags,
               r := was[30 := zl][31 := zh], exit := Returned)
  {
    hide DoRxc, Begin, Locate, Run, Exec, Step;
    var code := DoRxc(rx, wake);
    Cuts(rx, wake);
    Landmarks(rx, wake);
    EndRuns(e, s, st, was, flags, zl, zh);
    ExecBlock(e, Begin(wake) + Parity(rx) + Locate(rx) + [Breq(18)] + (SLOT + QUEUE), END,
              [Reti] + [Ori(19, 0x40), Rjmp(-14)], s);
    Returns(e, code, Exec(e, code, s, 11));
    ExecSplit(e, code, s, 11, 1);
  }

  /** With room in the ring: the byte goes to the head slot, then the head moves. */
  lemma Queues(e: Env, obj: word, rx: nat, tx: nat, wake: bool, s: Cpu)
    requires Laid(s.mem, obj, rx, tx) && Ptr(s.r, 30) == obj
    requires s.pc == EndAt(rx, wake) - 6 && s.exit == Running
    requires s.r[28] == s.mem[obj + RX_HEAD]
    ensures var t, head := Exec(e, DoRxc(rx, wake), s, 6), s.mem[obj + RX_HEAD];
            && t == s.(pc := s.pc + 6, r := t.r, sreg := t.sreg,
                       mem := s.mem[obj + RX_BUFFER + head := s.r[25]][obj + RX_HEAD := s.r[24]])
            && Kept(t.r, s.r) && t.r[19] == s.r[19]
  {
    hide DoRxc, Begin, Locate, Exec, Run, Step;
    Cuts(rx, wake);
    SlotRuns(e, s);
    QueueRuns(e, Run(e, SLOT, s));
    RunAppend(e, SLOT, QUEUE, s);
    ExecBlock(e, Begin(wake) + Parity(rx) + Locate(rx) + [Breq(18)], SLOT + QUEUE,
              END + ([Reti] + [Ori(19, 0x40), Rjmp(-14)]), s);
  }

  /** A parity-clean byte, from the load of the head to `_end_rxc`. */
  lemma CleanByte(e: Env, obj: word, rx: nat, tx: nat, wake: bool, s: Cpu) returns (n: nat)
    requires Laid(s.mem, obj, rx, tx) && Ptr(s.r, 30) == obj
    requires s.pc == |Begin(wake)| + 2 && s.exit == Running
    ensures var t, head := Exec(e, DoRxc(rx, wake), s, n), s.mem[obj + RX_HEAD];
            && t.pc == EndAt(rx, wake) && t.exit == Running && t.stack == s.stack && t.log == s.log && Kept(t.r, s.r)
            && if Next(head, rx) == s.mem[obj + RX_TAIL] then
                 t.mem == s.mem && t.r[19] == OrByte(s.r[19], RING_OVERFLOW)
               else
                 t.mem == s.mem[obj + RX_BUFFER + head := s.r[25]][obj + RX_HEAD := Next(head, rx)] && t.r[19] == s.r[19]
  {
    hide DoRxc, Begin, Exec, Run, Step, OrByte;
    var code := DoRxc(rx, wake);
    Cuts(rx, wake);
    LocateRuns(e, obj, rx, tx, s);
    LocateIsStraight(rx);
    ExecBlock(e, Begin(wake) + Parity(rx), Locate(rx),
              [Breq(18)] + (SLOT + QUEUE) + END + ([Reti] + [Ori(19, 0x40), Rjmp(-14)]), s);
    var s1 := Exec(e, code, s, |Locate(rx)|);
    var k := FullBranches(e, rx, wake, s1);
    ExecSplit(e, code, s, |Locate(rx)|, k);
    n := |Locate(rx)| + k;
    if !s1.sreg.z {
      Queues(e, obj, rx, tx, wake, Exec(e, code, s, n));
      ExecSplit(e, code, s, n, 6);
      n := n + 6;
    }
  }

  lemma InterruptRuns(e: Env, obj: word, rx: nat, tx: nat, wake: bool, s: Cpu, st: seq<byte>, zl: byte, zh: byte)
      returns (n: nat)
    requires Laid(s.mem, obj, rx, tx) && Ptr(s.r, 30) == obj && s.pc == 0 && s.exit == Running
    requires s.stack == st + [zl, zh]
    ensures var t := Exec(e, DoRxc(rx, wake), s, n);
            && t.exit == Returned
            && t.mem == RxComplete(s.mem, obj, rx, tx) && t.log == s.log + Accesses(s.mem, obj, wake)
            && t.r == s.r[30 := zl][31 := zh] && t.sreg == s.sreg && t.stack == st
  {
    hide DoRxc, Begin, Locate, Exec, Run, Step, OrByte, Bit;
    var code := DoRxc(rx, wake);
    Cuts(rx, wake);
    BeginRuns(e, obj, rx, tx, wake, s);
    BeginIsStraight(wake);
    ExecBlock(e, [], Begin(wake),
              Parity(rx) + Locate(rx) + [Breq(18)] + (SLOT + QUEUE) + END + ([Reti] + [Ori(19, 0x40), Rjmp(-14)]), s);
    var s1 := Exec(e, code, s, |Begin(wake)|);
    var k := ParityBranches(e, rx, wake, s1);
    ShiftedParity(s.mem[Module(s.mem, obj) + RXDATAH]);
    ExecSplit(e, code, s, |Begin(wake)|, k);
    n := |Begin(wake)| + k;
    var s2 := Exec(e, code, s, n);
    if !Bit(s1.r[24], 2) {
      var j := CleanByte(e, obj, rx, tx, wake, s2);
      ExecSplit(e, code, s, n, j);
      n := n + j;
    }
    Ends(e, rx, wake, Exec(e, code, s, n), st, s.r, s.sreg, zl, zh);
    ExecSplit(e, code, s, n, 12);
    n := n + 12;
  }

  /** The whole interrupt meets its specification, and gives back every register and flag. */
  lemma InterruptMeetsSpec(e: Env, obj: word, rx: nat, tx: nat, wake: bool, s: Cpu, st: seq<byte>, zl: byte, zh: byte)
      returns (n: nat)
    requires Laid(s.mem, obj, rx, tx) && Ptr(s.r, 30) == obj && s.pc == 0 && s.exit == Running
    requires s.stack == st + [zl, zh]
    ensures var t := Exec(e, DoRxc(rx, wake), s, n);
            && t.exit == Returned
            && t.mem == RxComplete(s.mem, obj, rx, tx) && t.log == s.log + Accesses(s.mem, obj, wake)
            && t.r == s.r[30 := zl][31 := zh] && t.sreg == s.sreg && t.stack == st
    ensures var t, usart := Exec(e, DoRxc(rx, wake), s, n), Module(s.mem, obj);
            && Recorded(t.mem[obj + STATE], s.mem[obj + STATE], s.mem[usart + RXDATAH],
                        Next(s.mem[obj + RX_HEAD], rx) == s.mem[obj + RX_TAIL])
            && |s.log| <= |t.log| && ReadsFrame(t.log[|s.log|..], usart, s.mem[usart + 6], wake)
  {
    n := InterruptRuns(e, obj, rx, tx, wake, s, st, zl, zh);
    hide DoRxc, Exec, Recorded, ReadsFrame, RxComplete, Accesses;
    RxCompleteRecords(s.mem, obj, rx, tx);
    AccessesReadFrame(s.mem, obj, wake);
    assert (s.log + Accesses(s.mem, obj, wake))[|s.log|..] == Accesses(s.mem, obj, wake);
  }
}
