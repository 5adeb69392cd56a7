/** The assembly handler `_do_dre` does what the C handler does, for every object
    address, every buffer size it accepts and every memory, and gives back every
    register and flag. */
module DreAsm {
  import opened Bits
  import opened Avr
  import opened Ring
  import opened SerialLayout

  /** The C handler `_tx_data_empty_irq` on the same memory: new memory, accesses. */
  ghost function TxDataEmptyIrq(mem: Mem, obj: word, rx: nat, tx: nat): (Mem, seq<Access>)
    requires Laid(mem, obj, rx, tx)
  {
    var usart := Module(mem, obj);
    var txTail := mem[obj + TX_TAIL];
    var c := mem[obj + RX_BUFFER + rx + txTail];
    var next: byte := And((txTail as int) + 1, tx - 1);
    var ctrla := mem[usart + CTRLA];
    (mem[obj + TX_TAIL := next],
     [Wr(usart + STATUS, 0x40), Wr(usart + TXDATAL, c), Rd(usart + CTRLA)]
     + if mem[obj + TX_HEAD] == next then [Wr(usart + CTRLA, And(ctrla, 0xDF))] else [])
  }

  // The program text, in blocks.
  const SAVE1 := [Push(18), InSreg(18), Push(18)]
  const SAVE2 := [Push(24), Push(25), Push(26), Push(27), SetT]
  const LOAD1 := [Push(28), Push(29), Ldi(18, 0), Ld(28, 30, 8), Ldi(29, 8)]
  const LOAD2 := [Ld(25, 30, 18), Movw(26, 30)] + [Add(26, 25), Adc(27, 18)]
  const STORE := [St(28, 4, 18), St(28, 2, 24)] + [Subi(25, 0xFF)]
  const SEND := [Ld(24, 26, 0), Ldi(18, 0x40)] + STORE
  const TEST := [Ld(24, 28, 5), Ld(18, 30, 17)]
  const OFF: seq<Instr> := [Cpse(18, 25), Rjmp(2), Andi(24, 0xDF), St(28, 5, 24)]
  const DONE := [St(30, 18, 25)] + [Pop(29), Pop(28)]
  const LEAVE := [Brts(1), JmpPollDone]
  const RESTORE1 := [Pop(27), Pop(26)] + [Pop(25), Pop(24)] + [Pop(18)]
  const RESTORE2 := [OutSreg(18), Pop(18)] + [Pop(31), Pop(30)]

  /** There is no add-immediate: subtract 65536 minus the offset. */
  function Offset(rx: nat): seq<Instr> {
    if rx == 256 then [Subi(26, 0xED), Sbci(27, 0xFE)]
    else if rx == 128 then [Subi(26, 0x6D), Sbci(27, 0xFF)]
    else if rx == 64 then [Subi(26, 0xAD), Sbci(27, 0xFF)]
    else if rx == 32 then [Adiw(26, 0x33)]
    else [Adiw(26, 0x23)]
  }

  function Wrap(tx: nat): seq<Instr> {
    if tx == 128 then [Andi(25, 0x7F)]
    else if tx == 64 then [Andi(25, 0x3F)]
    else if tx == 32 then [Andi(25, 0x1F)]
    else if tx == 16 then [Andi(25, 0x0F)]
    else []
  }

  function Service(rx: nat, tx: nat): seq<Instr> {
    LOAD1 + LOAD2 + Offset(rx) + SEND + (Wrap(tx) + TEST)
  }

  /** `_do_dre`, with `_poll_dre` at index 8. */
  function DoDre(rx: nat, tx: nat): seq<Instr> {
    SAVE1 + SAVE2 + Service(rx, tx) + OFF + DONE + LEAVE + (RESTORE1 + RESTORE2) + [Reti]
  }

  /** Registers that the handler does not touch at all. */
  predicate Kept(r: Regs, was: Regs) {
    forall k :: 0 <= k < 32 && k != 18 && !(24 <= k < 30) ==> r[k] == was[k]
  }

  predicate SameY(r: Regs, was: Regs) { r[28] == was[28] && r[29] == was[29] }

  lemma Save1(e: Env, s: Cpu)
    ensures Run(e, SAVE1, s) ==
            s.(pc := s.pc + 3, r := s.r[18 := Pack(s.sreg)], stack := s.stack + [s.r[18], Pack(s.sreg)])
  {
    Run3(e, Push(18), InSreg(18), Push(18), s);
  }

  lemma Save2(e: Env, s: Cpu)
    ensures Run(e, SAVE2, s) ==
            s.(pc := s.pc + 5, sreg := s.sreg.(t := true), stack := s.stack + [s.r[24], s.r[25], s.r[26], s.r[27]])
  {
    Run5(e, Push(24), Push(25), Push(26), Push(27), SetT, s);
  }

  lemma Load1(e: Env, s: Cpu)
    requires IO_END <= Ptr(s.r, 30) && Ptr(s.r, 30) + 32 < 65536
    ensures Run(e, LOAD1, s) ==
            s.(pc := s.pc + 5, stack := s.stack + [s.r[28], s.r[29]],
               r := s.r[18 := 0][28 := s.mem[Ptr(s.r, 30) + 8]][29 := 8])
  {
    Run5(e, Push(28), Push(29), Ldi(18, 0), Ld(28, 30, 8), Ldi(29, 8), s);
  }

  lemma TailToX(e: Env, s: Cpu)
    requires IO_END <= Ptr(s.r, 30) && Ptr(s.r, 30) + 32 < 65536
    ensures Run(e, [Ld(25, 30, 18), Movw(26, 30)], s) ==
            s.(pc := s.pc + 2, r := s.r[25 := s.mem[Ptr(s.r, 30) + 18]][26 := s.r[30]][27 := s.r[31]])
  {
    Run2(e, Ld(25, 30, 18), Movw(26, 30), s);
  }

  lemma AddPair(e: Env, s: Cpu)
    ensures var t := Run(e, [Add(26, 25), Adc(27, 18)], s);
            && t == s.(pc := s.pc + 2, r := t.r, sreg := t.sreg) && t.sreg.t == s.sreg.t
            && t.r == s.r[26 := (s.r[26] as int + s.r[25]) % 256]
                         [27 := (s.r[27] as int + s.r[18] + B(s.r[26] as int + s.r[25] >= 256)) % 256]
  {
    Run2(e, Add(26, 25), Adc(27, 18), s);
  }

  lemma Load2(e: Env, s: Cpu)
    requires IO_END <= Ptr(s.r, 30) && Ptr(s.r, 30) + 32 < 65536
    ensures var t, tail := Run(e, LOAD2, s), s.mem[Ptr(s.r, 30) + 18];
            && t == s.(pc := s.pc + 4, r := t.r, sreg := t.sreg)
            && t.sreg.t == s.sreg.t
            && Kept(t.r, s.r) && SameY(t.r, s.r) && t.r[25] == tail
            && t.r[26] == (s.r[30] as int + tail) % 256
            && t.r[27] == (s.r[31] as int + s.r[18] + B(s.r[30] as int + tail >= 256)) % 256
  {
    hide Run, Step;
    TailToX(e, s);
    AddPair(e, Run(e, [Ld(25, 30, 18), Movw(26, 30)], s));
    RunAppend(e, [Ld(25, 30, 18), Movw(26, 30)], [Add(26, 25), Adc(27, 18)], s);
  }

  /** Carry by carry, X ends at the address wanted. */
  lemma PointerSum(zl: byte, zh: byte, tail: byte, x: word)
    requires Word(zl, zh) + tail < 65536
    requires x == Word((zl as int + tail) % 256, (zh as int + B(zl as int + tail >= 256)) % 256)
    ensures x == Word(zl, zh) + tail
  {
  }

  lemma Borrow(xl: byte, xh: byte, lo: byte, hi: byte, rl: byte, rh: byte)
    requires Word(xl, xh) < Word(lo, hi)
    requires rl == (xl - lo) % 256 && rh == (xh - hi - B(xl < lo)) % 256
    ensures Word(rl, rh) == Word(xl, xh) + 65536 - Word(lo, hi)
  {
    assert rl == xl - lo + if xl < lo then 256 else 0;
    assert rh == xh - hi - B(xl < lo) + 256;
  }

  lemma SubtractPair(e: Env, lo: byte, hi: byte, s: Cpu)
    ensures var t := Run(e, [Subi(26, lo), Sbci(27, hi)], s);
            && t == s.(pc := s.pc + 2, r := t.r, sreg := t.sreg) && t.sreg.t == s.sreg.t
            && t.r == s.r[26 := (s.r[26] - lo) % 256][27 := (s.r[27] - hi - B(s.r[26] < lo)) % 256]
  {
    Run2(e, Subi(26, lo), Sbci(27, hi), s);
  }

  /** The two-instruction subtraction of 65536 - k adds k. */
  lemma SubtractComplement(e: Env, lo: byte, hi: byte, s: Cpu)
    requires var k := 65536 - Word(lo, hi); Ptr(s.r, 26) + k < 65536 && k < 65536
    ensures var code, k := [Subi(26, lo), Sbci(27, hi)], 65536 - Word(lo, hi);
            && var t := Run(e, code, s);
            && t == s.(pc := s.pc + 2, r := t.r, sreg := t.sreg) && t.sreg.t == s.sreg.t
            && Kept(t.r, s.r) && SameY(t.r, s.r) && t.r[25] == s.r[25]
            && Ptr(t.r, 26) == Ptr(s.r, 26) + k
  {
    hide Run, Step, Word;
    SubtractPair(e, lo, hi, s);
    var t := Run(e, [Subi(26, lo), Sbci(27, hi)], s);
    Borrow(s.r[26], s.r[27], lo, hi, t.r[26], t.r[27]);
  }

  lemma AddWord(e: Env, k: byte, s: Cpu)
    requires Ptr(s.r, 26) + k < 65536
    ensures var code := [Adiw(26, k)];
            && var t := Run(e, code, s);
            && t == s.(pc := s.pc + 1, r := t.r, sreg := t.sreg) && t.sreg.t == s.sreg.t
            && Kept(t.r, s.r) && SameY(t.r, s.r) && t.r[25] == s.r[25]
            && Ptr(t.r, 26) == Ptr(s.r, 26) + k
  {
    hide Run, Step, Word;
    Run1(e, Adiw(26, k), s);
    AdiwStep(e, k, s, Ptr(s.r, 26) + k);
    WordOf(Ptr(s.r, 26) + k);
  }

  lemma AdiwStep(e: Env, k: byte, s: Cpu, w: word)
    requires w == Ptr(s.r, 26) + k
    ensures var t := Step(e, Adiw(26, k), s);
            t == s.(pc := s.pc + 1, r := s.r[26 := w % 256][27 := w / 256], sreg := t.sreg) && t.sreg.t == s.sreg.t
  {
    hide Word;
  }

  /** Whatever the receive size, X moves from the object plus tail to
      `_tx_buffer[tail]`. (The source's comments give offsets 2 too small.) */
  lemma OffsetLandsOnSlot(e: Env, rx: nat, s: Cpu)
    requires Size(rx) && Ptr(s.r, 26) + RX_BUFFER + rx < 65536
    ensures var t := Run(e, Offset(rx), s);
            && t == s.(pc := s.pc + |Offset(rx)|, r := t.r, sreg := t.sreg) && t.sreg.t == s.sreg.t
            && Kept(t.r, s.r) && SameY(t.r, s.r) && t.r[25] == s.r[25]
            && Ptr(t.r, 26) == Ptr(s.r, 26) + RX_BUFFER + rx
  {
    if rx == 256 { SubtractComplement(e, 0xED, 0xFE, s); }
    else if rx == 128 { SubtractComplement(e, 0x6D, 0xFF, s); }
    else if rx == 64 { SubtractComplement(e, 0xAD, 0xFF, s); }
    else if rx == 32 { AddWord(e, 0x33, s); }
    else { AddWord(e, 0x23, s); }
  }

  lemma LoadByte(e: Env, s: Cpu)
    requires IO_END <= Ptr(s.r, 26)
    ensures Run(e, [Ld(24, 26, 0), Ldi(18, 0x40)], s) == s.(pc := s.pc + 2, r := s.r[24 := s.mem[Ptr(s.r, 26)]][18 := 0x40])
  {
    Run2(e, Ld(24, 26, 0), Ldi(18, 0x40), s);
  }

  lemma StoreTwice(e: Env, s: Cpu)
    requires s.r[29] == 8 && s.r[28] < 0xF0
    ensures var usart := Ptr(s.r, 28);
            Run(e, [St(28, 4, 18), St(28, 2, 24)], s) ==
            s.(pc := s.pc + 2, log := s.log + [Wr(usart + STATUS, s.r[18]), Wr(usart + TXDATAL, s.r[24])])
  {
    Run2(e, St(28, 4, 18), St(28, 2, 24), s);
  }

  lemma NextTail(e: Env, s: Cpu)
    ensures var t := Run(e, [Subi(25, 0xFF)], s);
            && t == s.(pc := s.pc + 1, r := s.r[25 := (s.r[25] as int + 1) % 256], sreg := t.sreg) && t.sreg.t == s.sreg.t
  {
    Run1(e, Subi(25, 0xFF), s);
  }

  lemma StoreByte(e: Env, s: Cpu)
    requires s.r[29] == 8 && s.r[28] < 0xF0
    ensures var t, usart := Run(e, STORE, s), Ptr(s.r, 28);
            && t == s.(pc := s.pc + 3, r := t.r, sreg := t.sreg,
                       log := s.log + [Wr(usart + STATUS, s.r[18]), Wr(usart + TXDATAL, s.r[24])])
            && t.sreg.t == s.sreg.t && t.r == s.r[25 := (s.r[25] as int + 1) % 256]
  {
    hide Run, Step;
    StoreTwice(e, s);
    NextTail(e, Run(e, [St(28, 4, 18), St(28, 2, 24)], s));
    RunAppend(e, [St(28, 4, 18), St(28, 2, 24)], [Subi(25, 0xFF)], s);
  }

  lemma Send(e: Env, s: Cpu)
    requires IO_END <= Ptr(s.r, 26) && s.r[29] == 8 && s.r[28] < 0xF0
    ensures var t, usart, c := Run(e, SEND, s), Ptr(s.r, 28), s.mem[Ptr(s.r, 26)];
            && t == s.(pc := s.pc + 5, r := t.r, sreg := t.sreg,
                       log := s.log + [Wr(usart + STATUS, 0x40), Wr(usart + TXDATAL, c)])
            && t.sreg.t == s.sreg.t
            && Kept(t.r, s.r) && SameY(t.r, s.r) && t.r[25] == (s.r[25] as int + 1) % 256
  {
    hide Run, Step;
    LoadByte(e, s);
    StoreByte(e, Run(e, [Ld(24, 26, 0), Ldi(18, 0x40)], s));
    RunAppend(e, [Ld(24, 26, 0), Ldi(18, 0x40)], STORE, s);
  }

  lemma RunNothing(e: Env, s: Cpu)
    ensures Run(e, [], s) == s
  {
  }

  lemma MaskTail(e: Env, k: byte, s: Cpu)
    ensures var t := Run(e, [Andi(25, k)], s);
            && t == s.(pc := s.pc + 1, r := s.r[25 := And(s.r[25], k)], sreg := t.sreg) && t.sreg.t == s.sreg.t
  {
    hide And;
    Run1(e, Andi(25, k), s);
  }

  lemma WrapTail(e: Env, tx: nat, tail: byte, s: Cpu)
    requires Size(tx) && tail < tx && s.r[25] == (tail as int + 1) % 256
    ensures And(tail as int + 1, tx - 1) < tx
    ensures var t := Run(e, Wrap(tx), s);
            && t == s.(pc := s.pc + |Wrap(tx)|, r := t.r, sreg := t.sreg) && t.sreg.t == s.sreg.t
            && Kept(t.r, s.r) && SameY(t.r, s.r) && t.r[25] == And(tail as int + 1, tx - 1)
  {
    hide And, Run, Step;
    MaskedNext(tail, tx);
    if tx == 256 {
      RunNothing(e, s);
    } else {
      assert Wrap(tx) == [Andi(25, tx - 1)];
      hide Wrap;
      MaskTail(e, tx - 1, s);
    }
  }

  lemma Test(e: Env, s: Cpu)
    requires IO_END <= Ptr(s.r, 30) && Ptr(s.r, 30) + 32 < 65536 && s.r[29] == 8 && s.r[28] < 0xC0
    ensures var t, usart := Run(e, TEST, s), Ptr(s.r, 28);
            && t == s.(pc := s.pc + 2, r := t.r, log := s.log + [Rd(usart + CTRLA)])
            && Kept(t.r, s.r) && SameY(t.r, s.r) && t.r[25] == s.r[25]
            && t.r[24] == s.mem[usart + CTRLA] && t.r[18] == s.mem[Ptr(s.r, 30) + TX_HEAD]
  {
    Run2(e, Ld(24, 28, 5), Ld(18, 30, 17), s);
  }

  /** From `_poll_dre` to the comparison with the head. */
  ghost predicate Serviced(s: Cpu, t: Cpu, obj: word, rx: nat, tx: nat)
    requires Laid(s.mem, obj, rx, tx)
  {
    var (usart, tail) := (Module(s.mem, obj), s.mem[obj + TX_TAIL]);
    && t == s.(pc := t.pc, r := t.r, sreg := t.sreg, stack := s.stack + [s.r[28], s.r[29]],
               log := s.log + [Wr(usart + STATUS, 0x40), Wr(usart + TXDATAL, s.mem[obj + RX_BUFFER + rx + tail]),
                               Rd(usart + CTRLA)])
    && t.sreg.t == s.sreg.t && Kept(t.r, s.r) && Ptr(t.r, 28) == usart && t.r[29] == 8
    && t.r[24] == s.mem[usart + CTRLA] && t.r[18] == s.mem[obj + TX_HEAD]
    && t.r[25] == And(tail as int + 1, tx - 1)
  }

  lemma Load(e: Env, obj: word, s: Cpu)
    requires IO_END <= obj && obj + 32 < 65536 && Ptr(s.r, 30) == obj && obj + s.mem[obj + TX_TAIL] < 65536
    ensures var t, tail := Run(e, LOAD1 + LOAD2, s), s.mem[obj + TX_TAIL];
            && t == s.(pc := s.pc + 9, r := t.r, sreg := t.sreg, stack := s.stack + [s.r[28], s.r[29]])
            && t.sreg.t == s.sreg.t && Kept(t.r, s.r)
            && t.r[28] == s.mem[obj + MODULE] && t.r[29] == 8 && t.r[25] == tail
            && Ptr(t.r, 26) == obj + tail
  {
    hide Run, Step;
    Load1(e, s);
    var s1 := Run(e, LOAD1, s);
    Load2(e, s1);
    RunAppend(e, LOAD1, LOAD2, s);
    PointerSum(s.r[30], s.r[31], s.mem[obj + TX_TAIL], Ptr(Run(e, LOAD2, s1).r, 26));
  }

  /** X then points at the slot to send. */
  lemma Select(e: Env, obj: word, rx: nat, tx: nat, s: Cpu)
    requires Laid(s.mem, obj, rx, tx) && Ptr(s.r, 30) == obj
    ensures var t := Run(e, LOAD1 + LOAD2 + Offset(rx), s);
            && t == s.(pc := s.pc + 9 + |Offset(rx)|, r := t.r, sreg := t.sreg, stack := s.stack + [s.r[28], s.r[29]])
            && t.sreg.t == s.sreg.t && Kept(t.r, s.r)
            && Ptr(t.r, 28) == Module(s.mem, obj) && t.r[29] == 8
            && t.r[25] == s.mem[obj + TX_TAIL]
            && Ptr(t.r, 26) == obj + RX_BUFFER + rx + s.mem[obj + TX_TAIL]
  {
    hide Run, Step;
    Load(e, obj, s);
    OffsetLandsOnSlot(e, rx, Run(e, LOAD1 + LOAD2, s));
    RunAppend(e, LOAD1 + LOAD2, Offset(rx), s);
  }

  lemma SelectAndSend(e: Env, obj: word, rx: nat, tx: nat, s: Cpu)
    requires Laid(s.mem, obj, rx, tx) && Ptr(s.r, 30) == obj
    ensures var t, usart := Run(e, LOAD1 + LOAD2 + Offset(rx) + SEND, s), Module(s.mem, obj);
            && t == s.(pc := s.pc + 14 + |Offset(rx)|, r := t.r, sreg := t.sreg, stack := s.stack + [s.r[28], s.r[29]],
                       log := s.log + [Wr(usart + STATUS, 0x40),
                                       Wr(usart + TXDATAL, s.mem[obj + RX_BUFFER + rx + s.mem[obj + TX_TAIL]])])
            && t.sreg.t == s.sreg.t && Kept(t.r, s.r)
            && Ptr(t.r, 28) == usart && t.r[29] == 8
            && t.r[25] == (s.mem[obj + TX_TAIL] as int + 1) % 256
  {
    hide Run, Step;
    Select(e, obj, rx, tx, s);
    Send(e, Run(e, LOAD1 + LOAD2 + Offset(rx), s));
    RunAppend(e, LOAD1 + LOAD2 + Offset(rx), SEND, s);
  }

  /** The next tail, CTRLA and the head, ready to compare. */
  lemma WrapAndTest(e: Env, tx: nat, tail: byte, s: Cpu)
    requires Size(tx) && tail < tx && s.r[25] == (tail as int + 1) % 256
    requires IO_END <= Ptr(s.r, 30) && Ptr(s.r, 30) + 32 < 65536 && s.r[29] == 8 && s.r[28] < 0xC0
    ensures And(tail as int + 1, tx - 1) < tx
    ensures var t, usart := Run(e, Wrap(tx) + TEST, s), Ptr(s.r, 28);
            && t == s.(pc := t.pc, r := t.r, sreg := t.sreg, log := s.log + [Rd(usart + CTRLA)])
            && t.sreg.t == s.sreg.t && Kept(t.r, s.r) && SameY(t.r, s.r)
            && t.r[24] == s.mem[usart + CTRLA] && t.r[18] == s.mem[Ptr(s.r, 30) + TX_HEAD]
            && t.r[25] == And(tail as int + 1, tx - 1)
  {
    hide Run, Step;
    WrapTail(e, tx, tail, s);
    Test(e, Run(e, Wrap(tx), s));
    RunAppend(e, Wrap(tx), TEST, s);
  }

  lemma ServiceRuns(e: Env, obj: word, rx: nat, tx: nat, s: Cpu)
    requires Laid(s.mem, obj, rx, tx) && Ptr(s.r, 30) == obj
    ensures Serviced(s, Run(e, Service(rx, tx), s), obj, rx, tx)
  {
    hide Run, Step, And, Offset, Wrap;
    SelectAndSend(e, obj, rx, tx, s);
    var sent := LOAD1 + LOAD2 + Offset(rx) + SEND;
    WrapAndTest(e, tx, s.mem[obj + TX_TAIL], Run(e, sent, s));
    RunAppend(e, sent, Wrap(tx) + TEST, s);
  }

  lemma CompareStep(e: Env, s: Cpu)
    ensures Step(e, Cpse(18, 25), s) == s.(pc := s.pc + 1 + if s.r[18] == s.r[25] then 1 else 0)
  {
  }

  lemma MaskStep(e: Env, s: Cpu)
    ensures var t := Step(e, Andi(24, 0xDF), s);
            t == s.(pc := s.pc + 1, r := s.r[24 := And(s.r[24], 0xDF)], sreg := t.sreg) && t.sreg.t == s.sreg.t
  {
  }

  lemma CtrlaStep(e: Env, s: Cpu)
    requires s.r[29] == 8 && s.r[28] < 0xC0
    ensures Step(e, St(28, 5, 24), s) == s.(pc := s.pc + 1, log := s.log + [Wr(Ptr(s.r, 28) + CTRLA, s.r[24])])
  {
  }

  /** DREIE goes off iff the new tail has met the head. */
  lemma SwitchOff(e: Env, code: seq<Instr>, s: Cpu) returns (n: nat)
    requires HasAt(code, s.pc, OFF) && s.exit == Running && s.r[29] == 8 && s.r[28] < 0xC0
    ensures var t, usart := Exec(e, code, s, n), Ptr(s.r, 28);
            && t == s.(pc := s.pc + 4, r := t.r, sreg := t.sreg,
                       log := s.log + if s.r[18] == s.r[25] then [Wr(usart + CTRLA, And(s.r[24], 0xDF))] else [])
            && t.sreg.t == s.sreg.t && Kept(t.r, s.r) && SameY(t.r, s.r) && t.r[25] == s.r[25]
  {
    hide Exec, Step, And;
    CompareStep(e, s);
    var s1 := Step(e, OFF[0], s);
    assert code[s.pc] == OFF[0];
    if s.r[18] != s.r[25] {
      n := 2;
      assert code[s.pc + 1] == OFF[1];
      JumpStep(e, s1, 2);
      Exec2(e, code, s, s1, Step(e, OFF[1], s1));
    } else {
      n := 3;
      assert code[s.pc + 2] == OFF[2] && code[s.pc + 3] == OFF[3];
      MaskStep(e, s1);
      var s2 := Step(e, OFF[2], s1);
      CtrlaStep(e, s2);
      Exec3(e, code, s, s1, s2, Step(e, OFF[3], s2));
    }
  }

  lemma Finish(e: Env, s: Cpu, st: seq<byte>, lo: byte, hi: byte)
    requires IO_END <= Ptr(s.r, 30) && Ptr(s.r, 30) + 32 < 65536
    requires s.stack == st + [lo, hi]
    ensures Run(e, DONE, s) ==
            s.(pc := s.pc + 3, mem := s.mem[Ptr(s.r, 30) + TX_TAIL := s.r[25]], stack := st,
               r := s.r[29 := hi][28 := lo])
  {
    hide Run, Step;
    StoreTail(e, s);
    PopTwo(e, 29, 28, Run(e, [St(30, 18, 25)], s), st, hi, lo);
    RunAppend(e, [St(30, 18, 25)], [Pop(29), Pop(28)], s);
  }

  lemma StoreTail(e: Env, s: Cpu)
    requires IO_END <= Ptr(s.r, 30) && Ptr(s.r, 30) + 32 < 65536
    ensures Run(e, [St(30, 18, 25)], s) == s.(pc := s.pc + 1, mem := s.mem[Ptr(s.r, 30) + TX_TAIL := s.r[25]])
  {
    Run1(e, St(30, 18, 25), s);
  }

  lemma Restore1(e: Env, s: Cpu, st: seq<byte>, r18: byte, flags: byte, r24: byte, r25: byte, r26: byte, r27: byte)
    requires s.stack == st + [r18, flags] + [r24, r25, r26, r27]
    ensures Run(e, RESTORE1, s) ==
            s.(pc := s.pc + 5, stack := st + [r18], r := s.r[27 := r27][26 := r26][25 := r25][24 := r24][18 := flags])
  {
    hide Run, Step;
    var b := st + [r18, flags];
    assert s.stack == b + [r24, r25] + [r26, r27];
    PopTwo(e, 27, 26, s, b + [r24, r25], r27, r26);
    var s1 := Run(e, [Pop(27), Pop(26)], s);
    PopTwo(e, 25, 24, s1, b, r25, r24);
    RunAppend(e, [Pop(27), Pop(26)], [Pop(25), Pop(24)], s);
    var s2 := Run(e, [Pop(25), Pop(24)], s1);
    assert s2.stack == (st + [r18]) + [flags];
    PopOne(e, 18, s2, st + [r18], flags);
    RunAppend(e, [Pop(27), Pop(26)] + [Pop(25), Pop(24)], [Pop(18)], s);
  }

  lemma PopOne(e: Env, d: Reg, s: Cpu, st: seq<byte>, v: byte)
    requires s.stack == st + [v]
    ensures Run(e, [Pop(d)], s) == s.(pc := s.pc + 1, r := s.r[d := v], stack := st)
  {
    Run1(e, Pop(d), s);
    PopStep(e, d, s, st, v);
  }

  lemma Restore2(e: Env, s: Cpu, st: seq<byte>, r18: byte, zl: byte, zh: byte, flags: Sreg)
    requires s.stack == st + [zl, zh] + [r18] && s.r[18] == Pack(flags)
    ensures Run(e, RESTORE2, s) ==
            s.(pc := s.pc + 4, stack := st, r := s.r[18 := r18][31 := zh][30 := zl], sreg := flags)
  {
    UnpackPack(flags);
    hide Run, Step, Pack, Unpack;
    FlagsBack(e, s, st + [zl, zh], r18);
    PopTwo(e, 31, 30, Run(e, [OutSreg(18), Pop(18)], s), st, zh, zl);
    RunAppend(e, [OutSreg(18), Pop(18)], [Pop(31), Pop(30)], s);
  }

  lemma FlagsBack(e: Env, s: Cpu, st: seq<byte>, r18: byte)
    requires s.stack == st + [r18]
    ensures Run(e, [OutSreg(18), Pop(18)], s) ==
            s.(pc := s.pc + 2, sreg := Unpack(s.r[18]), r := s.r[18 := r18], stack := st)
  {
    hide Unpack;
    Run2(e, OutSreg(18), Pop(18), s);
    PopStep(e, 18, Step(e, OutSreg(18), s), st, r18);
  }

  /** The epilogue returns the saved registers and flags in the right order. */
  lemma Restore(e: Env, s: Cpu, st: seq<byte>, was: Regs, flags: Sreg, zl: byte, zh: byte)
    requires s.stack == st + [zl, zh] + [was[18], Pack(flags)] + [was[24], was[25], was[26], was[27]]
    requires Kept(s.r, was) && SameY(s.r, was)
    ensures Run(e, RESTORE1 + RESTORE2, s) ==
            s.(pc := s.pc + 9, r := was[30 := zl][31 := zh], sreg := flags, stack := st)
  {
    hide Run, Step;
    Restore1(e, s, st + [zl, zh], was[18], Pack(flags), was[24], was[25], was[26], was[27]);
    var s1 := Run(e, RESTORE1, s);
    Restore2(e, s1, st, was[18], zl, zh, flags);
    RunAppend(e, RESTORE1, RESTORE2, s);
    assert Run(e, RESTORE2, s1).r == was[30 := zl][31 := zh];
  }

  lemma ServiceIsStraight(rx: nat, tx: nat)
    ensures AllStraight(Service(rx, tx))
  {
    assert AllStraight(LOAD1 + LOAD2) && AllStraight(Offset(rx));
    StraightConcat(LOAD1 + LOAD2, Offset(rx));
    StraightConcat(LOAD1 + LOAD2 + Offset(rx), SEND);
    StraightConcat(Wrap(tx), TEST);
    StraightConcat(LOAD1 + LOAD2 + Offset(rx) + SEND, Wrap(tx) + TEST);
  }

  /** The ways of cutting the program that the proofs use. */
  lemma Cuts(rx: nat, tx: nat)
    ensures var code, pre, post := DoDre(rx, tx), SAVE1 + SAVE2, LEAVE + (RESTORE1 + RESTORE2) + [Reti];
            && code == pre + Service(rx, tx) + (OFF + DONE + post)
            && code == (pre + Service(rx, tx)) + OFF + (DONE + post)
            && code == (pre + Service(rx, tx) + OFF) + DONE + post
  {
    hide Service;
  }

  /** Memory and log as the C handler would leave them. */
  ghost predicate AsInC(s: Cpu, t: Cpu, obj: word, rx: nat, tx: nat)
    requires Laid(s.mem, obj, rx, tx)
  {
    var (mem, accesses) := TxDataEmptyIrq(s.mem, obj, rx, tx);
    t.mem == mem && t.log == s.log + accesses
  }

  /** From `_poll_dre` to the test of the head. */
  lemma PollSends(e: Env, obj: word, rx: nat, tx: nat, s: Cpu)
    requires Laid(s.mem, obj, rx, tx) && Ptr(s.r, 30) == obj && s.pc == 8 && s.exit == Running
    ensures var t := Exec(e, DoDre(rx, tx), s, |Service(rx, tx)|);
            Serviced(s, t, obj, rx, tx) && t.pc == 8 + |Service(rx, tx)|
  {
    hide Exec, Run, Step, Service, DoDre;
    Cuts(rx, tx);
    ServiceRuns(e, obj, rx, tx, s);
    ServiceIsStraight(rx, tx);
    ExecBlock(e, SAVE1 + SAVE2, Service(rx, tx), OFF + DONE + (LEAVE + (RESTORE1 + RESTORE2) + [Reti]), s);
  }

  /** From the test of the head to the choice of exit. */
  lemma PollFinishes(e: Env, rx: nat, tx: nat, s: Cpu, st: seq<byte>, lo: byte, hi: byte) returns (n: nat)
    requires Size(rx) && Size(tx) && s.pc == 8 + |Service(rx, tx)| && s.exit == Running
    requires s.r[29] == 8 && s.r[28] < 0xC0 && s.stack == st + [lo, hi]
    requires IO_END <= Ptr(s.r, 30) && Ptr(s.r, 30) + 32 < 65536
    ensures var t, usart := Exec(e, DoDre(rx, tx), s, n), Ptr(s.r, 28);
            && t == s.(pc := s.pc + 7, r := t.r, sreg := t.sreg, stack := st,
                       mem := s.mem[Ptr(s.r, 30) + TX_TAIL := s.r[25]],
                       log := s.log + if s.r[18] == s.r[25] then [Wr(usart + CTRLA, And(s.r[24], 0xDF))] else [])
            && t.sreg.t == s.sreg.t && Kept(t.r, s.r) && t.r[28] == lo && t.r[29] == hi
  {
    hide Exec, Run, Step, Service, DoDre;
    Cuts(rx, tx);
    var pre, post := SAVE1 + SAVE2 + Service(rx, tx), LEAVE + (RESTORE1 + RESTORE2) + [Reti];
    TextAt(pre, OFF, DONE + post);
    var k := SwitchOff(e, DoDre(rx, tx), s);
    var s2 := Exec(e, DoDre(rx, tx), s, k);
    Finish(e, s2, st, lo, hi);
    ExecBlock(e, pre + OFF, DONE, post, s2);
    ExecSplit(e, DoDre(rx, tx), s, k, 3);
    n := k + 3;
  }

  /** From `_poll_dre` to the choice of exit. */
  lemma Poll(e: Env, obj: word, rx: nat, tx: nat, s: Cpu) returns (n: nat)
    requires Laid(s.mem, obj, rx, tx) && Ptr(s.r, 30) == obj && s.pc == 8 && s.exit == Running
    ensures var t := Exec(e, DoDre(rx, tx), s, n);
            && t.pc == 8 + |Service(rx, tx)| + 7 && t.exit == Running
            && t.stack == s.stack && t.sreg.t == s.sreg.t && Kept(t.r, s.r) && SameY(t.r, s.r)
            && AsInC(s, t, obj, rx, tx)
  {
    hide Exec, Run, Step, Service, DoDre;
    PollSends(e, obj, rx, tx, s);
    var s1 := Exec(e, DoDre(rx, tx), s, |Service(rx, tx)|);
    var k := PollFinishes(e, rx, tx, s1, s.stack, s.r[28], s.r[29]);
    ExecSplit(e, DoDre(rx, tx), s, |Service(rx, tx)|, k);
    n := |Service(rx, tx)| + k;
  }

  /** The saves, up to `_poll_dre`. */
  lemma Enter(e: Env, rx: nat, tx: nat, s: Cpu)
    requires s.pc == 0 && s.exit == Running
    ensures Exec(e, DoDre(rx, tx), s, 8) ==
            s.(pc := 8, r := s.r[18 := Pack(s.sreg)], sreg := s.sreg.(t := true),
               stack := s.stack + [s.r[18], Pack(s.sreg)] + [s.r[24], s.r[25], s.r[26], s.r[27]])
  {
    hide Exec, Run, Step, Service;
    Save1(e, s);
    Save2(e, Run(e, SAVE1, s));
    RunAppend(e, SAVE1, SAVE2, s);
    var rest := Service(rx, tx) + OFF + DONE + LEAVE + (RESTORE1 + RESTORE2) + [Reti];
    assert DoDre(rx, tx) == [] + (SAVE1 + SAVE2) + rest;
    ExecBlock(e, [], SAVE1 + SAVE2, rest, s);
  }

  /** Entered as an interrupt: the vector code has pushed r30 and r31 and put the
      object's address in Z. */
  lemma InterruptRefinesC(e: Env, obj: word, rx: nat, tx: nat, s: Cpu, st: seq<byte>, zl: byte, zh: byte)
      returns (n: nat)
    requires Laid(s.mem, obj, rx, tx) && Ptr(s.r, 30) == obj && s.pc == 0 && s.exit == Running
    requires s.stack == st + [zl, zh]
    ensures var t := Exec(e, DoDre(rx, tx), s, n);
            && t.exit == Returned
            && AsInC(s, t, obj, rx, tx)
            && t.r == s.r[30 := zl][31 := zh] && t.sreg == s.sreg && t.stack == st
  {
    hide Exec, Run, Step, Service, DoDre, Pack;
    var code := DoDre(rx, tx);
    Enter(e, rx, tx, s);
    var s1 := Exec(e, code, s, 8);
    var k := Poll(e, obj, rx, tx, s1);
    var s2 := Exec(e, code, s1, k);
    Leave(e, obj, rx, tx, s2, s.r, s.sreg, st, zl, zh);
    ExecSplit(e, code, s, 8, k);
    ExecSplit(e, code, s, 8 + k, 11);
    n := 8 + k + 11;
  }

  /** The end of the program: the choice of exit, the epilogue, the return. */
  lemma LeaveText(rx: nat, tx: nat)
    ensures var code, pre := DoDre(rx, tx), SAVE1 + SAVE2 + Service(rx, tx) + OFF + DONE + LEAVE;
            && code == pre + (RESTORE1 + RESTORE2) + [Reti] && |pre| == 8 + |Service(rx, tx)| + 9
            && code[|pre| - 2] == Brts(1) && code[|pre| - 1] == JmpPollDone && code[|pre| + 9] == Reti
            && |code| == |pre| + 10
  {
    hide Service;
  }

  lemma ExitStep(e: Env, s: Cpu)
    ensures Step(e, Brts(1), s) == s.(pc := s.pc + 1 + if s.sreg.t then 1 else 0)
  {
  }

  lemma Leave(e: Env, obj: word, rx: nat, tx: nat, s: Cpu, was: Regs, flags: Sreg, st: seq<byte>, zl: byte, zh: byte)
    requires s.pc == 8 + |Service(rx, tx)| + 7 && s.exit == Running && s.sreg.t
    requires s.stack == st + [zl, zh] + [was[18], Pack(flags)] + [was[24], was[25], was[26], was[27]]
    requires Kept(s.r, was) && SameY(s.r, was)
    ensures Exec(e, DoDre(rx, tx), s, 11) ==
            s.(pc := s.pc + 11, r := was[30 := zl][31 := zh], sreg := flags, stack := st, exit := Returned)
  {
    hide Exec, Run, Step, Service, DoDre, Pack;
    LeaveText(rx, tx);
    var code, pre := DoDre(rx, tx), SAVE1 + SAVE2 + Service(rx, tx) + OFF + DONE + LEAVE;
    ExitStep(e, s);
    var s1 := Step(e, Brts(1), s);
    Exec1(e, code, s, s1, 0);
    Exec0(e, code, s1);
    Restore(e, s1, st, was, flags, zl, zh);
    ExecBlock(e, pre, RESTORE1 + RESTORE2, [Reti], s1);
    Returns(e, code, Exec(e, code, s1, 9));
    ExecSplit(e, code, s, 1, 9);
    ExecSplit(e, code, s, 10, 1);
  }

  /** Entered from `_poll_tx_data_empty`, with T clear: same effect, and control
      goes back to the poll with the call-saved registers intact. */
  lemma PollRefinesC(e: Env, obj: word, rx: nat, tx: nat, s: Cpu) returns (n: nat)
    requires Laid(s.mem, obj, rx, tx) && Ptr(s.r, 30) == obj && s.pc == 8 && s.exit == Running && !s.sreg.t
    ensures var t := Exec(e, DoDre(rx, tx), s, n);
            && t.exit == PollDone
            && AsInC(s, t, obj, rx, tx)
            && Kept(t.r, s.r) && SameY(t.r, s.r) && t.stack == s.stack
  {
    hide Exec, Step, Service, DoDre;
    var k := Poll(e, obj, rx, tx, s);
    var code := DoDre(rx, tx);
    LeaveText(rx, tx);
    var s1 := Exec(e, code, s, k);
    ExitStep(e, s1);
    var s2 := Step(e, Brts(1), s1);
    DoneStep(e, s2);
    Exec2(e, code, s1, s2, Step(e, JmpPollDone, s2));
    ExecSplit(e, code, s, k, 2);
    n := k + 2;
  }

  lemma DoneStep(e: Env, s: Cpu)
    ensures Step(e, JmpPollDone, s) == s.(exit := PollDone)
  {
  }
}
