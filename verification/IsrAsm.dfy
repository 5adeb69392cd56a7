/** The assembly dispatch loop of attachInterrupt against the C bit scan, for
    every flag byte and every behaviour of the user functions it calls. */
module IsrAsm {
  import opened Bits
  import opened Avr

  /** `intFunc[port][pin]()`, unless the entry is null when it is reached. */
  ghost function Handle(e: Env, table: word, pin: nat, mem: Mem, log: seq<Access>): (Mem, seq<Access>)
    requires table + 16 <= 65536 && pin < 8
  {
    var f := Word(mem[table + 2 * pin], mem[table + 2 * pin + 1]);
    if f == 0 then (mem, log) else (e.effect(log + [Call(f)], mem), log + [Call(f)])
  }

  /** The loop of `port_interrupt_handler`, from bit position pin on. */
  ghost function Scan(e: Env, table: word, flags: byte, pin: nat, mem: Mem, log: seq<Access>): (Mem, seq<Access>)
    requires table + 16 <= 65536 && pin <= 8
    decreases 8 - pin
  {
    if pin == 8 then (mem, log)
    else if Bit(flags, pin) then
      var (m, l) := Handle(e, table, pin, mem, log);
      Scan(e, table, flags, pin + 1, m, l)
    else Scan(e, table, flags, pin + 1, mem, log)
  }

  function Shift(a: nat, k: nat): (r: nat)
    ensures r <= a
  {
    if k == 0 then a else Shift(a / 2, k - 1)
  }

  lemma {:induction false} ShiftOnce(a: nat, k: nat)
    ensures Shift(a, k + 1) == Shift(a, k) / 2
    ensures Bit(a, k) <==> Shift(a, k) % 2 == 1
    decreases k
  {
    if k > 0 { ShiftOnce(a / 2, k - 1); }
  }

  /** Once the shifted flags are zero no higher bit is set. */
  lemma {:induction false} NothingLeft(e: Env, table: word, flags: byte, pin: nat, mem: Mem, log: seq<Access>)
    requires table + 16 <= 65536 && pin <= 8 && Shift(flags, pin) == 0
    ensures Scan(e, table, flags, pin, mem, log) == (mem, log)
    decreases 8 - pin
  {
    if pin < 8 {
      ShiftOnce(flags, pin);
      NothingLeft(e, table, flags, pin + 1, mem, log);
    }
  }

  lemma {:induction false} ShiftedOut(a: nat, k: nat)
    requires a < Pow2(k)
    ensures Shift(a, k) == 0
    decreases k
  {
    if k > 0 { ShiftedOut(a / 2, k - 1); }
  }

  // The loop; f is the register that holds the flags still to do.
  function Loop(f: Reg): (code: seq<Instr>)
    ensures |code| == 11
  {
    [Lsr(f), Brcs(3), Breq(8), Adiw(28, 2), Rjmp(-5),
     LdInc(30, 28), LdInc(31, 28), Sbiw(30, 0), Breq(-9), Icall, Rjmp(-11)]
  }

  /** What a pass of the loop leaves alone. */
  predicate Steady(s: Cpu, t: Cpu, f: Reg) {
    t.exit == Running && t.stack == s.stack && forall k :: 1 <= k <= 17 && k != f ==> t.r[k] == s.r[k]
  }

  predicate Goes(s: Cpu, pc: nat) { s.pc == pc && s.exit == Running }

  /** The loop is at its head, with the flags from bit pin on still to do. */
  ghost predicate AtHead(s: Cpu, at: nat, f: Reg, table: word, flags: byte, pin: nat) {
    && s.pc == at && s.exit == Running && pin <= 8
    && s.r[f] == Shift(flags, pin) && Ptr(s.r, 28) == table + 2 * pin && s.r[1] == 0
  }

  /** The loop stands in the program at index `at`. */
  predicate LoopAt(code: seq<Instr>, at: nat, f: Reg) {
    && at + 11 < |code|
    && code[at] == Lsr(f) && code[at + 1] == Brcs(3) && code[at + 2] == Breq(8) && code[at + 3] == Adiw(28, 2)
    && code[at + 4] == Rjmp(-5) && code[at + 5] == LdInc(30, 28) && code[at + 6] == LdInc(31, 28)
    && code[at + 7] == Sbiw(30, 0) && code[at + 8] == Breq(-9) && code[at + 9] == Icall && code[at + 10] == Rjmp(-11)
  }

  lemma LoopText(pre: seq<Instr>, f: Reg, post: seq<Instr>)
    requires post != []
    ensures LoopAt(pre + Loop(f) + post, |pre|, f)
  {
    var loop := Loop(f);
    assert forall i {:trigger loop[i]} :: 0 <= i < 11 ==> (pre + loop + post)[|pre| + i] == loop[i];
  }

  /** Shifting out one flag: carry is the flag, zero means none is left. */
  lemma ShiftStep(e: Env, f: Reg, s: Cpu, flags: byte, pin: nat)
    requires s.r[f] == Shift(flags, pin)
    ensures Step(e, Lsr(f), s) ==
            s.(pc := s.pc + 1, r := s.r[f := Shift(flags, pin + 1)],
               sreg := s.sreg.(c := Bit(flags, pin), z := Shift(flags, pin + 1) == 0))
  {
    ShiftOnce(flags, pin);
  }

  /** A clear bit, with others left: step to the next table entry. */
  lemma ClearBitSteps(e: Env, at: nat, f: Reg, s: Cpu, table: word, flags: byte, pin: nat)
    requires (f == 16 || f == 17) && table + 16 < 65536
    requires AtHead(s, at, f, table, flags, pin) && pin < 8 && !Bit(flags, pin) && Shift(flags, pin + 1) != 0
    ensures var s1 := Step(e, Lsr(f), s); var s2 := Step(e, Brcs(3), s1); var s3 := Step(e, Breq(8), s2);
            var s4 := Step(e, Adiw(28, 2), s3); var t := Step(e, Rjmp(-5), s4);
            && Goes(s, at) && Goes(s1, at + 1) && Goes(s2, at + 2) && Goes(s3, at + 3) && Goes(s4, at + 4)
            && AtHead(t, at, f, table, flags, pin + 1) && Steady(s, t, f) && t.mem == s.mem && t.log == s.log
  {
    hide Bit, Shift, Step;
    ShiftStep(e, f, s, flags, pin);
    var s1 := Step(e, Lsr(f), s);
    BranchStep(e, s1);
    var s2 := Step(e, Brcs(3), s1);
    ZeroStep(e, s2, 8);
    var s3 := Step(e, Breq(8), s2);
    NextEntry(e, s3);
    JumpStep(e, Step(e, Adiw(28, 2), s3), -5);
  }

  lemma ClearBit(e: Env, code: seq<Instr>, at: nat, f: Reg, s: Cpu, table: word, flags: byte, pin: nat)
    requires (f == 16 || f == 17) && LoopAt(code, at, f) && table + 16 < 65536
    requires AtHead(s, at, f, table, flags, pin) && pin < 8 && !Bit(flags, pin) && Shift(flags, pin + 1) != 0
    ensures var t := Exec(e, code, s, 5);
            AtHead(t, at, f, table, flags, pin + 1) && Steady(s, t, f) && t.mem == s.mem && t.log == s.log
  {
    hide Exec, Bit, Shift, Step, AtHead, Steady;
    ClearBitSteps(e, at, f, s, table, flags, pin);
    var s1 := Step(e, Lsr(f), s);
    var s2 := Step(e, Brcs(3), s1);
    var s3 := Step(e, Breq(8), s2);
    var s4 := Step(e, Adiw(28, 2), s3);
    Exec5(e, code, s, s1, s2, s3, s4, Step(e, Rjmp(-5), s4));
  }

  /** No bit left: leave the loop. */
  lemma NoBitSteps(e: Env, at: nat, f: Reg, s: Cpu, table: word, flags: byte, pin: nat)
    requires f == 16 || f == 17
    requires AtHead(s, at, f, table, flags, pin) && !Bit(flags, pin) && Shift(flags, pin + 1) == 0
    ensures var s1 := Step(e, Lsr(f), s); var s2 := Step(e, Brcs(3), s1); var t := Step(e, Breq(8), s2);
            && Goes(s, at) && Goes(s1, at + 1) && Goes(s2, at + 2)
            && t.pc == at + 11 && Steady(s, t, f) && t.mem == s.mem && t.log == s.log
  {
    hide Bit, Shift, Step;
    ShiftStep(e, f, s, flags, pin);
    var s1 := Step(e, Lsr(f), s);
    BranchStep(e, s1);
    ZeroStep(e, Step(e, Brcs(3), s1), 8);
  }

  lemma NoBit(e: Env, code: seq<Instr>, at: nat, f: Reg, s: Cpu, table: word, flags: byte, pin: nat)
    requires (f == 16 || f == 17) && LoopAt(code, at, f)
    requires AtHead(s, at, f, table, flags, pin) && !Bit(flags, pin) && Shift(flags, pin + 1) == 0
    ensures var t := Exec(e, code, s, 3);
            t.pc == at + 11 && Steady(s, t, f) && t.mem == s.mem && t.log == s.log
  {
    hide Exec, Bit, Shift, Step, AtHead, Steady;
    NoBitSteps(e, at, f, s, table, flags, pin);
    var s1 := Step(e, Lsr(f), s);
    var s2 := Step(e, Brcs(3), s1);
    Exec3(e, code, s, s1, s2, Step(e, Breq(8), s2));
  }

  /** Registers changed only within a set. */
  predicate OnlyChanged(r: Regs, was: Regs, ks: set<nat>) {
    forall k: nat :: k < 32 && k !in ks ==> r[k] == was[k]
  }

  lemma BranchStep(e: Env, s: Cpu)
    ensures Step(e, Brcs(3), s) == s.(pc := s.pc + 1 + if s.sreg.c then 3 else 0)
  {
  }

  lemma NextEntry(e: Env, s: Cpu)
    requires Ptr(s.r, 28) + 2 < 65536
    ensures var t := Step(e, Adiw(28, 2), s);
            && t == s.(pc := s.pc + 1, r := t.r, sreg := t.sreg)
            && OnlyChanged(t.r, s.r, {28, 29}) && Ptr(t.r, 28) == Ptr(s.r, 28) + 2
  {
  }

  lemma LoadByte(e: Env, s: Cpu, d: Reg)
    requires IO_END <= Ptr(s.r, 28) && Ptr(s.r, 28) + 1 < 65536 && (d == 30 || d == 31)
    ensures var t := Step(e, LdInc(d, 28), s);
            && t == s.(pc := s.pc + 1, r := t.r)
            && OnlyChanged(t.r, s.r, {28, 29, d}) && t.r[d] == s.mem[Ptr(s.r, 28)]
            && Ptr(t.r, 28) == Ptr(s.r, 28) + 1
  {
  }

  lemma TestNull(e: Env, s: Cpu)
    ensures var t := Step(e, Sbiw(30, 0), s);
            && t == s.(pc := s.pc + 1, sreg := t.sreg) && (t.sreg.z <==> Ptr(s.r, 30) == 0)
  {
    WordParts(s.r[30], s.r[31]);
    hide Word;
    assert s.r[30 := s.r[30]][31 := s.r[31]] == s.r;
  }

  /** A set bit: load the entry, advancing Y past it, and test it for null. */
  ghost predicate Loaded(s: Cpu, t: Cpu, at: nat, f: Reg, table: word, flags: byte, pin: nat)
    requires table + 16 < 65536 && pin < 8
  {
    && t.pc == at + 8 && Steady(s, t, f) && t.mem == s.mem && t.log == s.log
    && t.r[f] == Shift(flags, pin + 1) && Ptr(t.r, 28) == table + 2 * (pin + 1)
    && Ptr(t.r, 30) == Word(s.mem[table + 2 * pin], s.mem[table + 2 * pin + 1])
    && (t.sreg.z <==> Ptr(t.r, 30) == 0)
  }

  lemma SetBitSteps(e: Env, at: nat, f: Reg, s: Cpu, table: word, flags: byte, pin: nat)
    requires (f == 16 || f == 17) && IO_END <= table && table + 16 < 65536
    requires AtHead(s, at, f, table, flags, pin) && pin < 8 && Bit(flags, pin)
    ensures var s1 := Step(e, Lsr(f), s); var s2 := Step(e, Brcs(3), s1); var s3 := Step(e, LdInc(30, 28), s2);
            var s4 := Step(e, LdInc(31, 28), s3); var t := Step(e, Sbiw(30, 0), s4);
            && Goes(s, at) && Goes(s1, at + 1) && Goes(s2, at + 5) && Goes(s3, at + 6) && Goes(s4, at + 7)
            && Loaded(s, t, at, f, table, flags, pin)
  {
    hide Bit, Shift, Step;
    ShiftStep(e, f, s, flags, pin);
    var s1 := Step(e, Lsr(f), s);
    BranchStep(e, s1);
    var s2 := Step(e, Brcs(3), s1);
    LoadByte(e, s2, 30);
    var s3 := Step(e, LdInc(30, 28), s2);
    LoadByte(e, s3, 31);
    TestNull(e, Step(e, LdInc(31, 28), s3));
  }

  lemma SetBit(e: Env, code: seq<Instr>, at: nat, f: Reg, s: Cpu, table: word, flags: byte, pin: nat)
    requires (f == 16 || f == 17) && LoopAt(code, at, f) && IO_END <= table && table + 16 < 65536
    requires AtHead(s, at, f, table, flags, pin) && pin < 8 && Bit(flags, pin)
    ensures Loaded(s, Exec(e, code, s, 5), at, f, table, flags, pin)
  {
    hide Exec, Bit, Shift, Step, AtHead, Loaded;
    SetBitSteps(e, at, f, s, table, flags, pin);
    var s1 := Step(e, Lsr(f), s);
    var s2 := Step(e, Brcs(3), s1);
    var s3 := Step(e, LdInc(30, 28), s2);
    var s4 := Step(e, LdInc(31, 28), s3);
    Exec5(e, code, s, s1, s2, s3, s4, Step(e, Sbiw(30, 0), s4));
  }

  /** What is called, if anything, and back to the head. */
  ghost predicate Served(e: Env, s: Cpu, t: Cpu, at: nat, f: Reg, table: word, flags: byte, pin: nat)
    requires table + 16 < 65536 && pin < 8
  {
    && AtHead(t, at, f, table, flags, pin + 1) && Steady(s, t, f)
    && (t.mem, t.log) == Handle(e, table, pin, s.mem, s.log)
  }

  /** The entry just loaded, in a state that carries it. */
  ghost predicate Holds(s: Cpu, at: nat, f: Reg, table: word, flags: byte, pin: nat)
    requires table + 16 < 65536 && pin < 8
  {
    && Goes(s, at + 8) && s.r[1] == 0
    && s.r[f] == Shift(flags, pin + 1) && Ptr(s.r, 28) == table + 2 * (pin + 1)
    && Ptr(s.r, 30) == Word(s.mem[table + 2 * pin], s.mem[table + 2 * pin + 1])
    && (s.sreg.z <==> Ptr(s.r, 30) == 0)
  }

  lemma SkipSteps(e: Env, at: nat, f: Reg, s: Cpu, table: word, flags: byte, pin: nat)
    requires table + 16 < 65536 && pin < 8 && Holds(s, at, f, table, flags, pin) && s.sreg.z
    ensures Goes(s, at + 8) && Served(e, s, Step(e, Breq(-9), s), at, f, table, flags, pin)
  {
    hide Shift, Step;
    ZeroStep(e, s, -9);
  }

  lemma CallSteps(e: Env, at: nat, f: Reg, s: Cpu, table: word, flags: byte, pin: nat)
    requires (f == 16 || f == 17) && table + 16 < 65536 && pin < 8 && Holds(s, at, f, table, flags, pin) && !s.sreg.z
    ensures var s1 := Step(e, Breq(-9), s); var s2 := Step(e, Icall, s1);
            && Goes(s, at + 8) && Goes(s1, at + 9) && Goes(s2, at + 10)
            && Served(e, s, Step(e, Rjmp(-11), s2), at, f, table, flags, pin)
  {
    hide Shift, Step;
    ZeroStep(e, s, -9);
    var s1 := Step(e, Breq(-9), s);
    CallStep(e, s1);
    JumpStep(e, Step(e, Icall, s1), -11);
  }

  /** Call the entry unless it is null, and go round again. */
  lemma CallEntry(e: Env, code: seq<Instr>, at: nat, f: Reg, s: Cpu, table: word, flags: byte, pin: nat) returns (n: nat)
    requires (f == 16 || f == 17) && LoopAt(code, at, f) && table + 16 < 65536 && pin < 8
    requires Holds(s, at, f, table, flags, pin)
    ensures Served(e, s, Exec(e, code, s, n), at, f, table, flags, pin)
  {
    hide Exec, Step, Holds, Served;
    var s1 := Step(e, Breq(-9), s);
    if s.sreg.z {
      n := 1;
      SkipSteps(e, at, f, s, table, flags, pin);
      Exec1(e, code, s, s1, 0);
      Exec0(e, code, s1);
    } else {
      n := 3;
      CallSteps(e, at, f, s, table, flags, pin);
      var s2 := Step(e, Icall, s1);
      Exec3(e, code, s, s1, s2, Step(e, Rjmp(-11), s2));
    }
  }

  lemma CallStep(e: Env, s: Cpu)
    ensures var t, log := Step(e, Icall, s), s.log + [Call(Ptr(s.r, 30))];
            && t == s.(pc := s.pc + 1, r := t.r, sreg := t.sreg, mem := e.effect(log, s.mem), log := log)
            && t.r[1] == 0 && t.r[28] == s.r[28] && t.r[29] == s.r[29] && forall k :: 2 <= k <= 17 ==> t.r[k] == s.r[k]
  {
  }

  /** The loop calls what the C scan calls, in its order, and ends. */
  lemma {:induction false} LoopScans(e: Env, code: seq<Instr>, at: nat, f: Reg, s: Cpu, table: word, flags: byte, pin: nat)
      returns (n: nat)
    requires (f == 16 || f == 17) && LoopAt(code, at, f) && IO_END <= table && table + 16 < 65536
    requires AtHead(s, at, f, table, flags, pin)
    ensures var t := Exec(e, code, s, n);
            && t.pc == at + 11 && Steady(s, t, f)
            && (t.mem, t.log) == Scan(e, table, flags, pin, s.mem, s.log)
    decreases 8 - pin
  {
    hide Exec, Step, LoopAt, Handle;
    assert Shift(flags, 8) == 0 by { Powers(); ShiftedOut(flags, 8); }
    ShiftOnce(flags, pin);
    hide Shift, Bit;
    if Bit(flags, pin) {
      SetBit(e, code, at, f, s, table, flags, pin);
      var s1 := Exec(e, code, s, 5);
      var k := CallEntry(e, code, at, f, s1, table, flags, pin);
      var s2 := Exec(e, code, s1, k);
      var j := LoopScans(e, code, at, f, s2, table, flags, pin + 1);
      ExecSplit(e, code, s, 5, k);
      ExecSplit(e, code, s, 5 + k, j);
      n := 5 + k + j;
    } else if Shift(flags, pin + 1) == 0 {
      NoBit(e, code, at, f, s, table, flags, pin);
      n := 3;
      if pin < 8 { NothingLeft(e, table, flags, pin + 1, s.mem, s.log); }
    } else {
      ClearBit(e, code, at, f, s, table, flags, pin);
      var s1 := Exec(e, code, s, 5);
      var j := LoopScans(e, code, at, f, s1, table, flags, pin + 1);
      ExecSplit(e, code, s, 5, j);
      n := 5 + j;
    }
  }

  // The context, as the prologue saves it and the epilogue restores it.
  const SAVED: seq<Reg> := [15, 17, 18, 19, 20, 21, 22, 23, 24, 25, 26, 27, 28, 29, 30, 31]

  function Pushes(rs: seq<Reg>): (code: seq<Instr>)
    ensures |code| == |rs| && AllStraight(code)
  {
    seq(|rs|, i requires 0 <= i < |rs| => Push(rs[i]))
  }

  function Pops(rs: seq<Reg>): (code: seq<Instr>)
    ensures |code| == |rs| && AllStraight(code)
  {
    seq(|rs|, i requires 0 <= i < |rs| => Pop(rs[|rs| - 1 - i]))
  }

  function Values(r: Regs, rs: seq<Reg>): (vs: seq<byte>)
    ensures |vs| == |rs| && forall i :: 0 <= i < |rs| ==> vs[i] == r[rs[i]]
  {
    seq(|rs|, i requires 0 <= i < |rs| => r[rs[i]])
  }

  lemma {:induction false} PushesRun(e: Env, rs: seq<Reg>, s: Cpu)
    ensures Run(e, Pushes(rs), s) == s.(pc := s.pc + |rs|, stack := s.stack + Values(s.r, rs))
    decreases |rs|
  {
    if rs == [] {
      assert s.stack + Values(s.r, rs) == s.stack;
    } else {
      var t := Step(e, Push(rs[0]), s);
      assert Pushes(rs)[1..] == Pushes(rs[1..]);
      PushesRun(e, rs[1..], t);
      assert s.stack + Values(s.r, rs) == t.stack + Values(t.r, rs[1..]);
    }
  }

  predicate Distinct(rs: seq<Reg>) {
    forall i, j :: 0 <= i < j < |rs| ==> rs[i] != rs[j]
  }

  /** Popping in the opposite order puts every value back where it came from. */
  lemma {:induction false} PopsRun(e: Env, rs: seq<Reg>, s: Cpu, st: seq<byte>, vs: seq<byte>)
    requires Distinct(rs) && |vs| == |rs| && s.stack == st + vs
    ensures var t := Run(e, Pops(rs), s);
            && t == s.(pc := s.pc + |rs|, stack := st, r := t.r)
            && (forall i :: 0 <= i < |rs| ==> t.r[rs[i]] == vs[i])
            && (forall k: nat :: k < 32 && k !in rs ==> t.r[k] == s.r[k])
    decreases |rs|
  {
    if rs == [] {
      assert st + vs == st;
    } else {
      var n := |rs| - 1;
      assert Pops(rs)[1..] == Pops(rs[..n]);
      assert s.stack == (st + vs[..n]) + [vs[n]];
      PopStep(e, rs[n], s, st + vs[..n], vs[n]);
      var u := Step(e, Pop(rs[n]), s);
      assert Run(e, Pops(rs), s) == Run(e, Pops(rs[..n]), u);
      hide Step, Run, Pops;
      PopsRun(e, rs[..n], u, st, vs[..n]);
      OneMore(rs, s.r, u.r, Run(e, Pops(rs[..n]), u).r, vs);
    }
  }

  /** Registers after one pop and the rest of the pops. */
  lemma OneMore(rs: seq<Reg>, was: Regs, popped: Regs, end: Regs, vs: seq<byte>)
    requires Distinct(rs) && rs != [] && |vs| == |rs| && popped == was[rs[|rs| - 1] := vs[|rs| - 1]]
    requires var n := |rs| - 1;
      && (forall i :: 0 <= i < n ==> end[rs[..n][i]] == vs[..n][i])
      && (forall k: nat :: k < 32 && k !in rs[..n] ==> end[k] == popped[k])
    ensures forall i :: 0 <= i < |rs| ==> end[rs[i]] == vs[i]
    ensures forall k: nat :: k < 32 && k !in rs ==> end[k] == was[k]
  {
    var n := |rs| - 1;
    assert rs[n] !in rs[..n];
    forall i | 0 <= i < n ensures end[rs[i]] == vs[i] { assert end[rs[..n][i]] == vs[..n][i]; }
  }

  const ENTRY := [Push(0), InSreg(0), Push(0), Push(1), Eor(1, 1)]
  const INDEX := [Add(26, 16), Adc(27, 1)]
  const FETCH := [LdInc(28, 26), Ld(29, 26, 0)]
  const FIND := INDEX + FETCH
  const VPORT := [Add(16, 16), Subi(16, 253), Mov(26, 16), Ldi(27, 0)]
  const CLEAR := [Mov(26, 16), Ldi(27, 0), St(26, 0, 15)]
  const LEAVE1 := [Pop(1), Pop(0)] + [OutSreg(0)]
  const LEAVE2 := [Pop(0), Pop(16)]
  const LEAVE := LEAVE1 + LEAVE2

  /** X gets the address of intFunc from the compiler. */
  function Address(intFunc: word): seq<Instr> { [Ldi(26, intFunc % 256), Ldi(27, intFunc / 256)] }

  function Setup(intFunc: word): seq<Instr> {
    ENTRY + Pushes(SAVED) + Address(intFunc) + FIND + VPORT
  }

  // Index 10 of the source's second block tests X, which by now is not the table.
  const LOAD_FLAGS := [Ld(15, 26, 0), Sbiw(26, 0), Breq(12), Mov(17, 15)]

  /** `isrBody` with late clearing, from `AttachedISR`. */
  function IsrBody(intFunc: word): seq<Instr> {
    Setup(intFunc) + LOAD_FLAGS + Loop(17) + (CLEAR + Pops(SAVED) + LEAVE) + [Reti]
  }

  lemma EntryRuns(e: Env, s: Cpu)
    ensures Run(e, ENTRY, s) ==
            s.(pc := s.pc + 5, r := s.r[0 := Pack(s.sreg)][1 := 0], sreg := s.sreg.(z := true),
               stack := s.stack + [s.r[0], Pack(s.sreg), s.r[1]])
  {
    SelfAndOr(s.r[1]);
    Run5(e, Push(0), InSreg(0), Push(0), Push(1), Eor(1, 1), s);
    assert s.r[0 := Pack(s.sreg)][1] == s.r[1];
  }

  /** Where the table of a port is: intFunc is an array of pointers. */
  function Table(mem: Mem, intFunc: word, port: nat): word
    requires intFunc + 14 < 65536 && port < 7
  {
    Word(mem[intFunc + 2 * port], mem[intFunc + 2 * port + 1])
  }

  lemma IndexRuns(e: Env, s: Cpu)
    requires Ptr(s.r, 26) + s.r[16] < 65536 && s.r[1] == 0
    ensures var t := Run(e, INDEX, s);
            && t == s.(pc := s.pc + 2, r := t.r, sreg := t.sreg)
            && OnlyChanged(t.r, s.r, {26, 27}) && Ptr(t.r, 26) == Ptr(s.r, 26) + s.r[16]
  {
    Run2(e, Add(26, 16), Adc(27, 1), s);
    var t := Run(e, INDEX, s);
    assert t.r[26] == (s.r[26] as int + s.r[16]) % 256;
    assert t.r[27] == (s.r[27] as int + B(s.r[26] as int + s.r[16] >= 256)) % 256;
  }

  lemma FetchRuns(e: Env, s: Cpu)
    requires IO_END <= Ptr(s.r, 26) && Ptr(s.r, 26) + 1 < 65536
    ensures var t := Run(e, FETCH, s);
            && t == s.(pc := s.pc + 2, r := t.r)
            && OnlyChanged(t.r, s.r, {26, 27, 28, 29})
            && Ptr(t.r, 28) == Word(s.mem[Ptr(s.r, 26)], s.mem[Ptr(s.r, 26) + 1])
  {
    Run2(e, LdInc(28, 26), Ld(29, 26, 0), s);
  }

  lemma FindRuns(e: Env, s: Cpu, intFunc: word, port: nat)
    requires IO_END <= intFunc && intFunc + 14 < 65536 && port < 7
    requires Ptr(s.r, 26) == intFunc && s.r[16] == 2 * port && s.r[1] == 0
    ensures var t := Run(e, FIND, s);
            && t == s.(pc := s.pc + 4, r := t.r, sreg := t.sreg)
            && OnlyChanged(t.r, s.r, {26, 27, 28, 29}) && Ptr(t.r, 28) == Table(s.mem, intFunc, port)
  {
    hide Run, Step;
    IndexRuns(e, s);
    FetchRuns(e, Run(e, INDEX, s));
    RunAppend(e, INDEX, FETCH, s);
  }

  /** r16 and X hold the address of VPORTx.INTFLAGS. */
  lemma VportRuns(e: Env, s: Cpu, port: nat)
    requires port < 7 && s.r[16] == 2 * port
    ensures var t := Run(e, VPORT, s);
            && t == s.(pc := s.pc + 4, r := t.r, sreg := t.sreg)
            && OnlyChanged(t.r, s.r, {16, 26, 27}) && t.r[16] == 4 * port + 3 && Ptr(t.r, 26) == 4 * port + 3
  {
    hide Run, Step;
    VportOffset(e, s, port);
    var s1 := Run(e, [Add(16, 16), Subi(16, 253)], s);
    VportToX(e, s1);
    assert VPORT == [Add(16, 16), Subi(16, 253)] + [Mov(26, 16), Ldi(27, 0)];
    RunAppend(e, [Add(16, 16), Subi(16, 253)], [Mov(26, 16), Ldi(27, 0)], s);
  }

  lemma VportOffset(e: Env, s: Cpu, port: nat)
    requires port < 7 && s.r[16] == 2 * port
    ensures var t := Run(e, [Add(16, 16), Subi(16, 253)], s);
            t == s.(pc := s.pc + 2, r := s.r[16 := 4 * port + 3], sreg := t.sreg)
  {
    Run2(e, Add(16, 16), Subi(16, 253), s);
  }

  lemma VportToX(e: Env, s: Cpu)
    ensures Run(e, [Mov(26, 16), Ldi(27, 0)], s) == s.(pc := s.pc + 2, r := s.r[26 := s.r[16]][27 := 0])
  {
    Run2(e, Mov(26, 16), Ldi(27, 0), s);
  }

  lemma AddressRuns(e: Env, s: Cpu, intFunc: word)
    ensures Run(e, Address(intFunc), s) == s.(pc := s.pc + 2, r := s.r[26 := intFunc % 256][27 := intFunc / 256])
  {
    Run2(e, Ldi(26, intFunc % 256), Ldi(27, intFunc / 256), s);
  }

  /** Registers no user function and no part of the handler changes. */
  predicate Bystanders(r: Regs, was: Regs) {
    forall k :: 2 <= k <= 14 ==> r[k] == was[k]
  }

  /** Everything saved, Y at the port's table, r16 and X at its INTFLAGS. */
  ghost predicate Ready(s: Cpu, t: Cpu, intFunc: word, port: nat)
    requires intFunc + 14 < 65536 && port < 7
  {
    && t == s.(pc := t.pc, r := t.r, sreg := t.sreg,
               stack := s.stack + [s.r[0], Pack(s.sreg), s.r[1]] + Values(s.r, SAVED))
    && Bystanders(t.r, s.r) && t.r[1] == 0
    && Ptr(t.r, 28) == Table(s.mem, intFunc, port)
    && t.r[16] == 4 * port + 3 && Ptr(t.r, 26) == 4 * port + 3
  }

  lemma SetupRuns(e: Env, s: Cpu, intFunc: word, port: nat)
    requires IO_END <= intFunc && intFunc + 14 < 65536 && port < 7 && s.r[16] == 2 * port
    ensures var t := Run(e, Setup(intFunc), s);
            Ready(s, t, intFunc, port) && t.pc == s.pc + |Setup(intFunc)|
  {
    hide Run, Step, Pushes;
    EntryRuns(e, s);
    var s1 := Run(e, ENTRY, s);
    PushesRun(e, SAVED, s1);
    assert Values(s1.r, SAVED) == Values(s.r, SAVED);
    RunAppend(e, ENTRY, Pushes(SAVED), s);
    var s2 := Run(e, Pushes(SAVED), s1);
    AddressRuns(e, s2, intFunc);
    RunAppend(e, ENTRY + Pushes(SAVED), Address(intFunc), s);
    var s3 := Run(e, Address(intFunc), s2);
    FindRuns(e, s3, intFunc, port);
    RunAppend(e, ENTRY + Pushes(SAVED) + Address(intFunc), FIND, s);
    var s4 := Run(e, FIND, s3);
    VportRuns(e, s4, port);
    RunAppend(e, ENTRY + Pushes(SAVED) + Address(intFunc) + FIND, VPORT, s);
  }

  lemma ClearRuns(e: Env, s: Cpu)
    ensures var t := Run(e, CLEAR, s);
            && t == s.(pc := s.pc + 3, r := t.r, log := s.log + [Wr(s.r[16], s.r[15])])
            && OnlyChanged(t.r, s.r, {26, 27})
  {
    Run3(e, Mov(26, 16), Ldi(27, 0), St(26, 0, 15), s);
  }

  lemma Leave1Runs(e: Env, s: Cpu, st: seq<byte>, flags: Sreg, r1: byte)
    requires s.stack == st + [Pack(flags), r1]
    ensures Run(e, LEAVE1, s) == s.(pc := s.pc + 3, r := s.r[1 := r1][0 := Pack(flags)], stack := st, sreg := flags)
  {
    UnpackPack(flags);
    hide Run, Step, Pack, Unpack;
    PopTwo(e, 1, 0, s, st, r1, Pack(flags));
    SregBack(e, 0, Run(e, [Pop(1), Pop(0)], s));
    RunAppend(e, [Pop(1), Pop(0)], [OutSreg(0)], s);
  }

  lemma Leave2Runs(e: Env, s: Cpu, st: seq<byte>, r16: byte, r0: byte)
    requires s.stack == st + [r16, r0]
    ensures Run(e, LEAVE2, s) == s.(pc := s.pc + 2, r := s.r[0 := r0][16 := r16], stack := st)
  {
    PopTwo(e, 0, 16, s, st, r0, r16);
  }

  lemma LeaveRuns(e: Env, s: Cpu, st: seq<byte>, r16: byte, r0: byte, flags: Sreg, r1: byte)
    requires s.stack == st + [r16, r0, Pack(flags), r1]
    ensures var t := Run(e, LEAVE, s);
            && t == s.(pc := s.pc + 5, r := t.r, stack := st, sreg := flags)
            && OnlyChanged(t.r, s.r, {0, 1, 16}) && t.r[0] == r0 && t.r[1] == r1 && t.r[16] == r16
  {
    hide Run, Step;
    assert s.stack == (st + [r16, r0]) + [Pack(flags), r1];
    Leave1Runs(e, s, st + [r16, r0], flags, r1);
    Leave2Runs(e, Run(e, LEAVE1, s), st, r16, r0);
    RunAppend(e, LEAVE1, LEAVE2, s);
  }

  lemma SavedIsDistinct()
    ensures Distinct(SAVED) && SAVED[0] == 15 && forall i :: 0 < i < 16 ==> SAVED[i] == i + 16
    ensures forall k: nat :: k < 32 && k !in SAVED <==> k <= 14 || k == 16
  {
    assert forall i :: 0 < i < 16 ==> SAVED[i] == i + 16;
  }

  /** Registers through the epilogue: `popped` after the pops, `end` at its end. */
  lemma RegistersBack(r: Regs, cleared: Regs, popped: Regs, end: Regs, was: Regs, r16: byte)
    requires Bystanders(r, was) && OnlyChanged(cleared, r, {26, 27})
    requires forall i :: 0 <= i < |SAVED| ==> popped[SAVED[i]] == Values(was, SAVED)[i]
    requires forall k: nat :: k < 32 && k !in SAVED ==> popped[k] == cleared[k]
    requires OnlyChanged(end, popped, {0, 1, 16}) && end[0] == was[0] && end[1] == was[1] && end[16] == r16
    ensures end == was[16 := r16]
  {
    SavedIsDistinct();
    assert popped[SAVED[0]] == was[SAVED[0]];
    forall k: nat | 17 <= k < 32 ensures popped[k] == was[k] {
      assert popped[SAVED[k - 16]] == was[SAVED[k - 16]];
    }
  }

  /** The end of the handler: flags written back, then every register restored. */
  lemma EpilogueRuns(e: Env, s: Cpu, st: seq<byte>, was: Regs, flags: Sreg, r16: byte)
    requires s.stack == st + [r16, was[0], Pack(flags), was[1]] + Values(was, SAVED) && Bystanders(s.r, was)
    ensures Run(e, CLEAR + Pops(SAVED) + LEAVE, s) ==
            s.(pc := s.pc + 24, log := s.log + [Wr(s.r[16], s.r[15])], stack := st, sreg := flags,
               r := was[16 := r16])
  {
    hide Run, Step, Pops;
    ClearRuns(e, s);
    var s1 := Run(e, CLEAR, s);
    SavedIsDistinct();
    PopsRun(e, SAVED, s1, st + [r16, was[0], Pack(flags), was[1]], Values(was, SAVED));
    var s2 := Run(e, Pops(SAVED), s1);
    RunAppend(e, CLEAR, Pops(SAVED), s);
    LeaveRuns(e, s2, st, r16, was[0], flags, was[1]);
    RunAppend(e, CLEAR + Pops(SAVED), LEAVE, s);
    RegistersBack(s.r, s1.r, s2.r, Run(e, LEAVE, s2).r, was, r16);
  }

  lemma BlocksAreStraight(intFunc: word)
    ensures AllStraight(Setup(intFunc)) && AllStraight(CLEAR + Pops(SAVED) + LEAVE)
  {
    hide Pushes, Pops;
    StraightConcat(ENTRY, Pushes(SAVED));
    StraightConcat(ENTRY + Pushes(SAVED), Address(intFunc));
    StraightConcat(ENTRY + Pushes(SAVED) + Address(intFunc), FIND);
    StraightConcat(ENTRY + Pushes(SAVED) + Address(intFunc) + FIND, VPORT);
    StraightConcat(CLEAR, Pops(SAVED));
    StraightConcat(CLEAR + Pops(SAVED), LEAVE);
  }

  lemma LoadFlagsSteps(e: Env, s: Cpu, port: nat)
    requires port < 7 && Ptr(s.r, 26) == 4 * port + 3 && s.exit == Running
    ensures var s1 := Step(e, Ld(15, 26, 0), s); var s2 := Step(e, Sbiw(26, 0), s1); var s3 := Step(e, Breq(12), s2);
            var t, flags := Step(e, Mov(17, 15), s3), s.mem[4 * port + 3];
            && Goes(s1, s.pc + 1) && Goes(s2, s.pc + 2) && Goes(s3, s.pc + 3)
            && t == s.(pc := s.pc + 4, r := s.r[15 := flags][17 := flags], sreg := t.sreg, log := s.log + [Rd(4 * port + 3)])
  {
    hide Step;
    LoadIo(e, s, 15);
    var s1 := Step(e, Ld(15, 26, 0), s);
    TestX(e, s1);
    var s2 := Step(e, Sbiw(26, 0), s1);
    ZeroStep(e, s2, 12);
    CopyStep(e, Step(e, Breq(12), s2), 17, 15);
  }

  /** INTFLAGS is read; the guard that follows tests X, which now holds the
      VPORT address, so it never skips the loop. */
  lemma LoadFlagsRuns(e: Env, code: seq<Instr>, s: Cpu, port: nat)
    requires HasAt(code, s.pc, LOAD_FLAGS) && s.exit == Running
    requires port < 7 && Ptr(s.r, 26) == 4 * port + 3
    ensures var t, flags := Exec(e, code, s, 4), s.mem[4 * port + 3];
            && t == s.(pc := s.pc + 4, r := t.r, sreg := t.sreg, log := s.log + [Rd(4 * port + 3)])
            && OnlyChanged(t.r, s.r, {15, 17}) && t.r[15] == flags && t.r[17] == flags
  {
    hide Exec, Step;
    LoadFlagsSteps(e, s, port);
    var s1 := Step(e, Ld(15, 26, 0), s);
    var s2 := Step(e, Sbiw(26, 0), s1);
    var s3 := Step(e, Breq(12), s2);
    assert code[s.pc] == LOAD_FLAGS[0] && code[s.pc + 1] == LOAD_FLAGS[1];
    assert code[s.pc + 2] == LOAD_FLAGS[2] && code[s.pc + 3] == LOAD_FLAGS[3];
    Exec4(e, code, s, s1, s2, s3, Step(e, Mov(17, 15), s3));
  }

  lemma LoadIo(e: Env, s: Cpu, d: Reg)
    requires Ptr(s.r, 26) < IO_END
    ensures Step(e, Ld(d, 26, 0), s) ==
            s.(pc := s.pc + 1, r := s.r[d := s.mem[Ptr(s.r, 26)]], log := s.log + [Rd(Ptr(s.r, 26))])
  {
    assert (Ptr(s.r, 26) + 0) % 65536 == Ptr(s.r, 26);
    hide Ptr;
  }

  lemma CopyStep(e: Env, s: Cpu, d: Reg, x: Reg)
    ensures Step(e, Mov(d, x), s) == s.(pc := s.pc + 1, r := s.r[d := s.r[x]])
  {
  }

  lemma TestX(e: Env, s: Cpu)
    ensures var t := Step(e, Sbiw(26, 0), s);
            && t == s.(pc := s.pc + 1, sreg := t.sreg) && (t.sreg.z <==> Ptr(s.r, 26) == 0)
  {
    WordParts(s.r[26], s.r[27]);
    hide Word;
    assert s.r[26 := s.r[26]][27 := s.r[27]] == s.r;
  }

  /** The C handler on the same memory: read the flags, scan, write them back. */
  ghost function PortInterruptHandler(e: Env, table: word, intflags: word, mem: Mem, log: seq<Access>): (Mem, seq<Access>)
    requires table + 16 <= 65536
  {
    var flags := mem[intflags];
    var (m, l) := Scan(e, table, flags, 0, mem, log + [Rd(intflags)]);
    (m, l + [Wr(intflags, flags)])
  }

  /** From the end of the loop to the return. */
  lemma Finishes(e: Env, intFunc: word, s: Cpu, st: seq<byte>, was: Regs, flags: Sreg, r16: byte)
    requires s.pc == |Setup(intFunc)| + 15 && s.exit == Running && Bystanders(s.r, was)
    requires s.stack == st + [r16, was[0], Pack(flags), was[1]] + Values(was, SAVED)
    ensures Exec(e, IsrBody(intFunc), s, 25) ==
            s.(pc := s.pc + 24, log := s.log + [Wr(s.r[16], s.r[15])], stack := st, sreg := flags,
               r := was[16 := r16], exit := Returned)
  {
    hide Exec, Run, Step, Setup, Loop, Pops;
    BlocksAreStraight(intFunc);
    var code, rest := IsrBody(intFunc), CLEAR + Pops(SAVED) + LEAVE;
    Regroup(Setup(intFunc), LOAD_FLAGS, Loop(17), rest, [Reti]);
    EpilogueRuns(e, s, st, was, flags, r16);
    ExecBlock(e, Setup(intFunc) + LOAD_FLAGS + Loop(17), rest, [Reti], s);
    Returns(e, code, Exec(e, code, s, 24));
    ExecSplit(e, code, s, 24, 1);
  }

  predicate CallsOnly(accesses: seq<Access>) {
    forall i :: 0 <= i < |accesses| ==> accesses[i].Call?
  }

  /** The flags are read first, written back as they were read last, and in between
      there is nothing but calls. */
  predicate LateClear(accesses: seq<Access>, intflags: word, flags: byte) {
    && 2 <= |accesses| && accesses[0] == Rd(intflags) && accesses[|accesses| - 1] == Wr(intflags, flags)
    && CallsOnly(accesses[1..|accesses| - 1])
  }

  lemma {:induction false} ScanOnlyCalls(e: Env, table: word, flags: byte, pin: nat, mem: Mem, log: seq<Access>)
    requires table + 16 <= 65536 && pin <= 8
    ensures var l := Scan(e, table, flags, pin, mem, log).1; |log| <= |l| && l[..|log|] == log && CallsOnly(l[|log|..])
    decreases 8 - pin
  {
    if pin < 8 {
      var (m, l) := if Bit(flags, pin) then Handle(e, table, pin, mem, log) else (mem, log);
      ScanOnlyCalls(e, table, flags, pin + 1, m, l);
      var all := Scan(e, table, flags, pin + 1, m, l).1;
      assert all[..|log|] == l[..|log|];
      forall i | 0 <= i < |all| - |log| ensures all[|log|..][i].Call? {
        if |log| + i >= |l| { assert all[|l|..][|log| + i - |l|].Call?; } else { assert all[..|l|][|log| + i].Call?; }
      }
    }
  }

  lemma AfterLog(log: seq<Access>, front: seq<Access>, l: seq<Access>, back: seq<Access>)
    requires |log| + |front| <= |l| && l[..|log + front|] == log + front
    ensures (l + back)[|log|..] == front + l[|log + front|..] + back
  {
    assert l == (log + front) + l[|log + front|..];
  }

  lemma HandlerClearsLate(e: Env, table: word, intflags: word, mem: Mem, log: seq<Access>)
    requires table + 16 <= 65536
    ensures var l := PortInterruptHandler(e, table, intflags, mem, log).1;
            |log| <= |l| && LateClear(l[|log|..], intflags, mem[intflags])
  {
    hide Scan, CallsOnly;
    var read, write := [Rd(intflags)], [Wr(intflags, mem[intflags])];
    ScanOnlyCalls(e, table, mem[intflags], 0, mem, log + read);
    var l := Scan(e, table, mem[intflags], 0, mem, log + read).1;
    AfterLog(log, read, l, write);
    var calls := l[|log + read|..];
    assert (read + calls + write)[1..|calls| + 1] == calls;
  }

  lemma IsrBodyRuns(e: Env, intFunc: word, port: nat, s: Cpu, st: seq<byte>, r16: byte) returns (n: nat)
    requires IO_END <= intFunc && intFunc + 14 < 65536 && port < 7
    requires IO_END <= Table(s.mem, intFunc, port) && Table(s.mem, intFunc, port) + 16 < 65536
    requires s.pc == 0 && s.exit == Running && s.r[16] == 2 * port && s.stack == st + [r16]
    ensures var t := Exec(e, IsrBody(intFunc), s, n);
            && t.exit == Returned
            && (t.mem, t.log) == PortInterruptHandler(e, Table(s.mem, intFunc, port), 4 * port + 3, s.mem, s.log)
            && t.r == s.r[16 := r16] && t.sreg == s.sreg && t.stack == st
  {
    hide Exec, Run, Step, Setup, Loop, Pops, Scan, Shift, LoopAt, HasAt;
    BlocksAreStraight(intFunc);
    var code, rest := IsrBody(intFunc), CLEAR + Pops(SAVED) + LEAVE;
    var size, table := |Setup(intFunc)|, Table(s.mem, intFunc, port);
    SetupRuns(e, s, intFunc, port);
    Regroup(Setup(intFunc), LOAD_FLAGS, Loop(17), rest, [Reti]);
    ExecBlock(e, [], Setup(intFunc), LOAD_FLAGS + Loop(17) + rest + [Reti], s);
    var s1 := Exec(e, code, s, size);
    TextAt(Setup(intFunc), LOAD_FLAGS, Loop(17) + rest + [Reti]);
    LoadFlagsRuns(e, code, s1, port);
    var s2 := Exec(e, code, s1, 4);
    Shift0(s2.r[17]);
    LoopText(Setup(intFunc) + LOAD_FLAGS, 17, rest + [Reti]);
    var k := LoopScans(e, code, size + 4, 17, s2, table, s2.r[17], 0);
    var s3 := Exec(e, code, s2, k);
    assert s3.stack == st + [r16, s.r[0], Pack(s.sreg), s.r[1]] + Values(s.r, SAVED);
    Finishes(e, intFunc, s3, st, s.r, s.sreg, r16);
    ExecSplit(e, code, s, size, 4);
    ExecSplit(e, code, s, size + 4, k);
    ExecSplit(e, code, s, size + 4 + k, 25);
    n := size + 4 + k + 25;
  }

  /** For an enabled port, whatever the user functions do: the assembly makes the
      C handler's calls and accesses in its order, ends, and gives back every
      register and flag. */
  lemma IsrBodyRefinesC(e: Env, intFunc: word, port: nat, s: Cpu, st: seq<byte>, r16: byte) returns (n: nat)
    requires IO_END <= intFunc && intFunc + 14 < 65536 && port < 7
    requires IO_END <= Table(s.mem, intFunc, port) && Table(s.mem, intFunc, port) + 16 < 65536
    requires s.pc == 0 && s.exit == Running && s.r[16] == 2 * port && s.stack == st + [r16]
    ensures var t := Exec(e, IsrBody(intFunc), s, n);
            && t.exit == Returned
            && (t.mem, t.log) == PortInterruptHandler(e, Table(s.mem, intFunc, port), 4 * port + 3, s.mem, s.log)
            && t.r == s.r[16 := r16] && t.sreg == s.sreg && t.stack == st
            && |s.log| <= |t.log| && LateClear(t.log[|s.log|..], 4 * port + 3, s.mem[4 * port + 3])
  {
    n := IsrBodyRuns(e, intFunc, port, s, st, r16);
    hide Exec, Table, IsrBody, LateClear, PortInterruptHandler;
    HandlerClearsLate(e, Table(s.mem, intFunc, port), 4 * port + 3, s.mem, s.log);
  }
  lemma Shift0(a: nat)
    ensures Shift(a, 0) == a
  {
  }

  lemma Regroup(a: seq<Instr>, b: seq<Instr>, c: seq<Instr>, d: seq<Instr>, f: seq<Instr>)
    ensures var code := a + b + c + d + f;
            && code == [] + a + (b + c + d + f)
            && code == a + b + (c + d + f)
            && code == (a + b) + c + (d + f)
            && code == (a + b + c) + d + f
  {
  }

  // With early clearing the flags go straight back, and r16 then counts them off.
  const CLEAR_EARLY := [Ld(16, 26, 0), St(26, 0, 16), Sbiw(26, 0), Breq(11)]

  lemma ClearEarlySteps(e: Env, s: Cpu, port: nat)
    requires port < 7 && Ptr(s.r, 26) == 4 * port + 3 && s.exit == Running
    ensures var s1 := Step(e, Ld(16, 26, 0), s); var s2 := Step(e, St(26, 0, 16), s1); var s3 := Step(e, Sbiw(26, 0), s2);
            var t, flags := Step(e, Breq(11), s3), s.mem[4 * port + 3];
            && Goes(s1, s.pc + 1) && Goes(s2, s.pc + 2) && Goes(s3, s.pc + 3)
            && t == s.(pc := s.pc + 4, r := s.r[16 := flags], sreg := t.sreg,
                       log := s.log + [Rd(4 * port + 3), Wr(4 * port + 3, flags)])
  {
    hide Step;
    LoadIo(e, s, 16);
    var s1 := Step(e, Ld(16, 26, 0), s);
    StoreIo(e, s1, 16);
    var s2 := Step(e, St(26, 0, 16), s1);
    TestX(e, s2);
    ZeroStep(e, Step(e, Sbiw(26, 0), s2), 11);
  }

  lemma ClearEarlyRuns(e: Env, code: seq<Instr>, s: Cpu, port: nat)
    requires HasAt(code, s.pc, CLEAR_EARLY) && s.exit == Running
    requires port < 7 && Ptr(s.r, 26) == 4 * port + 3
    ensures var t, flags := Exec(e, code, s, 4), s.mem[4 * port + 3];
            && t == s.(pc := s.pc + 4, r := s.r[16 := flags], sreg := t.sreg,
                       log := s.log + [Rd(4 * port + 3), Wr(4 * port + 3, flags)])
  {
    hide Exec, Step;
    ClearEarlySteps(e, s, port);
    var s1 := Step(e, Ld(16, 26, 0), s);
    var s2 := Step(e, St(26, 0, 16), s1);
    var s3 := Step(e, Sbiw(26, 0), s2);
    assert code[s.pc] == CLEAR_EARLY[0] && code[s.pc + 1] == CLEAR_EARLY[1];
    assert code[s.pc + 2] == CLEAR_EARLY[2] && code[s.pc + 3] == CLEAR_EARLY[3];
    Exec4(e, code, s, s1, s2, s3, Step(e, Breq(11), s3));
  }

  lemma StoreIo(e: Env, s: Cpu, x: Reg)
    requires Ptr(s.r, 26) < IO_END
    ensures Step(e, St(26, 0, x), s) == s.(pc := s.pc + 1, log := s.log + [Wr(Ptr(s.r, 26), s.r[x])])
  {
    assert (Ptr(s.r, 26) + 0) % 65536 == Ptr(s.r, 26);
    hide Ptr;
  }

  /** From the read of INTFLAGS on, early clearing makes the same calls after
      writing the flags back instead of before. */
  lemma EarlyClearScans(e: Env, pre: seq<Instr>, post: seq<Instr>, s: Cpu, port: nat, table: word) returns (n: nat)
    requires post != [] && s.pc == |pre| && s.exit == Running
    requires port < 7 && Ptr(s.r, 26) == 4 * port + 3 && s.r[1] == 0
    requires Ptr(s.r, 28) == table && IO_END <= table && table + 16 < 65536
    ensures var t, flags := Exec(e, pre + CLEAR_EARLY + Loop(16) + post, s, n), s.mem[4 * port + 3];
            && t.pc == |pre| + 15 && Steady(s, t, 16)
            && (t.mem, t.log) ==
               Scan(e, table, flags, 0, s.mem, s.log + [Rd(4 * port + 3), Wr(4 * port + 3, flags)])
  {
    hide Exec, Step, Loop, Scan, Shift, LoopAt, HasAt;
    var code := pre + CLEAR_EARLY + Loop(16) + post;
    assert code == pre + CLEAR_EARLY + (Loop(16) + post);
    TextAt(pre, CLEAR_EARLY, Loop(16) + post);
    ClearEarlyRuns(e, code, s, port);
    var s1 := Exec(e, code, s, 4);
    Shift0(s1.r[16]);
    LoopText(pre + CLEAR_EARLY, 16, post);
    var k := LoopScans(e, code, |pre| + 4, 16, s1, table, s1.r[16], 0);
    ExecSplit(e, code, s, 4, k);
    n := 4 + k;
  }

  predicate TableKept(m: Mem, n: Mem, table: word)
    requires table + 16 <= 65536
  {
    forall i: nat :: table <= i < table + 16 ==> m[i] == n[i]
  }

  /** The user functions leave this port's table alone. */
  ghost predicate Quiet(e: Env, table: word)
    requires table + 16 <= 65536
  {
    forall log: seq<Access>, mem: Mem :: TableKept(mem, e.effect(log, mem), table)
  }

  function Entry(mem: Mem, table: word, pin: nat): (f: word)
    requires table + 16 <= 65536 && pin < 8
  {
    Word(mem[table + 2 * pin], mem[table + 2 * pin + 1])
  }

  /** The non-null functions of the set bits from pin on, once each, ascending. */
  function Attached(mem: Mem, table: word, flags: byte, pin: nat): (calls: seq<Access>)
    requires table + 16 <= 65536 && pin <= 8
    decreases 8 - pin
  {
    if pin == 8 then []
    else (if Bit(flags, pin) && Entry(mem, table, pin) != 0 then [Call(Entry(mem, table, pin))] else [])
         + Attached(mem, table, flags, pin + 1)
  }

  lemma {:induction false} SameTable(m: Mem, n: Mem, table: word, flags: byte, pin: nat)
    requires table + 16 <= 65536 && pin <= 8 && TableKept(m, n, table)
    ensures Attached(m, table, flags, pin) == Attached(n, table, flags, pin)
    decreases 8 - pin
  {
    if pin < 8 { SameTable(m, n, table, flags, pin + 1); }
  }

  lemma HandleQuietly(e: Env, table: word, pin: nat, mem: Mem, log: seq<Access>)
    requires table + 16 <= 65536 && pin < 8 && Quiet(e, table)
    ensures var (m, l) := Handle(e, table, pin, mem, log);
            && TableKept(mem, m, table)
            && l == log + if Entry(mem, table, pin) != 0 then [Call(Entry(mem, table, pin))] else []
  {
  }

  lemma ScanOnce(e: Env, table: word, flags: byte, pin: nat, mem: Mem, log: seq<Access>)
    requires table + 16 <= 65536 && pin < 8
    ensures var (m, l) := if Bit(flags, pin) then Handle(e, table, pin, mem, log) else (mem, log);
            Scan(e, table, flags, pin, mem, log) == Scan(e, table, flags, pin + 1, m, l)
  {
  }

  lemma AttachedOnce(mem: Mem, table: word, flags: byte, pin: nat)
    requires table + 16 <= 65536 && pin < 8
    ensures Attached(mem, table, flags, pin) ==
            (if Bit(flags, pin) && Entry(mem, table, pin) != 0 then [Call(Entry(mem, table, pin))] else [])
            + Attached(mem, table, flags, pin + 1)
  {
  }

  /** For a table the user functions leave alone, the C scan calls exactly the
      non-null functions of the set bits, once each, in ascending order. */
  lemma {:induction false} QuietScanCallsAttached(e: Env, table: word, flags: byte, pin: nat, mem: Mem, log: seq<Access>)
    requires table + 16 <= 65536 && pin <= 8 && Quiet(e, table)
    ensures Scan(e, table, flags, pin, mem, log).1 == log + Attached(mem, table, flags, pin)
    decreases 8 - pin
  {
    if pin == 8 {
      NothingAttached(e, table, flags, mem, log);
    } else {
      ScanOnce(e, table, flags, pin, mem, log);
      AttachedOnce(mem, table, flags, pin);
      var called := if Bit(flags, pin) && Entry(mem, table, pin) != 0 then [Call(Entry(mem, table, pin))] else [];
      var m := AfterPin(e, table, flags, pin, mem, log);
      SameTable(mem, m, table, flags, pin + 1);
      hide Bit, Handle, Entry, Quiet, TableKept, Scan, Attached;
      QuietScanCallsAttached(e, table, flags, pin + 1, m, log + called);
      Associative(log, called, Attached(mem, table, flags, pin + 1));
    }
  }

  lemma NothingAttached(e: Env, table: word, flags: byte, mem: Mem, log: seq<Access>)
    requires table + 16 <= 65536
    ensures Scan(e, table, flags, 8, mem, log).1 == log + Attached(mem, table, flags, 8)
  {
  }

  lemma Associative(a: seq<Access>, b: seq<Access>, c: seq<Access>)
    ensures a + b + c == a + (b + c)
  {
  }

  lemma AfterPin(e: Env, table: word, flags: byte, pin: nat, mem: Mem, log: seq<Access>) returns (m: Mem)
    requires table + 16 <= 65536 && pin < 8 && Quiet(e, table)
    ensures (if Bit(flags, pin) then Handle(e, table, pin, mem, log) else (mem, log)) ==
            (m, log + if Bit(flags, pin) && Entry(mem, table, pin) != 0 then [Call(Entry(mem, table, pin))] else [])
    ensures TableKept(mem, m, table)
  {
    m := if Bit(flags, pin) then Handle(e, table, pin, mem, log).0 else mem;
    assert log + [] == log;
    HandleQuietly(e, table, pin, mem, log);
  }
}
