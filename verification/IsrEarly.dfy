/** The port-interrupt dispatcher with CORE_ATTACH_EARLYCLEAR, from its first
    instruction to its last. It saves RAMPZ, and needs neither r15 nor r17. */
module IsrEarly {
  import opened Bits
  import opened Avr
  import opened IsrAsm

  const RAMPZ: nat := 0x3B
  const SAVED: seq<Reg> := [18, 19, 20, 21, 22, 23, 24, 25, 26, 27, 28, 29, 30, 31]

  const ENTRY1 := [Push(0), InSreg(0), Push(0)]
  const ENTRY2 := [In(0, RAMPZ), Push(0)] + [Push(1), Eor(1, 1)]
  const ENTRY := ENTRY1 + ENTRY2
  const LEAVE1 := [Pop(1), Pop(0)] + [Out(RAMPZ, 0)]
  const LEAVE2 := [Pop(0), OutSreg(0)] + [Pop(0), Pop(16)]
  const LEAVE := LEAVE1 + LEAVE2

  function Setup(intFunc: word): seq<Instr> {
    ENTRY + Pushes(SAVED) + Address(intFunc) + FIND + VPORT
  }

  /** `isrBody` with early clearing, from `AttachedISR`. */
  function IsrBody(intFunc: word): seq<Instr> {
    Setup(intFunc) + CLEAR_EARLY + Loop(16) + (Pops(SAVED) + LEAVE + [Reti])
  }

  lemma Entry1Runs(e: Env, s: Cpu)
    ensures Run(e, ENTRY1, s) ==
            s.(pc := s.pc + 3, r := s.r[0 := Pack(s.sreg)], stack := s.stack + [s.r[0], Pack(s.sreg)])
  {
    Run3(e, Push(0), InSreg(0), Push(0), s);
  }

  lemma RampzRuns(e: Env, s: Cpu)
    ensures var z := s.mem[RAMPZ];
            Run(e, [In(0, RAMPZ), Push(0)], s) ==
            s.(pc := s.pc + 2, r := s.r[0 := z], stack := s.stack + [z], log := s.log + [Rd(RAMPZ)])
  {
    Run2(e, In(0, RAMPZ), Push(0), s);
  }

  lemma ZeroRuns(e: Env, s: Cpu)
    ensures Run(e, [Push(1), Eor(1, 1)], s) ==
            s.(pc := s.pc + 2, r := s.r[1 := 0], sreg := s.sreg.(z := true), stack := s.stack + [s.r[1]])
  {
    SelfAndOr(s.r[1]);
    Run2(e, Push(1), Eor(1, 1), s);
  }

  lemma EntryRuns(e: Env, s: Cpu)
    ensures Run(e, ENTRY, s) ==
            s.(pc := s.pc + 7, r := s.r[0 := s.mem[RAMPZ]][1 := 0], sreg := s.sreg.(z := true), log := s.log + [Rd(RAMPZ)],
               stack := s.stack + [s.r[0], Pack(s.sreg), s.mem[RAMPZ], s.r[1]])
  {
    hide Run, Step, Pack;
    Entry1Runs(e, s);
    var s1 := Run(e, ENTRY1, s);
    RampzRuns(e, s1);
    ZeroRuns(e, Run(e, [In(0, RAMPZ), Push(0)], s1));
    RunAppend(e, [In(0, RAMPZ), Push(0)], [Push(1), Eor(1, 1)], s1);
    RunAppend(e, ENTRY1, ENTRY2, s);
    assert s.r[0 := Pack(s.sreg)][0 := s.mem[RAMPZ]] == s.r[0 := s.mem[RAMPZ]];
  }

  /** Registers no user function and no part of the handler changes. */
  predicate Bystanders(r: Regs, was: Regs) {
    forall k :: 2 <= k <= 17 && k != 16 ==> r[k] == was[k]
  }

  /** Everything saved, Y at the port's table, X at its INTFLAGS. */
  ghost predicate Ready(s: Cpu, t: Cpu, intFunc: word, port: nat)
    requires intFunc + 14 < 65536 && port < 7
  {
    && t == s.(pc := t.pc, r := t.r, sreg := t.sreg, log := s.log + [Rd(RAMPZ)],
               stack := s.stack + [s.r[0], Pack(s.sreg), s.mem[RAMPZ], s.r[1]] + Values(s.r, SAVED))
    && Bystanders(t.r, s.r) && t.r[1] == 0
    && Ptr(t.r, 28) == Table(s.mem, intFunc, port) && Ptr(t.r, 26) == 4 * port + 3
  }

  lemma SetupRuns(e: Env, s: Cpu, intFunc: word, port: nat)
    requires IO_END <= intFunc && intFunc + 14 < 65536 && port < 7 && s.r[16] == 2 * port
    ensures var t := Run(e, Setup(intFunc), s);
            Ready(s, t, intFunc, port) && t.pc == s.pc + |Setup(intFunc)|
  {
    hide Run, Step, Pushes, Pack;
    EntryRuns(e, s);
    var s1 := Run(e, ENTRY, s);
    PushesRun(e, SAVED, s1);
    assert Values(s1.r, SAVED) == Values(s.r, SAVED);
    RunAppend(e, ENTRY, Pushes(SAVED), s);
    var s2 := Run(e, Pushes(SAVED), s1);
    AddressRuns(e, s2, intFunc);
    RunAppend(e, ENTRY + Pushes(SAVED), Address(intFunc), s);
    var s3 := Run(e, Address(intFunc), s2);
    FindRuns(e, s3, intFunc, port);
    RunAppend(e, ENTRY + Pushes(SAVED) + Address(intFunc), FIND, s);
    var s4 := Run(e, FIND, s3);
    VportRuns(e, s4, port);
    RunAppend(e, ENTRY + Pushes(SAVED) + Address(intFunc) + FIND, VPORT, s);
  }

  lemma RampzBack(e: Env, s: Cpu)
    ensures Run(e, [Out(RAMPZ, 0)], s) == s.(pc := s.pc + 1, log := s.log + [Wr(RAMPZ, s.r[0])])
  {
    Run1(e, Out(RAMPZ, 0), s);
  }

  lemma Leave1Runs(e: Env, s: Cpu, st: seq<byte>, z: byte, r1: byte)
    requires s.stack == st + [z, r1]
    ensures Run(e, LEAVE1, s) == s.(pc := s.pc + 3, r := s.r[1 := r1][0 := z], stack := st, log := s.log + [Wr(RAMPZ, z)])
  {
    hide Run, Step;
    PopTwo(e, 1, 0, s, st, r1, z);
    RampzBack(e, Run(e, [Pop(1), Pop(0)], s));
    RunAppend(e, [Pop(1), Pop(0)], [Out(RAMPZ, 0)], s);
  }

  lemma FlagsBack(e: Env, s: Cpu, st: seq<byte>, flags: Sreg)
    requires s.stack == st + [Pack(flags)]
    ensures Run(e, [Pop(0), OutSreg(0)], s) == s.(pc := s.pc + 2, r := s.r[0 := Pack(flags)], stack := st, sreg := flags)
  {
    UnpackPack(flags);
    hide Pack, Unpack;
    Run2(e, Pop(0), OutSreg(0), s);
    PopStep(e, 0, s, st, Pack(flags));
  }

  lemma Leave2Runs(e: Env, s: Cpu, st: seq<byte>, r16: byte, r0: byte, flags: Sreg)
    requires s.stack == st + [r16, r0] + [Pack(flags)]
    ensures Run(e, LEAVE2, s) == s.(pc := s.pc + 4, r := s.r[0 := r0][16 := r16], stack := st, sreg := flags)
  {
    hide Run, Step, Pack;
    FlagsBack(e, s, st + [r16, r0], flags);
    var s1 := Run(e, [Pop(0), OutSreg(0)], s);
    PopTwo(e, 0, 16, s1, st, r0, r16);
    RunAppend(e, [Pop(0), OutSreg(0)], [Pop(0), Pop(16)], s);
    assert s.r[0 := Pack(flags)][0 := r0] == s.r[0 := r0];
  }

  lemma LeaveRuns(e: Env, s: Cpu, st: seq<byte>, r16: byte, r0: byte, flags: Sreg, z: byte, r1: byte)
    requires s.stack == st + [r16, r0, Pack(flags), z, r1]
    ensures var t := Run(e, LEAVE, s);
            && t == s.(pc := s.pc + 7, r := t.r, stack := st, sreg := flags, log := s.log + [Wr(RAMPZ, z)])
            && OnlyChanged(t.r, s.r, {0, 1, 16}) && t.r[0] == r0 && t.r[1] == r1 && t.r[16] == r16
  {
    hide Run, Step, Pack;
    assert s.stack == (st + [r16, r0] + [Pack(flags)]) + [z, r1];
    Leave1Runs(e, s, st + [r16, r0] + [Pack(flags)], z, r1);
    Leave2Runs(e, Run(e, LEAVE1, s), st, r16, r0, flags);
    RunAppend(e, LEAVE1, LEAVE2, s);
  }

  lemma SavedIsDistinct()
    ensures Distinct(SAVED)
    ensures forall k: nat :: k < 32 && k !in SAVED <==> k <= 17
  {
    assert forall i :: 0 <= i < 14 ==> SAVED[i] == i + 18;
  }

  lemma EpilogueRuns(e: Env, s: Cpu, st: seq<byte>, was: Regs, flags: Sreg, z: byte, r16: byte)
    requires s.stack == st + [r16, was[0], Pack(flags), z, was[1]] + Values(was, SAVED) && Bystanders(s.r, was)
    ensures Run(e, Pops(SAVED) + LEAVE, s) ==
            s.(pc := s.pc + 21, log := s.log + [Wr(RAMPZ, z)], stack := st, sreg := flags, r := was[16 := r16])
  {
    hide Run, Step, Pops, Pack;
    SavedIsDistinct();
    PopsRun(e, SAVED, s, st + [r16, was[0], Pack(flags), z, was[1]], Values(was, SAVED));
    var s1 := Run(e, Pops(SAVED), s);
    assert forall k: nat :: k < 32 && k in SAVED ==> s1.r[k] == was[k];
    LeaveRuns(e, s1, st, r16, was[0], flags, z, was[1]);
    RunAppend(e, Pops(SAVED), LEAVE, s);
    assert Run(e, LEAVE, s1).r == was[16 := r16];
  }

  lemma BlocksAreStraight(intFunc: word)
    ensures AllStraight(Setup(intFunc)) && AllStraight(Pops(SAVED) + LEAVE)
  {
    StraightConcat(ENTRY, Pushes(SAVED));
    StraightConcat(ENTRY + Pushes(SAVED), Address(intFunc));
    StraightConcat(ENTRY + Pushes(SAVED) + Address(intFunc), FIND);
    StraightConcat(ENTRY + Pushes(SAVED) + Address(intFunc) + FIND, VPORT);
    StraightConcat(Pops(SAVED), LEAVE);
  }

  lemma Regroup(a: seq<Instr>, b: seq<Instr>, c: seq<Instr>, d: seq<Instr>, f: seq<Instr>)
    ensures a + b + c + (d + f) == [] + a + (b + c + (d + f))
    ensures a + b + c + (d + f) == (a + b + c) + d + f
  {
  }

  /** What the C handler would do if it wrote the flags back first. */
  ghost function EarlyClearHandler(e: Env, table: word, intflags: word, mem: Mem, log: seq<Access>): (Mem, seq<Access>)
    requires table + 16 <= 65536
  {
    Scan(e, table, mem[intflags], 0, mem, log + [Rd(intflags), Wr(intflags, mem[intflags])])
  }

  /** RAMPZ is saved, the flags are read and at once written back; then there is nothing
      but calls until RAMPZ is restored. */
  predicate EarlyClear(accesses: seq<Access>, intflags: word, flags: byte, rampz: byte) {
    var n := |accesses| - 1;
    && 3 <= n && accesses[..3] == [Rd(0x3B), Rd(intflags), Wr(intflags, flags)] && accesses[n] == Wr(0x3B, rampz)
    && CallsOnly(accesses[3..n])
  }

  lemma HandlerClearsEarly(e: Env, table: word, intflags: word, mem: Mem, log: seq<Access>)
    requires table + 16 <= 65536
    ensures var l := EarlyClearHandler(e, table, intflags, mem, log + [Rd(RAMPZ)]).1 + [Wr(RAMPZ, mem[RAMPZ])];
            |log| <= |l| && EarlyClear(l[|log|..], intflags, mem[intflags], mem[RAMPZ])
  {
    hide Scan, CallsOnly;
    var front, back := [Rd(RAMPZ), Rd(intflags), Wr(intflags, mem[intflags])], [Wr(RAMPZ, mem[RAMPZ])];
    assert log + [Rd(RAMPZ)] + [Rd(intflags), Wr(intflags, mem[intflags])] == log + front;
    ScanOnlyCalls(e, table, mem[intflags], 0, mem, log + front);
    var l := Scan(e, table, mem[intflags], 0, mem, log + front).1;
    AfterLog(log, front, l, back);
    var calls := l[|log + front|..];
    assert (front + calls + back)[3..|calls| + 3] == calls && (front + calls + back)[..3] == front;
  }

  lemma IsrBodyRuns(e: Env, intFunc: word, port: nat, s: Cpu, st: seq<byte>, r16: byte) returns (n: nat)
    requires IO_END <= intFunc && intFunc + 14 < 65536 && port < 7
    requires IO_END <= Table(s.mem, intFunc, port) && Table(s.mem, intFunc, port) + 16 < 65536
    requires s.pc == 0 && s.exit == Running && s.r[16] == 2 * port && s.stack == st + [r16]
    ensures var t := Exec(e, IsrBody(intFunc), s, n);
            var (mem, log) := EarlyClearHandler(e, Table(s.mem, intFunc, port), 4 * port + 3, s.mem, s.log + [Rd(RAMPZ)]);
            && t.exit == Returned
            && t.mem == mem && t.log == log + [Wr(RAMPZ, s.mem[RAMPZ])]
            && t.r == s.r[16 := r16] && t.sreg == s.sreg && t.stack == st
  {
    hide Exec, Run, Step, Setup, Loop, Pops, Scan, Pack;
    BlocksAreStraight(intFunc);
    var code, rest, z := IsrBody(intFunc), Pops(SAVED) + LEAVE, s.mem[RAMPZ];
    var size, table := |Setup(intFunc)|, Table(s.mem, intFunc, port);
    SetupRuns(e, s, intFunc, port);
    Regroup(Setup(intFunc), CLEAR_EARLY, Loop(16), rest, [Reti]);
    ExecBlock(e, [], Setup(intFunc), CLEAR_EARLY + Loop(16) + (rest + [Reti]), s);
    var s1 := Exec(e, code, s, size);
    var k := EarlyClearScans(e, Setup(intFunc), rest + [Reti], s1, port, table);
    var s2 := Exec(e, code, s1, k);
    assert s2.stack == st + [r16, s.r[0], Pack(s.sreg), z, s.r[1]] + Values(s.r, SAVED);
    EpilogueRuns(e, s2, st, s.r, s.sreg, z, r16);
    ExecBlock(e, Setup(intFunc) + CLEAR_EARLY + Loop(16), rest, [Reti], s2);
    var s3 := Exec(e, code, s2, 21);
    Returns(e, code, s3);
    ExecSplit(e, code, s, size, k);
    ExecSplit(e, code, s, size + k, 21);
    ExecSplit(e, code, s, size + k + 21, 1);
    n := size + k + 21 + 1;
  }

  /** The whole handler: between its save and its restore of RAMPZ it makes those
      calls and accesses, and it gives back every register and flag. */
  lemma IsrBodyRefinesC(e: Env, intFunc: word, port: nat, s: Cpu, st: seq<byte>, r16: byte) returns (n: nat)
    requires IO_END <= intFunc && intFunc + 14 < 65536 && port < 7
    requires IO_END <= Table(s.mem, intFunc, port) && Table(s.mem, intFunc, port) + 16 < 65536
    requires s.pc == 0 && s.exit == Running && s.r[16] == 2 * port && s.stack == st + [r16]
    ensures var t := Exec(e, IsrBody(intFunc), s, n);
            var (mem, log) := EarlyClearHandler(e, Table(s.mem, intFunc, port), 4 * port + 3, s.mem, s.log + [Rd(RAMPZ)]);
            && t.exit == Returned
            && t.mem == mem && t.log == log + [Wr(RAMPZ, s.mem[RAMPZ])]
            && t.r == s.r[16 := r16] && t.sreg == s.sreg && t.stack == st
            && |s.log| <= |t.log| && EarlyClear(t.log[|s.log|..], 4 * port + 3, s.mem[4 * port + 3], s.mem[0x3B])
  {
    n := IsrBodyRuns(e, intFunc, port, s, st, r16);
    hide Exec, Table, IsrBody, EarlyClear, EarlyClearHandler;
    HandlerClearsEarly(e, Table(s.mem, intFunc, port), 4 * port + 3, s.mem, s.log);
  }
}
