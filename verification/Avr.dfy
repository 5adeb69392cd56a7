/** An interpreter for the AVR instructions that the hand-written handlers use.
    Branch distances count instructions. Of the status flags only C, Z and T are
    computed: no instruction of these handlers reads another one. */
module Avr {
  import opened Bits

  type Reg = r: nat | r < 32
  type Pair = r: nat | r < 31        // the low register of a pair
  type Regs = s: seq<byte> | |s| == 32 witness seq(32, _ => 0)
  type Mem = s: seq<byte> | |s| == 65536 witness seq(65536, _ => 0)

  datatype Sreg = Sreg(c: bool, z: bool, n: bool, v: bool, s: bool, h: bool, t: bool, i: bool)

  /** What the rest of the system can observe, in order. */
  datatype Access = Rd(addr: word) | Wr(addr: word, value: byte) | Call(target: word)

  datatype Exit = Running | Returned | PollDone

  datatype Cpu = Cpu(pc: nat, r: Regs, sreg: Sreg, stack: seq<byte>, mem: Mem, log: seq<Access>, exit: Exit)

  datatype Instr =
    | Push(d: Reg) | Pop(d: Reg) | InSreg(d: Reg) | OutSreg(d: Reg) | In(d: Reg, a: byte) | Out(a: byte, s: Reg) | SetT | ClrT
    | Ldi(d: Reg, k: byte) | Mov(d: Reg, s: Reg) | Movw(w: Pair, x: Pair)
    | Ld(d: Reg, p: Pair, q: nat) | LdInc(d: Reg, p: Pair) | St(p: Pair, q: nat, s: Reg)
    | Add(d: Reg, s: Reg) | Adc(d: Reg, s: Reg) | Subi(d: Reg, k: byte) | Sbci(d: Reg, k: byte)
    | Adiw(w: Pair, k: byte) | Sbiw(w: Pair, k: byte)
    | Andi(d: Reg, k: byte) | Ori(d: Reg, k: byte) | OrReg(d: Reg, s: Reg) | Lsr(d: Reg) | Eor(d: Reg, s: Reg)
    | Cp(d: Reg, s: Reg) | Cpse(d: Reg, s: Reg) | Sbrc(d: Reg, b: nat)
    | Rjmp(skip: int) | Breq(skip: int) | Brcs(skip: int) | Brts(skip: int)
    | Icall | Reti | JmpPollDone

  /** Addresses below this one are peripheral registers: accesses are logged,
      and a store does not change what a load would return. */
  const IO_END := 0x1000

  function Word(lo: byte, hi: byte): word { 256 * hi + lo }

  lemma WordParts(lo: byte, hi: byte)
    ensures Word(lo, hi) % 256 == lo && Word(lo, hi) / 256 == hi
  {
  }

  lemma WordOf(w: word)
    ensures Word(w % 256, w / 256) == w
  {
  }

  function Ptr(r: Regs, p: Pair): word {
    Word(r[p], r[p + 1])
  }

  function B(f: bool): nat { if f then 1 else 0 }

  function Nibble(a: bool, b: bool, c: bool, d: bool): (r: nat)
    ensures r < 16
  {
    B(a) + 2 * B(b) + 4 * B(c) + 8 * B(d)
  }

  function Pack(f: Sreg): byte { Nibble(f.c, f.z, f.n, f.v) + 16 * Nibble(f.s, f.h, f.t, f.i) }

  function Unpack(b: byte): Sreg { UnpackNibbles(b % 16, b / 16) }

  function UnpackNibbles(lo: nat, hi: nat): Sreg {
    Sreg(lo % 2 == 1, lo / 2 % 2 == 1, lo / 4 % 2 == 1, lo / 8 == 1,
         hi % 2 == 1, hi / 2 % 2 == 1, hi / 4 % 2 == 1, hi / 8 == 1)
  }

  lemma NibbleBits(a: bool, b: bool, c: bool, d: bool)
    ensures var r := Nibble(a, b, c, d);
            (r % 2 == 1) == a && (r / 2 % 2 == 1) == b && (r / 4 % 2 == 1) == c && (r / 8 == 1) == d
  {
  }

  lemma SplitNibbles(lo: nat, hi: nat)
    requires lo < 16
    ensures (lo + 16 * hi) % 16 == lo && (lo + 16 * hi) / 16 == hi
  {
  }

  /** Saving SREG in a register and writing it back restores every flag. */
  lemma UnpackPack(f: Sreg)
    ensures Unpack(Pack(f)) == f
  {
    var lo, hi := Nibble(f.c, f.z, f.n, f.v), Nibble(f.s, f.h, f.t, f.i);
    SplitNibbles(lo, hi);
    assert Unpack(Pack(f)) == UnpackNibbles(lo, hi);
    NibbleBits(f.c, f.z, f.n, f.v);
    NibbleBits(f.s, f.h, f.t, f.i);
  }

  /** What a called user function may do: anything to memory and to the
      registers that the calling convention lets it use, depending on all that
      happened before. */
  datatype Env = Env(effect: (seq<Access>, Mem) -> Mem, scratch: (seq<Access>, Mem) -> Regs, flags: (seq<Access>, Mem) -> Sreg)

  /** r2..r17, r28 and r29 survive a call; r1 is zero on return. */
  function AfterCall(r: Regs, junk: Regs): Regs {
    seq(32, k requires 0 <= k < 32 => if k == 1 then 0 else if 2 <= k <= 17 || k == 28 || k == 29 then r[k] else junk[k])
  }

  function Set(s: Cpu, d: Reg, v: byte): Cpu { s.(r := s.r[d := v], pc := s.pc + 1) }

  /** Result v in register d, with carry c and zero flag z. */
  function SetCZ(s: Cpu, d: Reg, v: byte, c: bool, z: bool): Cpu {
    Set(s, d, v).(sreg := s.sreg.(c := c, z := z))
  }

  function SetWord(s: Cpu, d: Pair, v: word, c: bool): Cpu {
    s.(r := s.r[d := v % 256][d + 1 := v / 256], pc := s.pc + 1, sreg := s.sreg.(c := c, z := v == 0))
  }

  function Seen(s: Cpu, a: word): seq<Access> {
    if a < IO_END then s.log + [Rd(a)] else s.log
  }

  function LoadFrom(s: Cpu, d: Reg, a: word): Cpu {
    Set(s, d, s.mem[a]).(log := Seen(s, a))
  }

  function StoreTo(s: Cpu, a: word, v: byte): Cpu {
    if a < IO_END then s.(log := s.log + [Wr(a, v)], pc := s.pc + 1)
    else s.(mem := s.mem[a := v], pc := s.pc + 1)
  }

  function Branch(s: Cpu, taken: bool, k: int): Cpu {
    var target := s.pc + 1 + (if taken then k else 0);
    s.(pc := if target < 0 then 0 else target)
  }

  function Step(e: Env, i: Instr, s: Cpu): Cpu {
    var r := s.r;
    match i
    case Push(d) => s.(stack := s.stack + [r[d]], pc := s.pc + 1)
    case Pop(d) =>
      if s.stack == [] then Set(s, d, 0)
      else Set(s, d, s.stack[|s.stack| - 1]).(stack := s.stack[..|s.stack| - 1])
    case InSreg(d) => Set(s, d, Pack(s.sreg))
    case OutSreg(d) => s.(sreg := Unpack(r[d]), pc := s.pc + 1)
    case In(d, a) => LoadFrom(s, d, a)
    case Out(a, x) => StoreTo(s, a, r[x])
    case SetT => s.(sreg := s.sreg.(t := true), pc := s.pc + 1)
    case ClrT => s.(sreg := s.sreg.(t := false), pc := s.pc + 1)
    case Ldi(d, k) => Set(s, d, k)
    case Mov(d, x) => Set(s, d, r[x])
    case Movw(d, x) => s.(r := r[d := r[x]][d + 1 := r[x + 1]], pc := s.pc + 1)
    case Ld(d, p, q) => LoadFrom(s, d, (Ptr(r, p) + q) % 65536)
    case LdInc(d, p) =>
      var t := LoadFrom(s, d, Ptr(r, p));
      var next := (Ptr(r, p) + 1) % 65536;
      t.(r := t.r[p := next % 256][p + 1 := next / 256])
    case St(p, q, x) => StoreTo(s, (Ptr(r, p) + q) % 65536, r[x])
    case Icall =>
      var log := s.log + [Call(Ptr(r, 30))];
      s.(log := log, mem := e.effect(log, s.mem), r := AfterCall(r, e.scratch(log, s.mem)),
         sreg := e.flags(log, s.mem), pc := s.pc + 1)
    case Reti => s.(exit := Returned)
    case JmpPollDone => s.(exit := PollDone)
    case Rjmp(k) => Branch(s, true, k)
    case Breq(k) => Branch(s, s.sreg.z, k)
    case Brcs(k) => Branch(s, s.sreg.c, k)
    case Brts(k) => Branch(s, s.sreg.t, k)
    case Cpse(d, x) => Branch(s, r[d] == r[x], 1)
    case Sbrc(d, b) => Branch(s, !Bit(r[d], b), 1)
    case _ => Alu(i, s)
  }

  /** Arithmetic and logic. */
  function Alu(i: Instr, s: Cpu): Cpu {
    var r := s.r;
    var c := B(s.sreg.c);
    match i
    case Add(d, x) => var v := (r[d] as int) + r[x]; SetCZ(s, d, v % 256, v >= 256, v % 256 == 0)
    case Adc(d, x) => var v := (r[d] as int) + r[x] + c; SetCZ(s, d, v % 256, v >= 256, v % 256 == 0)
    case Subi(d, k) => SetCZ(s, d, (r[d] - k) % 256, r[d] < k, r[d] == k)
    case Sbci(d, k) =>
      var v := (r[d] - k - c) % 256;
      SetCZ(s, d, v, r[d] < k + c, v == 0 && s.sreg.z)
    case Adiw(d, k) => var v := (Ptr(r, d) as int) + k; SetWord(s, d, v % 65536, v >= 65536)
    case Sbiw(d, k) => SetWord(s, d, (Ptr(r, d) - k) % 65536, Ptr(r, d) < k)
    case Andi(d, k) => var v: byte := And(r[d], k); SetCZ(s, d, v, s.sreg.c, v == 0)
    case Ori(d, k) => var v := OrByte(r[d], k); SetCZ(s, d, v, s.sreg.c, v == 0)
    case OrReg(d, x) => var v := OrByte(r[d], r[x]); SetCZ(s, d, v, s.sreg.c, v == 0)
    case Eor(d, x) => var v := Xor(r[d], r[x]); SetCZ(s, d, v, s.sreg.c, v == 0)
    case Lsr(d) => SetCZ(s, d, r[d] / 2, r[d] % 2 == 1, r[d] / 2 == 0)
    case Cp(d, x) => s.(sreg := s.sreg.(c := r[d] < r[x], z := r[d] == r[x]), pc := s.pc + 1)
    case _ => s.(pc := s.pc + 1)
  }

  function Xor(a: byte, b: byte): byte { OrByte(a, b) - And(a, b) }

  lemma {:induction false} SelfAndOr(a: nat)
    ensures And(a, a) == a && Or(a, a) == a
  {
    if a > 0 { SelfAndOr(a / 2); }
  }

  /** n instructions of a program, stopping early when it is left. */
  function Exec(e: Env, code: seq<Instr>, s: Cpu, n: nat): Cpu
    decreases n
  {
    if n == 0 || s.exit != Running || s.pc >= |code| then s
    else Exec(e, code, Step(e, code[s.pc], s), n - 1)
  }

  lemma {:induction false} ExecSplit(e: Env, code: seq<Instr>, s: Cpu, n: nat, m: nat)
    ensures Exec(e, code, s, n + m) == Exec(e, code, Exec(e, code, s, n), m)
    decreases n
  {
    hide Step;
    if n > 0 && s.exit == Running && s.pc < |code| {
      ExecSplit(e, code, Step(e, code[s.pc], s), n - 1, m);
    }
  }

  /** Instructions that always continue with the next one. */
  predicate Straight(i: Instr) {
    !i.Rjmp? && !i.Breq? && !i.Brcs? && !i.Brts? && !i.Cpse? && !i.Sbrc? && !i.Reti? && !i.JmpPollDone?
  }

  predicate AllStraight(code: seq<Instr>) { forall k :: 0 <= k < |code| ==> Straight(code[k]) }

  lemma StraightConcat(a: seq<Instr>, b: seq<Instr>)
    requires AllStraight(a) && AllStraight(b)
    ensures AllStraight(a + b)
  {
  }

  /** A straight stretch of code run on its own. */
  function Run(e: Env, code: seq<Instr>, s: Cpu): Cpu
    decreases |code|
  {
    if code == [] then s else Run(e, code[1..], Step(e, code[0], s))
  }

  lemma StepStraight(e: Env, i: Instr, s: Cpu)
    requires Straight(i)
    ensures Step(e, i, s).pc == s.pc + 1 && Step(e, i, s).exit == s.exit
  {
  }

  /** A straight stretch behaves inside a program as it does on its own. */
  lemma {:induction false} ExecBlock(e: Env, pre: seq<Instr>, block: seq<Instr>, post: seq<Instr>, s: Cpu)
    requires AllStraight(block)
    requires s.pc == |pre| && s.exit == Running
    ensures Exec(e, pre + block + post, s, |block|) == Run(e, block, s)
    ensures Run(e, block, s).pc == |pre| + |block| && Run(e, block, s).exit == Running
    decreases |block|
  {
    var code := pre + block + post;
    if block != [] {
      assert code[s.pc] == block[0];
      assert code == (pre + [block[0]]) + block[1..] + post;
      StepStraight(e, block[0], s);
      ExecBlock(e, pre + [block[0]], block[1..], post, Step(e, block[0], s));
    }
  }

  lemma {:induction false} RunAppend(e: Env, a: seq<Instr>, b: seq<Instr>, s: Cpu)
    ensures Run(e, a + b, s) == Run(e, b, Run(e, a, s))
    decreases |a|
  {
    if a == [] {
      assert a + b == b;
    } else {
      assert (a + b)[1..] == a[1..] + b;
      RunAppend(e, a[1..], b, Step(e, a[0], s));
    }
  }

  lemma Run1(e: Env, a: Instr, s: Cpu)
    ensures Run(e, [a], s) == Step(e, a, s)
  {
    assert [a][1..] == [];
  }

  lemma Run2(e: Env, a: Instr, b: Instr, s: Cpu)
    ensures Run(e, [a, b], s) == Step(e, b, Step(e, a, s))
  {
    assert [a, b] == [a] + [b];
    RunAppend(e, [a], [b], s);
    Run1(e, a, s);
    Run1(e, b, Step(e, a, s));
  }

  lemma Run3(e: Env, a: Instr, b: Instr, c: Instr, s: Cpu)
    ensures Run(e, [a, b, c], s) == Step(e, c, Step(e, b, Step(e, a, s)))
  {
    assert [a, b, c] == [a, b] + [c];
    Run2(e, a, b, s);
    Run1(e, c, Run(e, [a, b], s));
    RunAppend(e, [a, b], [c], s);
  }

  lemma Run4(e: Env, a: Instr, b: Instr, c: Instr, d: Instr, s: Cpu)
    ensures Run(e, [a, b, c, d], s) == Step(e, d, Step(e, c, Step(e, b, Step(e, a, s))))
  {
    assert [a, b, c, d] == [a, b] + [c, d];
    Run2(e, a, b, s);
    Run2(e, c, d, Run(e, [a, b], s));
    RunAppend(e, [a, b], [c, d], s);
  }

  lemma Run5(e: Env, a: Instr, b: Instr, c: Instr, d: Instr, f: Instr, s: Cpu)
    ensures Run(e, [a, b, c, d, f], s) == Step(e, f, Step(e, d, Step(e, c, Step(e, b, Step(e, a, s)))))
  {
    assert [a, b, c, d, f] == [a, b, c] + [d, f];
    Run3(e, a, b, c, s);
    Run2(e, d, f, Run(e, [a, b, c], s));
    RunAppend(e, [a, b, c], [d, f], s);
  }

  // Single steps inside a program.

  /** A stretch of program text, seen from its start. */
  predicate HasAt(code: seq<Instr>, at: nat, part: seq<Instr>) {
    at + |part| < |code| && forall k :: 0 <= k < |part| ==> code[at + k] == part[k]
  }

  lemma TextAt(pre: seq<Instr>, part: seq<Instr>, post: seq<Instr>)
    requires post != []
    ensures HasAt(pre + part + post, |pre|, part)
  {
  }

  lemma Exec0(e: Env, code: seq<Instr>, s: Cpu)
    ensures Exec(e, code, s, 0) == s
  {
  }

  lemma Exec1(e: Env, code: seq<Instr>, s: Cpu, t: Cpu, n: nat)
    requires s.exit == Running && s.pc < |code| && t == Step(e, code[s.pc], s)
    ensures Exec(e, code, s, n + 1) == Exec(e, code, t, n)
  {
  }

  lemma Exec2(e: Env, code: seq<Instr>, s: Cpu, s1: Cpu, s2: Cpu)
    requires s.exit == Running && s.pc < |code| && s1 == Step(e, code[s.pc], s)
    requires s1.exit == Running && s1.pc < |code| && s2 == Step(e, code[s1.pc], s1)
    ensures Exec(e, code, s, 2) == s2
  {
    hide Step;
    Exec1(e, code, s, s1, 1);
    Exec1(e, code, s1, s2, 0);
  }

  lemma Exec3(e: Env, code: seq<Instr>, s: Cpu, s1: Cpu, s2: Cpu, s3: Cpu)
    requires s.exit == Running && s.pc < |code| && s1 == Step(e, code[s.pc], s)
    requires s1.exit == Running && s1.pc < |code| && s2 == Step(e, code[s1.pc], s1)
    requires s2.exit == Running && s2.pc < |code| && s3 == Step(e, code[s2.pc], s2)
    ensures Exec(e, code, s, 3) == s3
  {
    hide Step;
    Exec1(e, code, s, s1, 2);
    Exec1(e, code, s1, s2, 1);
    Exec1(e, code, s2, s3, 0);
  }

  lemma Exec4(e: Env, code: seq<Instr>, s: Cpu, s1: Cpu, s2: Cpu, s3: Cpu, s4: Cpu)
    requires s.exit == Running && s.pc < |code| && s1 == Step(e, code[s.pc], s)
    requires s1.exit == Running && s1.pc < |code| && s2 == Step(e, code[s1.pc], s1)
    requires s2.exit == Running && s2.pc < |code| && s3 == Step(e, code[s2.pc], s2)
    requires s3.exit == Running && s3.pc < |code| && s4 == Step(e, code[s3.pc], s3)
    ensures Exec(e, code, s, 4) == s4
  {
    hide Step;
    Exec1(e, code, s, s1, 3);
    Exec3(e, code, s1, s2, s3, s4);
  }

  lemma Exec5(e: Env, code: seq<Instr>, s: Cpu, s1: Cpu, s2: Cpu, s3: Cpu, s4: Cpu, s5: Cpu)
    requires s.exit == Running && s.pc < |code| && s1 == Step(e, code[s.pc], s)
    requires s1.exit == Running && s1.pc < |code| && s2 == Step(e, code[s1.pc], s1)
    requires s2.exit == Running && s2.pc < |code| && s3 == Step(e, code[s2.pc], s2)
    requires s3.exit == Running && s3.pc < |code| && s4 == Step(e, code[s3.pc], s3)
    requires s4.exit == Running && s4.pc < |code| && s5 == Step(e, code[s4.pc], s4)
    ensures Exec(e, code, s, 5) == s5
  {
    hide Step;
    Exec1(e, code, s, s1, 4);
    Exec1(e, code, s1, s2, 3);
    Exec1(e, code, s2, s3, 2);
    Exec1(e, code, s3, s4, 1);
    Exec1(e, code, s4, s5, 0);
  }

  lemma ZeroStep(e: Env, s: Cpu, k: int)
    requires s.pc + 1 + k >= 0
    ensures Step(e, Breq(k), s) == s.(pc := s.pc + 1 + if s.sreg.z then k else 0)
  {
  }

  lemma JumpStep(e: Env, s: Cpu, k: int)
    requires s.pc + 1 + k >= 0
    ensures Step(e, Rjmp(k), s) == s.(pc := s.pc + 1 + k)
  {
  }

  lemma Returns(e: Env, code: seq<Instr>, s: Cpu)
    requires s.pc < |code| && code[s.pc] == Reti && s.exit == Running
    ensures Exec(e, code, s, 1) == s.(exit := Returned)
  {
    Exec1(e, code, s, Step(e, Reti, s), 0);
  }

  lemma PopStep(e: Env, d: Reg, s: Cpu, st: seq<byte>, v: byte)
    requires s.stack == st + [v]
    ensures Step(e, Pop(d), s) == s.(pc := s.pc + 1, r := s.r[d := v], stack := st)
  {
  }

  /** Two values popped: the last one pushed first. */
  lemma PopTwo(e: Env, a: Reg, b: Reg, s: Cpu, st: seq<byte>, va: byte, vb: byte)
    requires s.stack == st + [vb, va]
    ensures Run(e, [Pop(a), Pop(b)], s) == s.(pc := s.pc + 2, r := s.r[a := va][b := vb], stack := st)
  {
    Run2(e, Pop(a), Pop(b), s);
    hide Run, Step;
    assert s.stack == (st + [vb]) + [va];
    PopStep(e, a, s, st + [vb], va);
    PopStep(e, b, Step(e, Pop(a), s), st, vb);
  }

  lemma SregBack(e: Env, d: Reg, s: Cpu)
    ensures Run(e, [OutSreg(d)], s) == s.(pc := s.pc + 1, sreg := Unpack(s.r[d]))
  {
    Run1(e, OutSreg(d), s);
  }
}
