/** The transmit half of a USART port as a state machine: the main thread inside
    `write` or `flush`, the data-register-empty (DRE) handler, and the
    transmitter. One label is one access that another party could observe. */
module TxMachine {
  import opened Bits
  import opened Ring

  datatype Option<+T> = None | Some(value: T)

  /** Where the main thread is; each value names the access it makes next. */
  datatype Pc =
    | Idle
    | CheckRing(c: byte)   // write: is the ring empty?
    | CheckDre(c: byte)    // write: is the data register empty?
    | ClearTxc(c: byte)    // write, fast path: clear TXCIF
    | StoreData(c: byte)   // write, fast path: store TXDATAL
    | Wait(c: byte)        // write: is the ring full?
    | PollWrite(c: byte)   // write: poll, then back to Wait
    | StoreSlot(c: byte)   // write: fill the head slot
    | StoreHead(c: byte)   // write: publish the new head
    | EnableDre            // write: switch DREIE on
    | FlushDre             // flush: is DREIE on?
    | FlushTxc             // flush: is TXCIF set?
    | PollFlush            // flush: poll, then back to FlushDre

  /** The transmit fields of HardwareSerial; `written` is bit 0 of `_state`. */
  datatype Port = Port(buf: seq<byte>, head: nat, tail: nat, written: bool)

  /** The transmitter: two flags, TXDATAL, the shift register and the ticks left of its frame. */
  datatype Usart = Usart(dreie: bool, txcif: bool, data: Option<byte>, shift: Option<byte>, ticks: nat, frame: nat)

  /** History: bytes sent, bytes accepted, the ring length when the head was
      last published, the services since then, and whether the transmitter
      completed between the latest clearing of TXCIF and the store after it. */
  datatype Log = Log(wire: seq<byte>, accepted: seq<byte>, queued: nat, services: nat, struck: bool)

  /** `irqOn`: interrupts are enabled and no handler runs underneath the caller.
      `inService`: a DRE service has cleared TXCIF and not yet stored its byte. */
  datatype State = State(port: Port, usart: Usart, irqOn: bool, pc: Pc, inService: bool, log: Log)

  datatype Label =
    | Write(c: byte) | Flush | SetIrq(on: bool)   // the program, between calls
    | Main                                        // the main thread's next access
    | Isr | Store                                 // the DRE handler
    | Tick                                        // the transmitter

  function Init(size: nat, frame: nat, irqOn: bool): State {
    State(Port(seq(size, _ => 0), 0, 0, false), Usart(false, false, None, None, 0, frame),
          irqOn, Idle, false, Log([], [], 0, 0, false))
  }

  predicate Bounded(s: State) {
    2 <= |s.port.buf| && s.port.head < |s.port.buf| && s.port.tail < |s.port.buf|
  }

  /** The indices are bytes, so that one access loads or stores one. */
  predicate ByteIndex(s: State) {
    |s.port.buf| <= 256
  }

  /** The main thread or a service has cleared TXCIF and not yet stored its byte. */
  predicate Gap(s: State) {
    s.inService || s.pc.StoreData?
  }

  predicate InFlight(s: State) {
    s.usart.data.Some? || s.usart.shift.Some?
  }

  predicate Empty(s: State) {
    s.port.head == s.port.tail
  }

  predicate Enabled(s: State, l: Label) {
    match l
    case Write(_) => s.pc.Idle? && !s.inService
    case Flush => s.pc.Idle? && !s.inService
    case SetIrq(_) => s.pc.Idle? && !s.inService
    case Main => !s.pc.Idle? && !s.inService
    case Isr => s.irqOn && s.usart.dreie && s.usart.data.None? && !s.inService
    case Store => s.inService
    case Tick => true
  }

  function ClearTxcif(s: State): State {
    s.(usart := s.usart.(txcif := false), log := s.log.(struck := false))
  }

  function BeginService(s: State): State {
    ClearTxcif(s).(inService := true)
  }

  /** The rest of the handler. It runs with the main thread stopped, and the
      transmitter reads neither the tail nor DREIE, so one step suffices. */
  function EndService(s: State): (t: State)
    requires Bounded(s)
  {
    var tail := Next(s.port.tail, |s.port.buf|);
    s.(port := s.port.(tail := tail),
       usart := s.usart.(data := Some(s.port.buf[s.port.tail]), dreie := s.usart.dreie && s.port.head != tail),
       inService := false,
       log := s.log.(services := s.log.services + 1))
  }

  /** `_poll_tx_data_empty`: service the ring by hand when no interrupt can. */
  function Poll(s: State): State {
    if s.irqOn || s.usart.data.Some? then s
    else if Empty(s) then s.(usart := s.usart.(dreie := false))
    else BeginService(s)
  }

  /** One clock of the transmitter. Completion sets TXCIF only if no byte follows. */
  function Clock(u: Usart): Usart {
    if u.shift.Some? && u.ticks > 0 then u.(ticks := u.ticks - 1)
    else if u.shift.Some? then u.(shift := None, txcif := u.txcif || u.data.None?)
    else if u.data.Some? then u.(shift := u.data, data := None, ticks := u.frame)
    else u
  }

  function Transmit(s: State): State {
    var u := s.usart;
    var t := s.(usart := Clock(u));
    if u.shift.Some? && u.ticks == 0 then
      t.(log := s.log.(wire := s.log.wire + [u.shift.value],
                       struck := s.log.struck || (u.data.None? && Gap(s))))
    else t
  }

  function AcceptByte(s: State, c: byte): State {
    s.(log := s.log.(accepted := s.log.accepted + [c]))
  }

  function WriteStep(s: State): State
    requires Bounded(s)
  {
    match s.pc
    case CheckRing(c) => s.(pc := if Empty(s) then CheckDre(c) else Wait(c))
    case CheckDre(c) => s.(pc := if s.usart.data.None? then ClearTxc(c) else Wait(c))
    case ClearTxc(c) => ClearTxcif(s).(pc := StoreData(c))
    case StoreData(c) => AcceptByte(s, c).(usart := s.usart.(data := Some(c)), pc := Idle)
    case Wait(c) => s.(pc := if Next(s.port.head, |s.port.buf|) == s.port.tail then PollWrite(c) else StoreSlot(c))
    case PollWrite(c) => Poll(s.(pc := Wait(c)))
    case StoreSlot(c) => FillSlot(s, c)
    case StoreHead(c) => PublishHead(s, c)
    case EnableDre => SwitchDreieOn(s)
    case _ => s
  }

  function FillSlot(s: State, c: byte): State
    requires Bounded(s)
  {
    s.(port := s.port.(buf := s.port.buf[s.port.head := c]), pc := StoreHead(c))
  }

  function SwitchDreieOn(s: State): State {
    s.(usart := s.usart.(dreie := true), pc := Idle)
  }

  function PublishHead(s: State, c: byte): State
    requires Bounded(s)
  {
    var head := Next(s.port.head, |s.port.buf|);
    var t := AcceptByte(s, c);
    t.(port := t.port.(head := head), pc := EnableDre,
       log := t.log.(queued := Len(head, t.port.tail, |t.port.buf|), services := 0))
  }

  function FlushStep(s: State): State {
    match s.pc
    case FlushDre => s.(pc := if s.usart.dreie then PollFlush else FlushTxc)
    case FlushTxc => s.(pc := if s.usart.txcif then Idle else PollFlush)
    case PollFlush => Poll(s.(pc := FlushDre))
    case _ => s
  }

  predicate Flushing(s: State) {
    s.pc.FlushDre? || s.pc.FlushTxc? || s.pc.PollFlush?
  }

  function Apply(s: State, l: Label): (t: State)
    requires Bounded(s)
    ensures Bounded(t) && |t.port.buf| == |s.port.buf|
  {
    match l
    case Write(c) => s.(port := s.port.(written := true), pc := CheckRing(c))
    case Flush => if s.port.written then s.(pc := FlushDre) else s
    case SetIrq(on) => s.(irqOn := on)
    case Main => if Flushing(s) then FlushStep(s) else WriteStep(s)
    case Isr => BeginService(s)
    case Store => EndService(s)
    case Tick => Transmit(s)
  }

  /** A run: every label is enabled when it is taken. */
  ghost predicate Admissible(s: State, ls: seq<Label>)
    requires Bounded(s)
    decreases |ls|
  {
    ls == [] || (Enabled(s, ls[0]) && Admissible(Apply(s, ls[0]), ls[1..]))
  }

  ghost function Exec(s: State, ls: seq<Label>): (t: State)
    requires Bounded(s)
    ensures Bounded(t) && |t.port.buf| == |s.port.buf|
    decreases |ls|
  {
    if ls == [] then s else Exec(Apply(s, ls[0]), ls[1..])
  }

  function Queue(s: State): seq<byte>
    requires Bounded(s)
  {
    Contents(s.port.buf, s.port.head, s.port.tail)
  }

  function Held(r: Option<byte>): seq<byte> {
    if r.Some? then [r.value] else []
  }

  /** Every accepted byte is, in order, on the wire, in the transmitter or queued. */
  ghost predicate Fifo(s: State)
    requires Bounded(s)
  {
    s.log.accepted == s.log.wire + Held(s.usart.shift) + Held(s.usart.data) + Queue(s)
  }

  lemma {:induction false} ExecAppend(s: State, ls: seq<Label>, l: Label)
    requires Bounded(s)
    ensures Exec(s, ls + [l]) == Apply(Exec(s, ls), l)
    ensures Admissible(s, ls + [l]) <==> Admissible(s, ls) && Enabled(Exec(s, ls), l)
    decreases |ls|
  {
    if ls == [] {
      assert (ls + [l])[1..] == [];
      assert Exec(Apply(s, l), []) == Apply(s, l);
    } else {
      assert (ls + [l])[1..] == ls[1..] + [l];
      ExecAppend(Apply(s, ls[0]), ls[1..], l);
    }
  }

  lemma {:induction false} ExecConcat(s: State, ls: seq<Label>, ms: seq<Label>)
    requires Bounded(s)
    ensures Exec(s, ls + ms) == Exec(Exec(s, ls), ms)
    ensures Admissible(s, ls + ms) <==> Admissible(s, ls) && Admissible(Exec(s, ls), ms)
    decreases |ls|
  {
    if ls == [] {
      assert ls + ms == ms;
    } else {
      assert (ls + ms)[1..] == ls[1..] + ms;
      ExecConcat(Apply(s, ls[0]), ls[1..], ms);
    }
  }

  /** The calls the program makes in a run, in order. */
  ghost function Program(ls: seq<Label>): seq<Label> {
    if ls == [] then []
    else (if ls[0].Write? || ls[0].Flush? || ls[0].SetIrq? then [ls[0]] else []) + Program(ls[1..])
  }

  lemma {:induction false} ProgramConcat(ls: seq<Label>, ms: seq<Label>)
    ensures Program(ls + ms) == Program(ls) + Program(ms)
  {
    if ls == [] {
      assert ls + ms == ms;
    } else {
      assert (ls + ms)[0] == ls[0] && (ls + ms)[1..] == ls[1..] + ms;
      ProgramConcat(ls[1..], ms);
      var call := if ls[0].Write? || ls[0].Flush? || ls[0].SetIrq? then [ls[0]] else [];
      assert Program(ls) == call + Program(ls[1..]);
      assert Program(ls + ms) == call + Program(ls[1..] + ms);
      hide Program;
    }
  }

  lemma ProgramNext(ls: seq<Label>, l: Label)
    ensures Program(ls + [l]) == Program(ls) + if l.Write? || l.Flush? || l.SetIrq? then [l] else []
  {
    ProgramConcat(ls, [l]);
    assert [l][1..] == [];
  }
}
