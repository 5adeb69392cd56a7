/** What `flush` promises: exactly when TXCIF tells the truth, and that a
    completed transmission is never missed. */
module TxFlush {
  import opened Bits
  import opened Ring
  import opened TxMachine
  import opened TxFifo
  import opened TxWindow

  ghost predicate FlagExact(s: State) {
    Good(s) && FlagTruth(s) && SomethingAccepted(s)
  }

  /** TXCIF, seen against the transmitter. While a byte is on its way the flag
      is set iff the transmitter completed between the clearing and the store. */
  ghost predicate FlagTruth(s: State) {
    && (InFlight(s) || Gap(s) ==> (s.usart.txcif <==> s.log.struck))
    && (!InFlight(s) && !Gap(s) && s.log.wire != [] ==> s.usart.txcif)
  }

  /** `flush` gets past its first test iff a byte was accepted. */
  ghost predicate SomethingAccepted(s: State) {
    && (Flushing(s) || s.pc.EnableDre? || (s.pc.Idle? && s.port.written) ==> s.log.accepted != [])
    && (!s.port.written ==> s.pc.Idle? && s.log.accepted == [])
  }

  lemma FlagStep(s: State, l: Label)
    requires FlagExact(s) && Enabled(s, l) && !DrainedPublish(s, l)
    ensures FlagExact(Apply(s, l))
  {
    StepGood(s, l);
    match l
    case Main => FlagMainStep(s);
    case Tick => FlagTransmit(s);
    case _ =>
  }

  lemma FlagTransmit(s: State)
    requires FlagTruth(s) && SomethingAccepted(s)
    ensures FlagTruth(Transmit(s)) && SomethingAccepted(Transmit(s))
  {
  }

  lemma FlagMainStep(s: State)
    requires FlagExact(s) && Enabled(s, Main)
    ensures FlagTruth(Apply(s, Main)) && SomethingAccepted(Apply(s, Main))
  {
    if Flushing(s) { FlagFlushStep(s); } else { FlagWriteStep(s); }
  }

  lemma FlagFlushStep(s: State)
    requires FlagExact(s) && !s.inService && Flushing(s)
    ensures FlagTruth(FlushStep(s)) && SomethingAccepted(FlushStep(s))
  {
  }

  lemma FlagWriteStep(s: State)
    requires FlagExact(s) && Enabled(s, Main) && !Flushing(s)
    ensures FlagTruth(WriteStep(s)) && SomethingAccepted(WriteStep(s))
  {
  }

  lemma {:induction false} FlagRun(s: State, ls: seq<Label>)
    requires FlagExact(s) && Admissible(s, ls) && Clean(s, ls)
    ensures FlagExact(Exec(s, ls))
    decreases |ls|
  {
    if ls != [] {
      FlagStep(s, ls[0]);
      FlagRun(Apply(s, ls[0]), ls[1..]);
    }
  }

  lemma InitFlagExact(size: nat, frame: nat, irqOn: bool)
    requires 2 <= size <= 256
    ensures FlagExact(Init(size, frame, irqOn))
  {
    InitGood(size, frame, irqOn);
  }

  /** When `flush` tests TXCIF with a byte still unsent, it returns iff the
      transmitter completed inside the latest clear-to-store gap; with every
      byte sent it always returns. */
  lemma FlushReturnsExactly(s: State)
    requires FlagExact(s) && s.pc.FlushTxc? && !s.inService
    ensures s.log.wire != s.log.accepted ==> (Apply(s, Main).pc.Idle? <==> s.log.struck)
    ensures s.log.wire == s.log.accepted ==> Apply(s, Main).pc.Idle?
  {
    assert Queue(s) == [];
  }

  /** A completion that falls between a clearing of TXCIF and the store after it. */
  predicate Strikes(s: State, l: Label) {
    l.Tick? && Gap(s) && s.usart.shift.Some? && s.usart.ticks == 0 && s.usart.data.None?
  }

  ghost predicate Unstruck(s: State, ls: seq<Label>)
    requires Bounded(s)
    decreases |ls|
  {
    ls == [] || (!Strikes(s, ls[0]) && Unstruck(Apply(s, ls[0]), ls[1..]))
  }

  lemma {:induction false} UnstruckRun(s: State, ls: seq<Label>)
    requires Bounded(s) && !s.log.struck && Unstruck(s, ls)
    ensures !Exec(s, ls).log.struck
    decreases |ls|
  {
    if ls != [] { UnstruckRun(Apply(s, ls[0]), ls[1..]); }
  }

  /** With clear and store taken together, `flush` returns only when every byte
      accepted since `begin` has left the shift register. */
  lemma FlushMeansOnTheWire(size: nat, frame: nat, irqOn: bool, ls: seq<Label>)
    requires 2 <= size <= 256
    requires var s := Init(size, frame, irqOn); Admissible(s, ls) && OneService(s, ls) && Unstruck(s, ls)
    requires var t := Exec(Init(size, frame, irqOn), ls); t.pc.FlushTxc? && !t.inService && Apply(t, Main).pc.Idle?
    ensures var t := Exec(Init(size, frame, irqOn), ls); t.log.wire == t.log.accepted
  {
    var s := Init(size, frame, irqOn);
    InitFlagExact(size, frame, irqOn);
    OneServiceIsClean(s, ls);
    FlagRun(s, ls);
    UnstruckRun(s, ls);
    FlushReturnsExactly(Exec(s, ls));
  }

  lemma {:induction false} CleanConcat(s: State, ls: seq<Label>, ms: seq<Label>)
    requires Bounded(s)
    ensures Clean(s, ls + ms) <==> Clean(s, ls) && Clean(Exec(s, ls), ms)
    decreases |ls|
  {
    if ls == [] {
      assert ls + ms == ms;
    } else {
      assert (ls + ms)[1..] == ls[1..] + ms;
      CleanConcat(Apply(s, ls[0]), ls[1..], ms);
    }
  }

  lemma TwoSteps(s: State, a: Label, b: Label)
    requires Bounded(s)
    ensures var s1 := Apply(s, a);
            && Exec(s, [a, b]) == Apply(s1, b)
            && (Enabled(s, a) && Enabled(s1, b) ==> Admissible(s, [a, b]))
            && (!s.pc.EnableDre? && !s1.pc.EnableDre? ==> Clean(s, [a, b]))
  {
    var s1 := Apply(s, a);
    assert [a, b][1..] == [b] && [b][1..] == [];
    assert Exec(s1, [b]) == Apply(s1, b) && (Enabled(s1, b) ==> Admissible(s1, [b]));
    assert !s1.pc.EnableDre? ==> Clean(s1, [b]);
    hide Apply;
  }

  /** The run [a, b, c, d] spelled out. */
  lemma FourSteps(s: State, a: Label, b: Label, c: Label, d: Label)
    requires Bounded(s)
    ensures var s1 := Apply(s, a); var s2 := Apply(s1, b); var s3 := Apply(s2, c);
            && Exec(s, [a, b, c, d]) == Apply(s3, d)
            && (Enabled(s, a) && Enabled(s1, b) && Enabled(s2, c) && Enabled(s3, d) ==> Admissible(s, [a, b, c, d]))
            && (!s.pc.EnableDre? && !s1.pc.EnableDre? && !s2.pc.EnableDre? && !s3.pc.EnableDre?
                ==> Clean(s, [a, b, c, d]))
  {
    hide Exec, Admissible, Clean, Apply;
    var s2 := Apply(Apply(s, a), b);
    TwoSteps(s, a, b);
    TwoSteps(s2, c, d);
    assert [a, b, c, d] == [a, b] + [c, d];
    ExecConcat(s, [a, b], [c, d]);
    CleanConcat(s, [a, b], [c, d]);
  }

  /** The transmitter finishes the frame it is sending. */
  lemma {:induction false} FrameEnds(s: State) returns (ls: seq<Label>)
    requires Bounded(s) && Gap(s) && s.usart.shift.Some? && s.usart.data.None?
    ensures Background(ls) && Admissible(s, ls)
    ensures Exec(s, ls) == s.(usart := s.usart.(shift := None, ticks := 0, txcif := true),
                              log := s.log.(wire := s.log.wire + [s.usart.shift.value], struck := true))
    decreases s.usart.ticks
  {
    var t := Transmit(s);
    if s.usart.ticks == 0 {
      ls := [Tick];
      assert ls[1..] == [];
    } else {
      var rest := FrameEnds(t);
      ls := [Tick] + rest;
      assert ls[1..] == rest;
    }
  }

  lemma {:induction false} NoCalls(ls: seq<Label>)
    requires Background(ls)
    ensures Program(ls) == []
  {
    if ls != [] { NoCalls(ls[1..]); }
  }

  lemma FourCalls(a: Label, b: Label, c: Label, d: Label)
    ensures Program([a, b, c, d]) == Program([a]) + Program([b]) + Program([c]) + Program([d])
  {
    assert [a, b, c, d] == [a] + [b] + [c] + [d];
    ProgramConcat([a], [b]);
    ProgramConcat([a] + [b], [c]);
    ProgramConcat([a] + [b] + [c], [d]);
  }

  /** The fast path of `write`, up to the store. */
  lemma ReachStore(s: State, c: byte)
    requires Bounded(s) && s.pc.Idle? && Empty(s) && !s.inService && s.usart.data.None?
    ensures var ls := [Write(c), Main, Main, Main];
            && Admissible(s, ls) && Clean(s, ls)
            && Exec(s, ls) == s.(port := s.port.(written := true), usart := s.usart.(txcif := false), pc := StoreData(c),
                                 log := s.log.(struck := false))
  {
    FourSteps(s, Write(c), Main, Main, Main);
    hide Exec, Admissible, Clean;
  }

  /** The store after a strike, and a `flush` that finds TXCIF set. */
  lemma StruckReturn(s: State, c: byte)
    requires Bounded(s) && s.pc == StoreData(c) && !s.inService && !s.usart.dreie && s.usart.txcif && s.port.written
    ensures var ls := [Main, Flush, Main, Main];
            && Admissible(s, ls) && Clean(s, ls)
            && Exec(s, ls) == s.(usart := s.usart.(data := Some(c)), pc := Idle, log := s.log.(accepted := s.log.accepted + [c]))
  {
    FourSteps(s, Main, Flush, Main, Main);
    hide Exec, Admissible, Clean;
  }

  /** The race is real: whenever the last byte is still in the shift register
      and TXDATAL is free, the fast path of `write` can be struck, and the next
      `flush` returns with the new byte unsent. */
  lemma StruckFlushReturnsEarly(s: State, c: byte) returns (ls: seq<Label>)
    requires Good(s) && s.pc.Idle? && Empty(s) && !s.inService
    requires s.usart.shift.Some? && s.usart.data.None?
    ensures Admissible(s, ls) && Clean(s, ls) && Program(ls) == [Write(c), Flush]
    ensures var t := Exec(s, ls);
            t.pc.Idle? && !t.inService && t.usart.data == Some(c) && t.log.accepted == t.log.wire + [c]
            && t.log.accepted == s.log.accepted + [c]
  {
    var call, rest := [Write(c), Main, Main, Main], [Main, Flush, Main, Main];
    ReachStore(s, c);
    var s4 := Exec(s, call);
    var ticks := FrameEnds(s4);
    BackgroundIsClean(s4, ticks);
    StruckReturn(Exec(s4, ticks), c);
    assert Queue(s) == [];
    hide Exec, Admissible, Clean, Contents;
    ls := call + ticks + rest;
    ExecConcat(s, call, ticks);
    CleanConcat(s, call, ticks);
    ExecConcat(s, call + ticks, rest);
    CleanConcat(s, call + ticks, rest);
    NoCalls(ticks);
    FourCalls(Write(c), Main, Main, Main);
    FourCalls(Main, Flush, Main, Main);
    ProgramConcat(call, ticks);
    ProgramConcat(call + ticks, rest);
  }
}
