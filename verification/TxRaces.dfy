/** The two failures of transmission, from the caller's side: when exactly `write`
    then `flush` may return too early, and runs from `begin` that meet them. */
module TxRaces {
  import opened Bits
  import opened Ring
  import opened TxMachine
  import opened TxFifo
  import opened TxWindow
  import opened TxFlush
  import opened TxProgress

  /** From s the run ls, clean and making the calls p, leads to t. */
  ghost predicate Leads(s: State, ls: seq<Label>, p: seq<Label>, t: State) {
    && Bounded(s) && Admissible(s, ls) && Clean(s, ls)
    && Program(ls) == p && Exec(s, ls) == t
  }

  lemma LeadsNowhere(s: State)
    requires Bounded(s)
    ensures Leads(s, [], [], s)
  {
  }

  lemma LeadsOn(s: State, ls: seq<Label>, p: seq<Label>, t: State, ms: seq<Label>, q: seq<Label>, u: State)
    requires Leads(s, ls, p, t) && Leads(t, ms, q, u)
    ensures Leads(s, ls + ms, p + q, u)
  {
    ExecConcat(s, ls, ms);
    CleanConcat(s, ls, ms);
    ProgramConcat(ls, ms);
  }

  /** One more step; only the program's own labels are calls. */
  lemma LeadsNext(s: State, ls: seq<Label>, p: seq<Label>, t: State, l: Label) returns (ms: seq<Label>, u: State)
    requires Leads(s, ls, p, t) && Enabled(t, l) && !DrainedPublish(t, l)
    ensures ms == ls + [l] && u == Apply(t, l)
    ensures Leads(s, ms, p + if l.Write? || l.Flush? || l.SetIrq? then [l] else [], u)
  {
    ms, u := ls + [l], Apply(t, l);
    ExecAppend(s, ls, l);
    CleanConcat(s, ls, [l]);
    assert Clean(t, [l]) by { assert [l][1..] == []; }
    ProgramNext(ls, l);
  }

  lemma BackgroundLeads(s: State, ls: seq<Label>)
    requires Bounded(s) && Admissible(s, ls) && Background(ls)
    ensures Leads(s, ls, [], Exec(s, ls))
  {
    BackgroundIsClean(s, ls);
    NoCalls(ls);
  }

  lemma LeadsKeepsGood(s: State, ls: seq<Label>, p: seq<Label>, t: State)
    requires Good(s) && Leads(s, ls, p, t)
    ensures Good(t)
  {
    CleanRunIsFifo(s, ls);
  }

  /** `write` on an idle port: the fast path. */
  lemma FastWrite(s: State, c: byte) returns (ls: seq<Label>, t: State)
    requires Bounded(s) && s.pc.Idle? && !s.inService && Empty(s) && s.usart.data.None?
    ensures Leads(s, ls, [Write(c)], t)
    ensures t == s.(port := s.port.(written := true), usart := s.usart.(txcif := false, data := Some(c)),
                    log := s.log.(accepted := s.log.accepted + [c], struck := false))
  {
    LeadsNowhere(s);
    ls, t := LeadsNext(s, [], [], s, Write(c));
    ls, t := MainStep(s, ls, [Write(c)], t);
    ls, t := MainStep(s, ls, [Write(c)], t);
    ls, t := MainStep(s, ls, [Write(c)], t);
    ls, t := MainStep(s, ls, [Write(c)], t);
  }

  lemma MainStep(s: State, ls: seq<Label>, p: seq<Label>, t: State) returns (ms: seq<Label>, u: State)
    requires Leads(s, ls, p, t) && Enabled(t, Main) && !DrainedPublish(t, Main)
    ensures u == Apply(t, Main) && Leads(s, ms, p, u)
  {
    ms, u := LeadsNext(s, ls, p, t, Main);
    assert p + [] == p;
  }

  /** `write` while something is queued or in TXDATAL: up to the wait loop. */
  lemma ReachWait(s: State, c: byte) returns (ls: seq<Label>, t: State)
    requires Bounded(s) && s.pc.Idle? && !s.inService && (!Empty(s) || s.usart.data.Some?)
    ensures Leads(s, ls, [Write(c)], t) && t == s.(port := s.port.(written := true), pc := Wait(c))
  {
    LeadsNowhere(s);
    ls, t := LeadsNext(s, [], [], s, Write(c));
    ls, t := MainStep(s, ls, [Write(c)], t);
    if Empty(s) { ls, t := MainStep(s, ls, [Write(c)], t); }
  }

  /** ... and on to the DREIE store, when the ring has room. */
  lemma ReachEnable(s: State, c: byte) returns (ls: seq<Label>, t: State)
    requires Bounded(s) && s.pc.Idle? && !s.inService && (!Empty(s) || s.usart.data.Some?)
    requires Next(s.port.head, |s.port.buf|) != s.port.tail
    ensures Leads(s, ls, [Write(c)], t)
    ensures var head := Next(s.port.head, |s.port.buf|);
            t == s.(port := Port(s.port.buf[s.port.head := c], head, s.port.tail, true), pc := EnableDre,
                    log := s.log.(accepted := s.log.accepted + [c], services := 0,
                                  queued := Len(head, s.port.tail, |s.port.buf|)))
  {
    ls, t := ReachWait(s, c);
    ls, t := MainStep(s, ls, [Write(c)], t);
    ls, t := MainStep(s, ls, [Write(c)], t);
    ls, t := MainStep(s, ls, [Write(c)], t);
  }

  /** With interrupts off, a poll services the ring once TXDATAL is free. */
  lemma PolledService(s: State) returns (ls: seq<Label>, t: State)
    requires Good(s) && !s.irqOn && !s.inService && !Empty(s) && (s.pc.PollWrite? || s.pc.PollFlush?)
    ensures Leads(s, ls, [], t) && Good(t) && t.pc == AfterPoll(s.pc) && !t.irqOn && !t.inService
    ensures t.port == s.port.(tail := Next(s.port.tail, |s.port.buf|)) && t.usart.data.Some?
    ensures Queue(t) == Queue(s)[1..] && t.log.accepted == s.log.accepted
  {
    var ticks := TransmitterTakesByte(s);
    BackgroundLeads(s, ticks);
    var open;
    ls, open := MainStep(s, ticks, [], Exec(s, ticks));
    ls, t := LeadsNext(s, ls, [], open, Store);
    LeadsKeepsGood(s, ls, [], t);
    Pop(s.port.buf, s.port.head, s.port.tail);
  }

  /** With interrupts off, `write` finds a slot; what it waited behind is still there. */
  lemma FindSlot(s: State, c: byte) returns (ls: seq<Label>, t: State)
    requires Good(s) && !s.irqOn && !s.inService && !Empty(s) && s.pc == Wait(c)
    ensures Leads(s, ls, [], t) && Good(t) && t.pc == StoreSlot(c) && !t.irqOn && !t.inService
    ensures t.log.accepted == s.log.accepted && t.port.written == s.port.written && (!Empty(t) || InFlight(t))
  {
    LeadsNowhere(s);
    ls, t := MainStep(s, [], [], s);
    LeadsKeepsGood(s, ls, [], t);
    if t.pc.PollWrite? {
      var ms, u := PolledService(t);
      LeadsOn(s, ls, [], t, ms, [], u);
      ls, t := MainStep(s, ls + ms, [], u);
      LeadsKeepsGood(s, ls, [], t);
    }
  }

  /** The rest of `write`: the byte joins the queue. */
  lemma Publish(s: State, c: byte) returns (ls: seq<Label>, t: State)
    requires Good(s) && !s.irqOn && !s.inService && s.pc == StoreSlot(c)
    ensures Leads(s, ls, [], t) && Good(t) && t.pc.Idle? && !t.irqOn && !t.inService
    ensures t.log.accepted == s.log.accepted + [c] && |Queue(t)| == |Queue(s)| + 1 && InFlight(t) == InFlight(s)
    ensures t.port.written == s.port.written
  {
    hide Leads, Fifo, FlagTruth, DreieTracksQueue, Contents;
    LeadsNowhere(s);
    ls, t := MainStep(s, [], [], s);
    HeadSlotIsOutside(s.port.buf, s.port.head, s.port.tail, c);
    Push(t.port.buf, t.port.head, t.port.tail);
    ls, t := MainStep(s, ls, [], t);
    ls, t := MainStep(s, ls, [], t);
    LeadsKeepsGood(s, ls, [], t);
  }

  /** `write` with interrupts off on a non-empty ring. */
  lemma SlowWrite(s: State, c: byte) returns (ls: seq<Label>, t: State)
    requires Good(s) && s.pc.Idle? && !s.irqOn && !s.inService && !Empty(s)
    ensures Leads(s, ls, [Write(c)], t) && Good(t) && t.pc.Idle? && !t.irqOn && !t.inService
    ensures t.port.written && t.log.accepted == s.log.accepted + [c] && !Empty(t) && (2 <= |Queue(t)| || InFlight(t))
  {
    var u, v, ms;
    ls, u := ReachWait(s, c);
    LeadsKeepsGood(s, ls, [Write(c)], u);
    ms, v := FindSlot(u, c);
    LeadsOn(s, ls, [Write(c)], u, ms, [], v);
    ls := ls + ms;
    ms, t := Publish(v, c);
    LeadsOn(s, ls, [Write(c)], v, ms, [], t);
    ls := ls + ms;
  }

  /** `flush` returned, and the last byte accepted is still in TXDATAL. */
  ghost predicate LastUnsent(t: State) {
    t.pc.Idle? && !t.inService && t.usart.data.Some? && t.log.accepted == t.log.wire + [t.usart.data.value]
  }

  /** The last queued byte is polled while its predecessor is being sent, which
      ends inside the gap: TXCIF is then set although a byte was stored after it. */
  lemma StruckPoll(s: State) returns (ls: seq<Label>, t: State)
    requires Good(s) && !s.irqOn && !s.inService && s.pc.PollFlush? && |Queue(s)| == 1
    requires s.usart.data.None? && s.usart.shift.Some?
    ensures Leads(s, ls, [], t) && LastUnsent(t) && t.log.accepted == s.log.accepted
  {
    LeadsNowhere(s);
    ls, t := MainStep(s, [], [], s);
    var ticks := FrameEnds(t);
    var u := Exec(t, ticks);
    BackgroundLeads(t, ticks);
    LeadsOn(s, ls, [], t, ticks, [], u);
    ls, t := LeadsNext(s, ls + ticks, [], u, Store);
    LeadsKeepsGood(s, ls, [], t);
    Pop(s.port.buf, s.port.head, s.port.tail);
    assert Queue(t) == [];
    hide Leads, Contents;
    ls, t := MainStep(s, ls, [], t);
    ls, t := MainStep(s, ls, [], t);
  }

  /** With interrupts off, `flush` polls the ring empty and is struck at the end. */
  lemma {:induction false} StruckFlush(s: State) returns (ls: seq<Label>, t: State)
    requires Good(s) && !s.irqOn && !s.inService && s.pc.FlushDre?
    requires !Empty(s) && (2 <= |Queue(s)| || InFlight(s))
    ensures Leads(s, ls, [], t) && LastUnsent(t) && t.log.accepted == s.log.accepted
    decreases |Queue(s)|
  {
    LeadsNowhere(s);
    var u, v, ms;
    ls, u := MainStep(s, [], [], s);
    LeadsKeepsGood(s, ls, [], u);
    if |Queue(s)| == 1 {
      var ticks := TransmitterTakesByte(u);
      v := Exec(u, ticks);
      BackgroundLeads(u, ticks);
      LeadsKeepsGood(u, ticks, [], v);
      LeadsOn(s, ls, [], u, ticks, [], v);
      ls := ls + ticks;
      ms, t := StruckPoll(v);
    } else {
      ms, v := PolledService(u);
      LeadsOn(s, ls, [], u, ms, [], v);
      ls := ls + ms;
      ms, t := StruckFlush(v);
    }
    LeadsOn(s, ls, [], v, ms, [], t);
    ls := ls + ms;
  }

  /** With interrupts on, the handler drains the ring and leaves its last byte in flight. */
  lemma {:induction false} Drains(s: State) returns (ls: seq<Label>, t: State)
    requires Good(s) && s.irqOn && !s.inService && s.usart.dreie && !Empty(s)
    ensures Leads(s, ls, [], t) && Good(t) && t.pc == s.pc && t.irqOn && !t.inService && Empty(t) && InFlight(t)
    ensures t.log.accepted == s.log.accepted
    decreases |Queue(s)|
  {
    ls := Service(s);
    t := Exec(s, ls);
    ServicesKeepGood(s, ls);
    BackgroundLeads(s, ls);
    Pop(s.port.buf, s.port.head, s.port.tail);
    if !Empty(t) {
      var ms, u := Drains(t);
      LeadsOn(s, ls, [], t, ms, [], u);
      ls, t := ls + ms, u;
    }
  }

  /** Anything still queued or in flight at the call of `write` is enough. */
  lemma BusyMayReturnEarly(s: State, c: byte) returns (ls: seq<Label>, t: State)
    requires Good(s) && s.pc.Idle? && !s.inService && !Quiet(s)
    ensures Leads(s, ls, [Write(c), Flush], t) && LastUnsent(t) && t.log.accepted == s.log.accepted + [c]
  {
    if !Empty(s) && !s.irqOn {
      var u, v, ms;
      ls, u := SlowWrite(s, c);
      ls, v := LeadsNext(s, ls, [Write(c)], u, Flush);
      LeadsKeepsGood(s, ls, [Write(c)] + [Flush], v);
      ms, t := StruckFlush(v);
      LeadsOn(s, ls, [Write(c)] + [Flush], v, ms, [], t);
      ls := ls + ms;
      assert [Write(c)] + [Flush] + [] == [Write(c), Flush];
    } else {
      var u, v := s, s;
      ls := [];
      LeadsNowhere(s);
      if !Empty(s) { ls, u := Drains(s); }
      var ticks := TransmitterTakesByte(u);
      v := Exec(u, ticks);
      BackgroundLeads(u, ticks);
      LeadsKeepsGood(u, ticks, [], v);
      LeadsOn(s, ls, [], u, ticks, [], v);
      assert InFlight(u);
      assert v.log.accepted == s.log.accepted;
      var ms := StruckFlushReturnsEarly(v, c);
      t := Exec(v, ms);
      LeadsOn(s, ls + ticks, [], v, ms, [Write(c), Flush], t);
      ls := ls + ticks + ms;
    }
  }

  /** The stages of a write(c) and a flush() begun with everything quiet; `left`
      is what the program has still to call. */
  ghost predicate Stage(s: State, c: byte, left: seq<Label>) {
    && FlagExact(s) && Empty(s) && !s.inService && !s.usart.dreie
    && if left == [Write(c), Flush] then s.pc.Idle? && !InFlight(s)
       else if left == [Flush] then
         || ((s.pc == CheckRing(c) || s.pc == CheckDre(c) || s.pc == ClearTxc(c)) && !InFlight(s))
         || (s.pc == StoreData(c) && !InFlight(s) && !s.log.struck)
         || (s.pc.Idle? && !s.log.struck && s.log.accepted != [])
       else left == [] && ((Flushing(s) && !s.log.struck) || (s.pc.Idle? && s.log.wire == s.log.accepted))
  }

  lemma StageStep(s: State, c: byte, l: Label, left: seq<Label>)
    requires Enabled(s, l)
    requires Stage(s, c, (if l.Write? || l.Flush? || l.SetIrq? then [l] else []) + left)
    ensures Stage(Apply(s, l), c, left)
  {
    var all := (if l.Write? || l.Flush? || l.SetIrq? then [l] else []) + left;
    FlagStep(s, l);
    assert l.Write? || l.Flush? || l.SetIrq? ==> all[0] == l && all[1..] == left;
    assert [Write(c), Flush][1..] == [Flush] && [Flush][1..] == [];
    if l.Main? && s.pc.FlushTxc? { FlushReturnsExactly(s); }
  }

  /** From a quiet port the pair never returns too early, on any run at all. */
  lemma {:induction false} StageRun(s: State, c: byte, ls: seq<Label>)
    requires Stage(s, c, Program(ls)) && Admissible(s, ls)
    ensures Stage(Exec(s, ls), c, [])
    decreases |ls|
  {
    if ls != [] {
      StageStep(s, c, ls[0], Program(ls[1..]));
      StageRun(Apply(s, ls[0]), c, ls[1..]);
    }
  }

  /** On the run ls, which is write(c) then flush() and what happens meanwhile,
      both calls return while a byte accepted is still unsent. */
  ghost predicate ReturnsEarly(s: State, c: byte, ls: seq<Label>) {
    && Bounded(s) && Admissible(s, ls) && Program(ls) == [Write(c), Flush]
    && var t := Exec(s, ls); t.pc.Idle? && t.log.wire != t.log.accepted
  }

  /** The exact condition, at the call: `write` then `flush` may return too early
      if and only if anything was queued or in the transmitter before them. */
  lemma MayReturnEarlyIff(s: State, c: byte)
    requires FlagExact(s) && s.pc.Idle? && !s.inService
    ensures (exists ls :: ReturnsEarly(s, c, ls)) <==> !Quiet(s)
  {
    if Quiet(s) {
      forall ls | Admissible(s, ls) && Program(ls) == [Write(c), Flush] && Exec(s, ls).pc.Idle?
        ensures Exec(s, ls).log.wire == Exec(s, ls).log.accepted
      {
        StageRun(s, c, ls);
      }
    } else {
      var ls, t := BusyMayReturnEarly(s, c);
      assert ReturnsEarly(s, c, ls);
    }
  }

  /** A run from `begin` on which `flush` returns before the second byte is sent. */
  lemma EarlyReturnFromBegin(size: nat, frame: nat, irqOn: bool, a: byte, c: byte) returns (ls: seq<Label>, t: State)
    requires 2 <= size <= 256
    ensures Leads(Init(size, frame, irqOn), ls, [Write(a), Write(c), Flush], t)
    ensures t.pc.Idle? && t.log.accepted == [a, c] && t.log.wire == [a]
  {
    var s := Init(size, frame, irqOn);
    InitGood(size, frame, irqOn);
    var u, ms;
    ls, u := FastWrite(s, a);
    LeadsKeepsGood(s, ls, [Write(a)], u);
    ms, t := BusyMayReturnEarly(u, c);
    LeadsOn(s, ls, [Write(a)], u, ms, [Write(c), Flush], t);
    ls := ls + ms;
    assert [Write(a)] + [Write(c), Flush] == [Write(a), Write(c), Flush];
    assert t.log.accepted == [a, c];
    assert t.log.wire == t.log.accepted[..1];
  }

  /** Three writes from `begin` reach the publish window with two bytes queued. */
  lemma WindowFromBegin(size: nat, frame: nat, a: byte, b: byte, c: byte) returns (ls: seq<Label>, t: State)
    requires 3 <= size <= 256
    ensures Leads(Init(size, frame, true), ls, [Write(a), Write(b), Write(c)], t)
    ensures t.pc.EnableDre? && t.irqOn && !t.inService && t.log.queued == 2 && t.log.services == 0
    ensures t.log.accepted == [a, b, c] && t.port.head == 2 && t.port.buf == Init(size, frame, true).port.buf[0 := b][1 := c]
  {
    var s := Init(size, frame, true);
    var u, v, w, ms;
    ls, u := FastWrite(s, a);
    ms, v := ReachEnable(u, b);
    LeadsOn(s, ls, [Write(a)], u, ms, [Write(b)], v);
    ls, w := MainStep(s, ls + ms, [Write(a)] + [Write(b)], v);
    ms, t := ReachEnable(w, c);
    LeadsOn(s, ls, [Write(a)] + [Write(b)], w, ms, [Write(c)], t);
    ls := ls + ms;
    assert [Write(a)] + [Write(b)] + [Write(c)] == [Write(a), Write(b), Write(c)];
  }

  /** A run from `begin`, with two services in the last window, on which the
      fourth byte transmitted is one that nobody wrote. */
  lemma StaleByteFromBegin(size: nat, frame: nat, a: byte, b: byte, c: byte) returns (ls: seq<Label>)
    requires 3 <= size <= 256
    ensures Admissible(Init(size, frame, true), ls) && Program(ls) == [Write(a), Write(b), Write(c)]
    ensures var t := Exec(Init(size, frame, true), ls);
            t.log.accepted == [a, b, c] && Sent(t) == [a, b, c, 0] && !Fifo(t)
  {
    var s := Init(size, frame, true);
    InitGood(size, frame, true);
    var u;
    ls, u := WindowFromBegin(size, frame, a, b, c);
    LeadsKeepsGood(s, ls, [Write(a), Write(b), Write(c)], u);
    var window, after := TwoServicesSendStaleSlot(u);
    var rest := window + [Main] + after;
    ExecConcat(s, ls, rest);
    ProgramConcat(ls, rest);
    ProgramConcat(window + [Main], after);
    ProgramNext(window, Main);
    NoCalls(window);
    NoCalls(after);
    ls := ls + rest;
    assert [a, b, c] + [0] == [a, b, c, 0];
  }

  // When one call of `write` alone may break the FIFO order.

  /** On the run ls, which is write(c) and what happens meanwhile, the order breaks. */
  ghost predicate BreaksOrder(s: State, c: byte, ls: seq<Label>) {
    Bounded(s) && Admissible(s, ls) && Program(ls) == [Write(c)] && !Fifo(Exec(s, ls))
  }

  /** With interrupts on and something queued, `write` can be overtaken: the handler
      drains the ring between the head store and the DREIE store. */
  lemma Overtaken(s: State, c: byte) returns (ls: seq<Label>)
    requires Good(s) && s.pc.Idle? && !s.inService && s.irqOn && !Empty(s) && 3 <= |s.port.buf|
    ensures BreaksOrder(s, c, ls)
    ensures var t := Exec(s, ls); t.log.accepted == s.log.accepted + [c] && |Sent(t)| == |t.log.accepted| + 1
  {
    var u := s;
    ls := [];
    LeadsNowhere(s);
    FullIff(s.port.head, s.port.tail, |s.port.buf|);
    if Next(s.port.head, |s.port.buf|) == s.port.tail {
      ls := Service(s);
      u := Exec(s, ls);
      ServicesKeepGood(s, ls);
      BackgroundLeads(s, ls);
      Pop(s.port.buf, s.port.head, s.port.tail);
      FullIff(u.port.head, u.port.tail, |u.port.buf|);
    }
    var v, w, ms;
    ms, v := ReachEnable(u, c);
    LeadsOn(s, ls, [], u, ms, [Write(c)], v);
    LeadsKeepsGood(u, ms, [Write(c)], v);
    ls := ls + ms;
    ms, w := Drains(v);
    LeadsOn(s, ls, [] + [Write(c)], v, ms, [], w);
    ls := ls + ms;
    ls := SendStale(s, c, ls, w);
  }

  lemma SendStale(s: State, c: byte, before: seq<Label>, t: State) returns (ls: seq<Label>)
    requires Leads(s, before, [] + [Write(c)] + [], t)
    requires Good(t) && t.irqOn && t.pc.EnableDre? && Empty(t) && !t.inService
    ensures BreaksOrder(s, c, ls)
    ensures Exec(s, ls).log.accepted == t.log.accepted && |Sent(Exec(s, ls))| == |t.log.accepted| + 1
  {
    var after := DrainedPublishSendsStaleSlot(t);
    ExecAppend(s, before, Main);
    ProgramNext(before, Main);
    NoCalls(after);
    ExecConcat(s, before + [Main], after);
    ProgramConcat(before + [Main], after);
    ls := before + [Main] + after;
  }

  predicate Writing(pc: Pc) {
    pc.CheckRing? || pc.CheckDre? || pc.ClearTxc? || pc.StoreData? || pc.Wait? || pc.PollWrite? || pc.StoreSlot? || pc.StoreHead?
  }

  /** What keeps the publish window of a single `write` safe: no interrupts, a ring
      of one place, or a ring that was empty. */
  ghost predicate SafeWrite(s: State, c: byte, left: seq<Label>) {
    && Good(s) && (s.pc.EnableDre? ==> !Empty(s))
    && (|| (!s.irqOn && (s.inService ==> s.pc.Wait?))
        || (|s.port.buf| == 2 && (s.pc.EnableDre? ==> s.log.queued == 1))
        || ((Writing(s.pc) || left != [] ==> Empty(s)) && (s.pc.EnableDre? ==> s.log.queued == 1)))
    && if left == [Write(c)] then s.pc.Idle? else left == [] && !Flushing(s)
  }

  lemma SafeWriteStep(s: State, c: byte, l: Label, left: seq<Label>)
    requires Enabled(s, l)
    requires SafeWrite(s, c, (if l.Write? || l.Flush? || l.SetIrq? then [l] else []) + left)
    ensures SafeWrite(Apply(s, l), c, left) && !DrainedPublish(s, l)
  {
    var all := (if l.Write? || l.Flush? || l.SetIrq? then [l] else []) + left;
    assert l.Write? || l.Flush? || l.SetIrq? ==> all[0] == l && all[1..] == left;
    assert [Write(c)][1..] == [];
    StepGood(s, l);
    FullIff(s.port.head, s.port.tail, |s.port.buf|);
  }

  lemma {:induction false} SafeWriteRun(s: State, c: byte, ls: seq<Label>)
    requires SafeWrite(s, c, Program(ls)) && Admissible(s, ls)
    ensures Fifo(Exec(s, ls))
    decreases |ls|
  {
    if ls != [] {
      SafeWriteStep(s, c, ls[0], Program(ls[1..]));
      SafeWriteRun(Apply(s, ls[0]), c, ls[1..]);
    }
  }

  /** The exact condition, at the call: `write` may break the FIFO order if and only
      if interrupts are on, something is queued, and the ring has two places. */
  lemma MayBreakOrderIff(s: State, c: byte)
    requires Good(s) && s.pc.Idle? && !s.inService
    ensures (exists ls :: BreaksOrder(s, c, ls)) <==> s.irqOn && !Empty(s) && 3 <= |s.port.buf|
  {
    if s.irqOn && !Empty(s) && 3 <= |s.port.buf| {
      var ls := Overtaken(s, c);
    } else {
      forall ls | Admissible(s, ls) && Program(ls) == [Write(c)] ensures Fifo(Exec(s, ls)) {
        SafeWriteRun(s, c, ls);
      }
    }
  }
}
