/** Transmit rings above 256 bytes, whose indices `write` loads in two accesses:
    what a service between the two does to the value, and to the byte order. */
module TxTorn {
  import opened Bits
  import opened Ring
  import opened TxMachine
  import opened TxWindow
  import opened TxFlush

  /** Loaded byte by byte while it moved: the first byte is from before. */
  function Loaded(before: word, after: word, lowFirst: bool): word {
    if lowFirst then Join(before, after) else Join(after, before)
  }

  /** The sizes with two-byte indices that the sources allow are powers of two. */
  predicate Wide(size: nat) {
    256 < size <= 65536 && size % 256 == 0
  }

  /** A service between the two loads of the tail: neither its old nor its new
      value is loaded if and only if the tail leaves a page of 256. */
  lemma LoadTearsIff(tail: nat, size: nat, lowFirst: bool)
    requires Wide(size) && tail < size
    ensures var after := Next(tail, size);
            var loaded := Loaded(tail, after, lowFirst);
            && (loaded == tail || loaded == after <==> tail % 256 != 255)
            && (tail % 256 == 255 ==> loaded == if lowFirst then after + 255 else tail - 255)
  {
    var after := Next(tail, size);
    hide Join, Next;
    NextPage(tail, size);
    JoinIsOneOfIff(tail, after);
    JoinIsOneOfIff(after, tail);
    JoinParts(tail, after);
    JoinParts(after, tail);
  }

  lemma JoinParts(low: word, high: word)
    ensures Join(low, high) == high - high % 256 + low % 256
  {
  }

  /** The low byte of an index always moves, the high byte with every 256th step. */
  lemma NextPage(tail: nat, size: nat)
    requires Wide(size) && tail < size
    ensures var after := Next(tail, size);
      && after % 256 == (if tail % 256 == 255 then 0 else tail % 256 + 1)
      && (tail / 256 == after / 256 <==> tail % 256 != 255)
  {
  }

  /** `write` takes a non-empty ring for an empty one if and only if such a load
      tears with exactly this many bytes still queued. */
  lemma LooksEmptyIff(head: nat, tail: nat, size: nat, lowFirst: bool)
    requires Wide(size) && head < size && tail < size && head != tail && head != Next(tail, size)
    ensures var after := Next(tail, size);
            Loaded(tail, after, lowFirst) == head <==>
            tail % 256 == 255 && Len(head, after, size) == if lowFirst then 255 else size - 256
  {
    LoadTearsIff(tail, size, lowFirst);
    NextPage(tail, size);
    hide Loaded;
  }

  /** An input: 512 bytes, head 0x01FF, the tail moving from 0x00FF to 0x0100. */
  lemma TornTail(head: nat, tail: nat)
    requires head == 0x01FF && tail == 0x00FF
    ensures Next(tail, 512) == 0x0100 && Loaded(tail, Next(tail, 512), true) == head && Len(head, Next(tail, 512), 512) == 255
  {
    hide Loaded;
    LoadTearsIff(tail, 512, true);
  }

  /** The first test of `write`, on the tail it has loaded. */
  function TestRing(s: State, c: byte, tail: word): State {
    s.(pc := if s.port.head == tail then CheckDre(c) else Wait(c))
  }

  predicate All(q: seq<byte>, c: byte) {
    forall i :: 0 <= i < |q| ==> q[i] == c
  }

  /** The fast path with bytes still queued: the order survives iff they all equal c. */
  lemma Overtakes(s: State, c: byte) returns (ls: seq<Label>)
    requires Bounded(s) && Fifo(s) && s.pc == CheckDre(c) && !s.inService
    ensures Admissible(s, ls) && Program(ls) == []
    ensures var t := Exec(s, ls);
            && t.pc.Idle? && t.log.accepted == s.log.accepted + [c] && t.port == s.port
            && (Fifo(t) <==> All(Queue(s), c))
  {
    var ticks := TransmitterTakesByte(s);
    var u := Exec(s, ticks);
    assert Fifo(u) by { assert Sent(u) == Sent(s); }
    var main := FastPath(u, c);
    ls := ticks + main;
    ExecConcat(s, ticks, main);
    ProgramConcat(ticks, main);
    NoCalls(ticks);
    hide Fifo, Exec, Admissible, SameSoftware;
    FastPathOrder(u, c, Exec(u, main));
  }

  lemma FastPath(s: State, c: byte) returns (ls: seq<Label>)
    requires Bounded(s) && s.pc == CheckDre(c) && !s.inService && s.usart.data.None?
    ensures Admissible(s, ls) && Program(ls) == []
    ensures Exec(s, ls) == s.(usart := s.usart.(txcif := false, data := Some(c)), pc := Idle,
                              log := s.log.(accepted := s.log.accepted + [c], struck := false))
  {
    ls := [Main, Main, Main];
    assert ls[1..] == [Main, Main];
    TwoSteps(Apply(s, Main), Main, Main);
  }

  lemma FastPathOrder(u: State, c: byte, t: State)
    requires Bounded(u) && Bounded(t) && Fifo(u) && u.usart.data.None?
    requires t.port == u.port && t.log.wire == u.log.wire && t.log.accepted == u.log.accepted + [c]
    requires t.usart.shift == u.usart.shift && t.usart.data == Some(c)
    ensures Fifo(t) <==> All(Queue(u), c)
  {
    var sent, q := u.log.wire + Held(u.usart.shift), Queue(u);
    assert u.log.accepted == sent + q;
    assert t.log.accepted == sent + (q + [c]);
    assert t.log.wire + Held(t.usart.shift) + Held(t.usart.data) + Queue(t) == sent + ([c] + q);
    assert Fifo(t) <==> q + [c] == [c] + q by {
      assert (sent + (q + [c]))[|sent|..] == q + [c] && (sent + ([c] + q))[|sent|..] == [c] + q;
    }
    Rotates(q, c);
  }

  lemma Rotates(q: seq<byte>, c: byte)
    ensures q + [c] == [c] + q <==> All(q, c)
  {
    if q + [c] == [c] + q {
      forall i | 0 <= i < |q| ensures q[i] == c { RotatedIsConstant(q, c, i); }
    }
  }

  lemma {:induction false} RotatedIsConstant(q: seq<byte>, c: byte, i: nat)
    requires q + [c] == [c] + q && i < |q|
    ensures q[i] == c
  {
    assert (q + [c])[i] == ([c] + q)[i];
    if i > 0 { RotatedIsConstant(q, c, i - 1); }
  }

  /** A service moves the oldest byte from the queue to the transmitter. */
  lemma FifoLasts(s: State, v: State)
    requires Bounded(s) && Bounded(v) && Fifo(s) && v.log.accepted == s.log.accepted && Queue(s) != []
    requires Queue(v) == Queue(s)[1..] && Sent(v) == Sent(s) + [Queue(s)[0]]
    ensures Fifo(v)
  {
    assert Queue(s) == [Queue(s)[0]] + Queue(v);
    assert s.log.accepted == Sent(s) + Queue(s);
  }

  /** One service between the two loads of the tail, at the end of a page and with
      that many bytes left behind it: c overtakes them all. */
  lemma TornWrite(s: State, c: byte, lowFirst: bool) returns (window: seq<Label>, u: State, rest: seq<Label>)
    requires Bounded(s) && Wide(|s.port.buf|) && Fifo(s)
    requires s.pc == CheckRing(c) && s.irqOn && s.usart.dreie && !s.inService && !Empty(s)
    requires s.port.tail % 256 == 255
    requires |Queue(s)| == if lowFirst then 256 else |s.port.buf| - 255
    ensures Admissible(s, window) && Background(window)
    ensures var v := Exec(s, window);
            v.port.tail == Next(s.port.tail, |s.port.buf|) && u == TestRing(v, c, Loaded(s.port.tail, v.port.tail, lowFirst))
    ensures Admissible(u, rest) && Program(rest) == []
    ensures var t := Exec(u, rest);
            && t.pc.Idle? && t.log.accepted == s.log.accepted + [c] && |Queue(t)| == |Queue(s)| - 1
            && (Fifo(t) <==> All(Queue(s)[1..], c))
  {
    window := Service(s);
    var v := Exec(s, window);
    hide Fifo, Loaded, Exec, Admissible, Background, Contents;
    Pop(s.port.buf, s.port.head, s.port.tail);
    FifoLasts(s, v);
    LooksEmptyIff(s.port.head, s.port.tail, |s.port.buf|, lowFirst);
    u := TestRing(v, c, Loaded(s.port.tail, v.port.tail, lowFirst));
    rest := Overtakes(u, c);
  }
}
