/** The lock-free queue behind UART reception and the USB OUT rings: an interrupt
    handler fills the ring, the main thread empties it, and the handler may fire
    between any two accesses of the main thread. */
module Spsc {
  import opened Ring

  /** Where the reader is: about to test for data, to load the tail slot, or to
      advance the tail past the loaded element. */
  datatype Pc<T> = Idle | Load | Advance(x: T)

  datatype State<T> = State(buf: seq<T>, head: nat, tail: nat, pc: Pc<T>, accepted: seq<T>, received: seq<T>)

  datatype Label<T> =
    | Arrive(packet: seq<T>)   // one run of the handler
    | Test                     // the reader compares head and tail
    | Main                     // the reader's next access

  predicate Bounded<T>(s: State<T>) {
    2 <= |s.buf| && s.head < |s.buf| && s.tail < |s.buf|
  }

  function Queue<T>(s: State<T>): seq<T>
    requires Bounded(s)
  {
    Contents(s.buf, s.head, s.tail)
  }

  /** The handler's copy loop on indices: store, advance, stop when full. */
  function Fill<T>(buf: seq<T>, head: nat, tail: nat, packet: seq<T>): (r: (seq<T>, nat))
    requires head < |buf| && tail < |buf|
    ensures |r.0| == |buf| && r.1 < |buf|
    decreases |packet|
  {
    if packet == [] || Next(head, |buf|) == tail then (buf, head)
    else Fill(buf[head := packet[0]], Next(head, |buf|), tail, packet[1..])
  }

  /** How much of a packet fits: one slot always stays free. */
  function Fits<T>(packet: seq<T>, unread: nat, size: nat): (n: nat)
    requires unread < size
    ensures n <= |packet| && n <= size - 1 - unread
  {
    if |packet| <= size - 1 - unread then |packet| else size - 1 - unread
  }

  /** The loop appends exactly the prefix that fits. */
  lemma {:induction false} FillAppendsPrefix<T>(buf: seq<T>, head: nat, tail: nat, packet: seq<T>)
    requires head < |buf| && tail < |buf|
    ensures var (b, h) := Fill(buf, head, tail, packet);
            Contents(b, h, tail) == Contents(buf, head, tail) + packet[..Fits(packet, Len(head, tail, |buf|), |buf|)]
    decreases |packet|
  {
    FullIff(head, tail, |buf|);
    var fits := Fits(packet, Len(head, tail, |buf|), |buf|);
    if packet == [] || Next(head, |buf|) == tail {
      assert packet[..fits] == [];
    } else {
      var b, h := buf[head := packet[0]], Next(head, |buf|);
      HeadSlotIsOutside(buf, head, tail, packet[0]);
      Push(b, head, tail);
      var before, rest := Contents(buf, head, tail), packet[1..][..fits - 1];
      assert Contents(b, h, tail) == before + [packet[0]];
      FillAppendsPrefix(b, h, tail, packet[1..]);
      assert Fits(packet[1..], Len(h, tail, |buf|), |buf|) == fits - 1;
      assert packet[..fits] == [packet[0]] + rest;
      assert (before + [packet[0]]) + rest == before + ([packet[0]] + rest);
    }
  }

  predicate Enabled<T>(s: State<T>, l: Label<T>) {
    match l
    case Arrive(_) => true
    case Test => s.pc.Idle?
    case Main => !s.pc.Idle?
  }

  function Apply<T>(s: State<T>, l: Label<T>): (t: State<T>)
    requires Bounded(s)
    ensures Bounded(t) && |t.buf| == |s.buf|
  {
    match l
    case Arrive(packet) =>
      var (buf, head) := Fill(s.buf, s.head, s.tail, packet);
      s.(buf := buf, head := head,
         accepted := s.accepted + packet[..Fits(packet, Len(s.head, s.tail, |s.buf|), |s.buf|)])
    case Test => if s.head == s.tail then s else s.(pc := Load)
    case Main =>
      match s.pc
      case Idle => s
      case Load => s.(pc := Advance(s.buf[s.tail]))
      case Advance(x) => s.(tail := Next(s.tail, |s.buf|), pc := Idle, received := s.received + [x])
  }

  ghost predicate Admissible<T>(s: State<T>, ls: seq<Label<T>>)
    requires Bounded(s)
    decreases |ls|
  {
    ls == [] || (Enabled(s, ls[0]) && Admissible(Apply(s, ls[0]), ls[1..]))
  }

  ghost function Exec<T>(s: State<T>, ls: seq<Label<T>>): (t: State<T>)
    requires Bounded(s)
    ensures Bounded(t) && |t.buf| == |s.buf|
    decreases |ls|
  {
    if ls == [] then s else Exec(Apply(s, ls[0]), ls[1..])
  }

  lemma {:induction false} ExecAppend<T>(s: State<T>, ls: seq<Label<T>>, l: Label<T>)
    requires Bounded(s)
    ensures Exec(s, ls + [l]) == Apply(Exec(s, ls), l)
    ensures Admissible(s, ls + [l]) <==> Admissible(s, ls) && Enabled(Exec(s, ls), l)
    decreases |ls|
  {
    if ls == [] {
      assert (ls + [l])[1..] == [];
      assert Exec(Apply(s, l), []) == Apply(s, l);
    } else {
      assert (ls + [l])[1..] == ls[1..] + [l];
      ExecAppend(Apply(s, ls[0]), ls[1..], l);
    }
  }

  /** Received then queued is exactly accepted, and an element the reader has
      loaded is still the oldest unread one. */
  ghost predicate Sound<T>(s: State<T>) {
    && Bounded(s)
    && s.accepted == s.received + Queue(s)
    && (!s.pc.Idle? ==> s.head != s.tail)
    && (s.pc.Advance? ==> s.pc.x == s.buf[s.tail])
  }

  /** The handler never touches an unread slot. */
  lemma {:induction false} FillKeepsTailSlot<T>(buf: seq<T>, head: nat, tail: nat, packet: seq<T>)
    requires head < |buf| && tail < |buf| && head != tail
    ensures var (b, h) := Fill(buf, head, tail, packet); b[tail] == buf[tail] && h != tail
    decreases |packet|
  {
    if packet != [] && Next(head, |buf|) != tail {
      FillKeepsTailSlot(buf[head := packet[0]], Next(head, |buf|), tail, packet[1..]);
    }
  }

  lemma StepSound<T>(s: State<T>, l: Label<T>)
    requires Sound(s) && Enabled(s, l)
    ensures Sound(Apply(s, l))
  {
    hide Fill, Contents, Fits;
    match l
    case Arrive(packet) =>
      FillAppendsPrefix(s.buf, s.head, s.tail, packet);
      if s.head != s.tail { FillKeepsTailSlot(s.buf, s.head, s.tail, packet); }
    case Test =>
    case Main => Pop(s.buf, s.head, s.tail);
  }

  /** The queue theorem, over every interleaving. */
  lemma {:induction false} RunSound<T>(s: State<T>, ls: seq<Label<T>>)
    requires Sound(s) && Admissible(s, ls)
    ensures Sound(Exec(s, ls))
    decreases |ls|
  {
    if ls != [] {
      StepSound(s, ls[0]);
      RunSound(Apply(s, ls[0]), ls[1..]);
    }
  }

  /** Elements the reader asked for in a run: tests made. */
  function Tests<T>(ls: seq<Label<T>>): nat {
    if ls == [] then 0 else (if ls[0].Test? then 1 else 0) + Tests(ls[1..])
  }

  /** At least `budget` further tests will find data. */
  ghost predicate Stock<T>(s: State<T>, budget: nat)
    requires Bounded(s)
  {
    budget + (if s.pc.Idle? then 0 else 1) <= |Queue(s)|
  }

  lemma StockStep<T>(s: State<T>, l: Label<T>, budget: nat)
    requires Sound(s) && Enabled(s, l) && Stock(s, budget) && (l.Test? ==> 1 <= budget)
    ensures Stock(Apply(s, l), if l.Test? then budget - 1 else budget)
  {
    StepSound(s, l);
    match l
    case Arrive(packet) => FillAppendsPrefix(s.buf, s.head, s.tail, packet);
    case Test =>
    case Main => Pop(s.buf, s.head, s.tail);
  }

  /** A count of unread elements is a stable lower bound: that many of the next
      tests succeed, whatever the handler does meanwhile. */
  lemma {:induction false} CountIsStable<T>(s: State<T>, ls: seq<Label<T>>, budget: nat)
    requires Sound(s) && Admissible(s, ls) && Stock(s, budget) && Tests(ls) < budget
    ensures Exec(s, ls).head != Exec(s, ls).tail
    decreases |ls|
  {
    if ls != [] {
      StockStep(s, ls[0], budget);
      StepSound(s, ls[0]);
      CountIsStable(Apply(s, ls[0]), ls[1..], if ls[0].Test? then budget - 1 else budget);
    }
  }

  lemma FillOne<T>(buf: seq<T>, head: nat, tail: nat, x: T)
    requires head < |buf| && tail < |buf|
    ensures Fill(buf, head, tail, [x]) ==
            if Next(head, |buf|) == tail then (buf, head) else (buf[head := x], Next(head, |buf|))
    ensures Fill(buf, head, tail, []) == (buf, head)
  {
    assert [x][1..] == [];
  }

  /** Only the handler has run from s to t: the reader's data is untouched. */
  ghost predicate HandlerRan<T>(s: State<T>, t: State<T>)
    requires Bounded(s) && Bounded(t)
  {
    && t.pc == s.pc && t.tail == s.tail && t.received == s.received && |t.buf| == |s.buf|
    && s.accepted <= t.accepted && |Queue(s)| <= |Queue(t)|
  }

  lemma HandlerIdle<T>(s: State<T>)
    requires Bounded(s)
    ensures HandlerRan(s, s)
  {
  }

  lemma ArrivalRuns<T>(s: State<T>, packet: seq<T>)
    requires Bounded(s)
    ensures HandlerRan(s, Apply(s, Arrive(packet)))
  {
    FillAppendsPrefix(s.buf, s.head, s.tail, packet);
  }

  /** The reference: a bounded queue without indices. */
  datatype Fifo<T> = Fifo(queue: seq<T>, capacity: nat, pc: Pc<T>, accepted: seq<T>, received: seq<T>)

  function Abs<T>(s: State<T>): Fifo<T>
    requires Bounded(s)
  {
    Fifo(Queue(s), |s.buf| - 1, s.pc, s.accepted, s.received)
  }

  function FifoApply<T>(q: Fifo<T>, l: Label<T>): Fifo<T> {
    match l
    case Arrive(packet) =>
      var room := if |q.queue| < q.capacity then q.capacity - |q.queue| else 0;
      var taken := packet[..if |packet| <= room then |packet| else room];
      q.(queue := q.queue + taken, accepted := q.accepted + taken)
    case Test => if q.queue == [] then q else q.(pc := Load)
    case Main =>
      if q.pc.Load? && q.queue != [] then q.(pc := Advance(q.queue[0]))
      else if q.pc.Advance? && q.queue != [] then
        q.(queue := q.queue[1..], pc := Idle, received := q.received + [q.pc.x])
      else q
  }

  function FifoExec<T>(q: Fifo<T>, ls: seq<Label<T>>): Fifo<T>
    decreases |ls|
  {
    if ls == [] then q else FifoExec(FifoApply(q, ls[0]), ls[1..])
  }

  lemma StepRefines<T>(s: State<T>, l: Label<T>)
    requires Sound(s) && Enabled(s, l)
    ensures Abs(Apply(s, l)) == FifoApply(Abs(s), l)
  {
    match l
    case Arrive(packet) => FillAppendsPrefix(s.buf, s.head, s.tail, packet);
    case Test =>
    case Main => Pop(s.buf, s.head, s.tail);
  }

  /** The ring is that queue, on every interleaving. */
  lemma {:induction false} RingRefinesQueue<T>(s: State<T>, ls: seq<Label<T>>)
    requires Sound(s) && Admissible(s, ls)
    ensures Abs(Exec(s, ls)) == FifoExec(Abs(s), ls)
    decreases |ls|
  {
    if ls != [] {
      StepRefines(s, ls[0]);
      StepSound(s, ls[0]);
      RingRefinesQueue(Apply(s, ls[0]), ls[1..]);
    }
  }
}
