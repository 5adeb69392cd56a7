/** The receive side of class HardwareSerial: the interrupt fills `_rx_buffer`
    while the main thread reads it, in any interleaving. */
module HardwareSerialRx {
  import opened Bits
  import opened Ring
  import opened Spsc
  import opened SerialImage
  import RxcAsm

  /** A received byte is accepted if and only if it is parity-clean and fewer
      than SIZE - 1 bytes are unread; when it is clean and refused, the ring is full. */
  lemma FrameAccepted(s: State<byte>, dataH: byte, c: byte)
    requires Bounded(s)
    ensures var t := Apply(s, Arrive(Offered(dataH, c)));
      && t.accepted == s.accepted + (if !Bit(dataH, 1) && |Queue(s)| < |s.buf| - 1 then [c] else [])
      && Queue(t) == Queue(s) + (if !Bit(dataH, 1) && |Queue(s)| < |s.buf| - 1 then [c] else [])
      && (Next(s.head, |s.buf|) == s.tail <==> |Queue(s)| == |s.buf| - 1)
  {
    FullIff(s.head, s.tail, |s.buf|);
    FillAppendsPrefix(s.buf, s.head, s.tail, Offered(dataH, c));
  }

  /** What an accepted byte does to the ring. */
  lemma Stored(s: State<byte>, dataH: byte, c: byte)
    requires Bounded(s)
    ensures var t := Apply(s, Arrive(Offered(dataH, c)));
            if !Bit(dataH, 1) && Next(s.head, |s.buf|) != s.tail
            then t.buf == s.buf[s.head := c] && t.head == Next(s.head, |s.buf|) && t.tail == s.tail
            else t.buf == s.buf && t.head == s.head && t.tail == s.tail
  {
    FillOne(s.buf, s.head, s.tail, c);
  }

  class HardwareSerial {
    const rxBuffer: array<byte>
    const log2Size: nat
    var rxHead: nat
    var rxTail: nat
    var state: byte

    ghost const start: State<byte>
    ghost var trace: seq<Label<byte>>
    ghost var m: State<byte>

    ghost predicate History()
      reads this
    {
      && Sound(start) && start.pc.Idle? && start.accepted == []
      && Admissible(start, trace) && m == Exec(start, trace)
    }

    ghost predicate Valid()
      reads this, rxBuffer
    {
      && 1 <= log2Size <= 8 && rxBuffer.Length == Pow2(log2Size)
      && History()
      && m.buf == rxBuffer[..] && m.head == rxHead && m.tail == rxTail
    }

    constructor (log2Size: nat)
      requires 1 <= log2Size <= 8
      ensures Valid() && trace == [] && m.accepted == [] && m.received == [] && m.pc.Idle? && state == 0
    {
      this.log2Size := log2Size;
      var buffer := new byte[Pow2(log2Size)](_ => 0);
      rxBuffer, rxHead, rxTail, state := buffer, 0, 0, 0;
      start, m := State(buffer[..], 0, 0, Idle, [], []), State(buffer[..], 0, 0, Idle, [], []);
      trace := [];
    }

    ghost method Took(l: Label<byte>)
      requires History() && Enabled(m, l)
      modifies `trace, `m
      ensures History() && m == Apply(old(m), l) && trace == old(trace) + [l]
    {
      ExecAppend(start, trace, l);
      trace, m := trace + [l], Apply(m, l);
    }

    /** The machine theorem, for this object. */
    lemma StaysSound()
      requires History()
      ensures Sound(m)
    {
      RunSound(start, trace);
    }

    /** The receive interrupt: errors are recorded whatever happens to the byte. */
    method RxComplete(dataH: byte, c: byte)
      requires Valid()
      modifies this`rxHead, this`state, rxBuffer, `trace, `m
      ensures Valid() && trace == old(trace) + [Arrive(Offered(dataH, c))]
      ensures m == Apply(old(m), Arrive(Offered(dataH, c)))
      ensures var recorded := OrByte(old(state), 2 * And(dataH, RxcAsm.ERRORS));
              var full := Next(old(rxHead), rxBuffer.Length) == rxTail;
              state == if !Bit(dataH, 1) && full then OrByte(recorded, RxcAsm.RING_OVERFLOW) else recorded
      ensures RxcAsm.Recorded(state, old(state), dataH, |Queue(old(m))| == rxBuffer.Length - 1)
    {
      hide RxcAsm.Recorded, Apply, OrByte, And, Pow2, Exec, Admissible, Sound;
      FullIff(m.head, m.tail, |m.buf|);
      RxcAsm.Records(state, dataH, |Queue(m)| == rxBuffer.Length - 1);
      state := OrByte(state, 2 * And(dataH, RxcAsm.ERRORS));
      if !Bit(dataH, 1) {
        NextIsMask(rxHead, log2Size);
        var i := And(rxHead + 1, rxBuffer.Length - 1);
        if i != rxTail {
          rxBuffer[rxHead] := c;
          rxHead := i;
        } else {
          state := OrByte(state, RxcAsm.RING_OVERFLOW);
        }
      }
      Stored(m, dataH, c);
      Took(Arrive(Offered(dataH, c)));
    }

    /** The handler runs any number of times, on any frames. */
    method Interfere()
      requires Valid()
      modifies this`rxHead, this`state, rxBuffer, `trace, `m
      ensures Valid() && HandlerRan(old(m), m)
    {
      var n: nat := *;
      while n > 0
        invariant Valid() && HandlerRan(old(m), m)
      {
        var dataH: byte, c: byte := *, *;
        ArrivalRuns(m, Offered(dataH, c));
        RxComplete(dataH, c);
        n := n - 1;
      }
    }

    /** `available`. Reading the head first or last, the tail is the caller's own. */
    method Available() returns (n: nat)
      requires Valid() && m.pc.Idle?
      modifies this`rxHead, this`state, rxBuffer, `trace, `m
      ensures Valid() && HandlerRan(old(m), m)
      ensures |Queue(old(m))| <= n == |Queue(m)|
    {
      hide And, Pow2, Exec, Admissible, Sound;
      Interfere();
      LenIsMask(rxHead, rxTail, log2Size);
      n := And(rxBuffer.Length + rxHead - rxTail, rxBuffer.Length - 1);
    }

    method LoadTail() returns (c: byte)
      requires Valid() && m.pc.Load?
      modifies `trace, `m
      ensures Valid() && m == old(m).(pc := Advance(c))
    {
      c := rxBuffer[rxTail];
      Took(Main);
    }

    method AdvanceTail(ghost c: byte)
      requires Valid() && m.pc == Advance(c)
      modifies this`rxTail, `trace, `m
      ensures Valid() && m == old(m).(tail := Next(old(m.tail), |m.buf|), pc := Idle, received := old(m.received) + [c])
    {
      NextIsMask(rxTail, log2Size);
      rxTail := And(rxTail + 1, rxBuffer.Length - 1);
      Took(Main);
    }

    /** `read`: -1 only if nothing was unread at the call; otherwise the oldest
        unread byte, which is accepted byte number |received|. */
    method Read() returns (r: int)
      requires Valid() && m.pc.Idle?
      modifies this`rxHead, this`rxTail, this`state, rxBuffer, `trace, `m
      ensures Valid() && m.pc.Idle? && old(m.accepted) <= m.accepted
      ensures r == -1 ==> Queue(old(m)) == [] && m.received == old(m.received)
      ensures r != -1 ==> 0 <= r < 256 && m.received == old(m.received) + [r]
      ensures r != -1 ==> |old(m.received)| < |m.accepted| && r == m.accepted[|old(m.received)|]
    {
      Interfere();
      var empty := rxHead == rxTail;
      Took(Test);
      if empty { return -1; }
      r := ReadTail();
    }

    method ReadTail() returns (c: byte)
      requires Valid() && m.pc.Load?
      modifies this`rxHead, this`rxTail, this`state, rxBuffer, `trace, `m
      ensures Valid() && m.pc.Idle? && old(m.accepted) <= m.accepted
      ensures m.received == old(m.received) + [c]
      ensures |old(m.received)| < |m.accepted| && c == m.accepted[|old(m.received)|]
    {
      Interfere();
      c := LoadTail();
      Interfere();
      AdvanceTail(c);
      StaysSound();
    }

    /** `peek`: the byte the next read would return. */
    method Peek() returns (r: int)
      requires Valid() && m.pc.Idle?
      modifies this`rxHead, this`state, rxBuffer, `trace, `m
      ensures Valid() && HandlerRan(old(m), m)
      ensures r == -1 ==> Queue(old(m)) == []
      ensures r != -1 ==> Queue(m) != [] && r == Queue(m)[0]
    {
      Interfere();
      if rxHead == rxTail { return -1; }
      Interfere();
      r := rxBuffer[rxTail];
      Pop(m.buf, m.head, m.tail);
    }
  }
}
