/** A dynamic OUT endpoint: the transaction-complete interrupt copies each packet
    into a ring that USB_Recv empties from the main thread, while the host and
    the interrupt run between any two of its accesses. */
module UsbOut {
  import opened Bits
  import opened Ring
  import opened Spsc
  import opened UsbEndpoint

  const EP_BUF := 64
  const RX_RING := 64

  /** What is kept of a packet by a ring of 64 that holds `unread` bytes already. */
  function Kept(packet: seq<byte>, unread: nat): seq<byte> {
    var landed, free := if |packet| < 64 then |packet| else 64, if unread < 63 then 63 - unread else 0;
    packet[..if landed < free then landed else free]
  }

  /** No more than 64 bytes land, and a ring with `unread` bytes takes 63 - unread more. */
  lemma KeptIs(packet: seq<byte>, unread: nat)
    requires unread < 64
    ensures var landed, free := if |packet| < 64 then |packet| else 64, 63 - unread;
            Kept(packet, unread) == packet[..if landed < free then landed else free]
  {
  }

  /** Packet by packet, what is kept of the packets the host sent, by the number of
      unread bytes each of them met. */
  ghost function KeptOf(sent: seq<seq<byte>>, unread: seq<nat>): seq<byte>
    requires |unread| <= |sent|
    decreases |unread|
  {
    if unread == [] then [] else
      var n := |unread| - 1;
      KeptOf(sent[..n], unread[..n]) + Kept(sent[n], unread[n])
  }

  lemma KeptNext(sent: seq<seq<byte>>, unread: seq<nat>, n: nat)
    requires |unread| < |sent|
    ensures KeptOf(sent, unread + [n]) == KeptOf(sent, unread) + Kept(sent[|unread|], n)
  {
    assert (unread + [n])[..|unread|] == unread;
    KeptPrefix(sent, |unread|, unread);
  }

  /** Packets not yet serviced do not matter. */
  lemma {:induction false} KeptPrefix(sent: seq<seq<byte>>, n: nat, unread: seq<nat>)
    requires |unread| <= n <= |sent|
    ensures KeptOf(sent[..n], unread) == KeptOf(sent, unread)
  {
    if unread != [] {
      assert sent[..n][..|unread| - 1] == sent[..|unread| - 1];
    }
  }

  /** Acknowledged and re-armed: neither flag is left, and the toggle stays. */
  lemma Rearmed(s: Status)
    ensures var u := Clear(s, {TrnCompl});
            TrnCompl !in u && (BusNak in u <==> BusNak in s) && (Toggle in u <==> Toggle in s)
    ensures var t := Clear(Clear(s, {TrnCompl}), {BusNak});
            t == Clear(s, {TrnCompl, BusNak}) && TrnCompl !in t && BusNak !in t && (Toggle in t <==> Toggle in s)
  {
  }

  class OutEndpoint {
    const epBuf: array<byte>          // s_dyn_ep_buf[i], the endpoint's DATAPTR
    const ring: array<byte>           // s_dyn_rx_ring[i]
    var head: nat                     // s_dyn_rx_head[i]
    var tail: nat                     // s_dyn_rx_tail[i]
    var cnt: nat                      // OUT.CNT
    var status: Status                // OUT.STATUS

    ghost const start: State<byte>
    ghost var trace: seq<Label<byte>>
    ghost var m: State<byte>
    ghost var sent: seq<seq<byte>>    // the packets of the host, in full
    ghost var unread: seq<nat>        // the bytes that were unread when each was serviced
    ghost var pids: seq<bool>         // the data PID of each transaction

    ghost predicate History()
      reads this
    {
      && Sound(start) && start.pc.Idle? && start.accepted == []
      && Admissible(start, trace) && m == Exec(start, trace)
    }

    ghost predicate Shape()
      reads this
    {
      && epBuf != ring && epBuf.Length == EP_BUF && ring.Length == RX_RING
      && head < RX_RING && tail < RX_RING
    }

    ghost predicate Matches()
      reads this, ring
    {
      m.buf == ring[..] && m.head == head && m.tail == tail
    }

    /** Every packet is serviced once, before the next one can land, and the k-th
        carried DATA0 or DATA1 by the parity of k. What was accepted is what is kept of
        the packets serviced. */
    ghost predicate Transactions()
      reads this, epBuf
      requires Shape()
    {
      && (TrnCompl in status <==> BusNak in status)
      && |sent| == |unread| + (if TrnCompl in status then 1 else 0)
      && (TrnCompl in status ==> Landed(sent[|sent| - 1]))
      && m.accepted == KeptOf(sent, unread)
      && pids == Alternating(|sent|) && (Toggle in status <==> |sent| % 2 == 1)
    }

    /** The packet, or the 64 bytes of it that there is room for, is in the buffer. */
    ghost predicate Landed(packet: seq<byte>)
      reads this`cnt, epBuf
      requires epBuf.Length == EP_BUF
    {
      cnt == |packet| && if |packet| <= 64 then epBuf[..|packet|] == packet else epBuf[..] == packet[..64]
    }

    ghost predicate Valid()
      reads this, epBuf, ring
    {
      Shape() && History() && Matches() && Transactions()
    }

    /** The bytes of the endpoint buffer that the interrupt will look at. */
    ghost function Packet(): seq<byte>
      reads this, epBuf
      requires epBuf.Length == EP_BUF
    {
      epBuf[..if cnt > EP_BUF then EP_BUF else cnt]
    }

    /** As after SET_CONFIGURATION: armed, toggle at DATA0. */
    constructor ()
      ensures Valid() && fresh(epBuf) && fresh(ring)
      ensures m.accepted == [] && m.received == [] && m.pc.Idle? && sent == [] && unread == [] && status == {}
    {
      var buffer := new byte[RX_RING](_ => 0);
      epBuf, ring := new byte[EP_BUF](_ => 0), buffer;
      head, tail, cnt, status := 0, 0, 0, {};
      start, m := State(buffer[..], 0, 0, Idle, [], []), State(buffer[..], 0, 0, Idle, [], []);
      trace, sent, unread, pids := [], [], [], [];
    }

    ghost method Took(l: Label<byte>)
      requires History() && Enabled(m, l)
      modifies `trace, `m
      ensures History() && m == Apply(old(m), l) && trace == old(trace) + [l]
    {
      ExecAppend(start, trace, l);
      trace, m := trace + [l], Apply(m, l);
    }

    method Land(data: seq<byte>)
      requires |data| <= epBuf.Length
      modifies epBuf
      ensures epBuf[..|data|] == data
    {
      for k := 0 to |data|
        invariant epBuf[..k] == data[..k]
      {
        epBuf[k] := data[k];
      }
    }

    lemma ReceivedInOrder()
      requires History()
      ensures Sound(m) && m.received <= m.accepted
    {
      RunSound(start, trace);
    }

    /** What the calls of USB_Recv have returned and what they have yet to return is,
        in order, what is kept of the packets the host sent. */
    lemma AcceptedIsKept()
      requires Valid()
      ensures m.received + Queue(m) == KeptOf(sent, unread)
    {
      RunSound(start, trace);
    }

    /** The hardware: a packet lands in an armed endpoint, which answers NAK from then on. */
    method HostSends(packet: seq<byte>)
      requires Valid() && BusNak !in status
      modifies this`cnt, this`status, `sent, `pids, epBuf
      ensures Valid() && TrnCompl in status && Landed(packet)
      ensures sent == old(sent) + [packet] && pids == old(pids) + [|old(sent)| % 2 == 1]
    {
      hide Exec, Admissible, Alternating, KeptOf;
      Land(if |packet| <= EP_BUF then packet else packet[..EP_BUF]);
      NextPid(|sent|);
      KeptPrefix(sent + [packet], |sent|, unread);
      assert (sent + [packet])[..|sent|] == sent;
      cnt, status, pids := |packet|, Complete(status), pids + [Toggle in status];
      sent := sent + [packet];
    }

    /** The interrupt's copy loop: it stops at a full ring and drops the rest. */
    method CopyPacket(n: nat)
      requires Shape() && n <= EP_BUF
      modifies this`head, ring
      ensures head < RX_RING && (ring[..], head) == Fill(old(ring[..]), old(head), tail, epBuf[..n])
    {
      var k := 0;
      while k < n
        invariant 0 <= k <= n && head < RX_RING
        invariant Fill(old(ring[..]), old(head), tail, epBuf[..n]) == Fill(ring[..], head, tail, epBuf[k..n])
      {
        var next := (head + 1) % RX_RING;
        if next == tail { break; }
        assert epBuf[k..n][1..] == epBuf[k + 1..n];
        ghost var was := ring[..];
        ring[head] := epBuf[k];
        assert ring[..] == was[head := epBuf[k]];
        head := next;
        k := k + 1;
      }
    }

    /** What an arrival adds, in terms of what the host sent. */
    lemma KeepsPacket(packet: seq<byte>)
      requires Shape() && Matches() && History() && Landed(packet)
      ensures |Queue(m)| < 64
      ensures var t, kept := Apply(m, Arrive(Packet())), Kept(packet, |Queue(m)|);
              t.accepted == m.accepted + kept && Queue(t) == Queue(m) + kept
    {
      hide Fill, Contents;
      FillAppendsPrefix(m.buf, m.head, m.tail, Packet());
      var n := Fits(Packet(), Len(m.head, m.tail, 64), 64);
      assert Packet()[..n] == Kept(packet, |Queue(m)|);
    }

    /** The handler's part of the ring machine: one packet arrives. */
    method AcceptPacket()
      requires Shape() && History() && Matches()
      modifies this`head, ring, `trace, `m
      ensures Shape() && History() && Matches() && m == Apply(old(m), Arrive(Packet()))
    {
      CopyPacket(if cnt > EP_BUF then EP_BUF else cnt);
      Took(Arrive(Packet()));
    }

    /** The same in terms of the packet the host sent last. */
    method AcceptSent()
      requires Shape() && History() && Matches() && |sent| == |unread| + 1 && Landed(sent[|unread|])
      requires m.accepted == KeptOf(sent, unread)
      modifies this`head, ring, `trace, `m, `unread
      ensures Shape() && History() && Matches() && HandlerRan(old(m), m)
      ensures |Queue(old(m))| < 64 && unread == old(unread) + [|Queue(old(m))|] && m.accepted == KeptOf(sent, unread)
      ensures var kept := Kept(sent[|old(unread)|], |Queue(old(m))|);
              m.accepted == old(m.accepted) + kept && Queue(m) == Queue(old(m)) + kept
    {
      hide Exec, Admissible, KeptOf, Kept, Contents, Fill, Sound, Apply;
      KeepsPacket(sent[|unread|]);
      ArrivalRuns(m, Packet());
      KeptNext(sent, unread, |Queue(m)|);
      unread := unread + [|Queue(m)|];
      AcceptPacket();
    }

    /** usbcore_service_dynamic_ep_trncompl for this endpoint: acknowledge, copy
        what fits, re-arm. No write touches the toggle. */
    method ServiceTrnCompl()
      requires Valid()
      modifies this`head, this`cnt, this`status, ring, `trace, `m, `unread
      ensures Valid() && HandlerRan(old(m), m)
      ensures TrnCompl !in old(status) ==> status == old(status) && m == old(m) && unread == old(unread)
      ensures TrnCompl in old(status) ==> status == Clear(old(status), {TrnCompl, BusNak}) && cnt == 0
      ensures TrnCompl in old(status) ==>
        var kept := Kept(sent[|sent| - 1], |Queue(old(m))|);
        m.accepted == old(m.accepted) + kept && Queue(m) == Queue(old(m)) + kept
      ensures TrnCompl in old(status) ==> unread == old(unread) + [|Queue(old(m))|]
    {
      hide Exec, Admissible, Alternating, KeptOf, Kept, Contents, Sound, HandlerRan, Landed, Apply, Clear;
      HandlerIdle(m);
      if TrnCompl !in status { return; }
      Rearmed(status);
      status := Clear(status, {TrnCompl});
      AcceptSent();
      Rearm();
    }

    /** The end of the handler: the endpoint is the host's again. */
    method Rearm()
      requires Shape() && History() && Matches() && BusNak in status && TrnCompl !in status
      requires |sent| == |unread| && m.accepted == KeptOf(sent, unread)
      requires pids == Alternating(|sent|) && (Toggle in status <==> |sent| % 2 == 1)
      modifies this`cnt, this`status
      ensures Valid() && cnt == 0 && status == Clear(old(status), {BusNak})
    {
      cnt := 0;
      status := Clear(status, {BusNak});
    }

    /** Host traffic and interrupts, any number of times. */
    method Interfere()
      requires Valid()
      modifies this`head, this`cnt, this`status, epBuf, ring, `trace, `m, `sent, `unread, `pids
      ensures Valid() && HandlerRan(old(m), m) && old(sent) <= sent
    {
      var n: nat := *;
      while n > 0
        invariant Valid() && HandlerRan(old(m), m) && old(sent) <= sent
      {
        if BusNak in status {
          ServiceTrnCompl();
        } else {
          var packet: seq<byte> := *;
          HostSends(packet);
        }
        n := n - 1;
      }
    }

    /** USB_Available; the head may move between the two loads of its difference. */
    method Available(ep: byte) returns (n: int)
      requires Valid() && m.pc.Idle?
      modifies this`head, this`cnt, this`status, epBuf, ring, `trace, `m, `sent, `unread, `pids
      ensures Valid() && HandlerRan(old(m), m) && old(sent) <= sent
      ensures ep % 8 < 4 ==> n == 0
      ensures ep % 8 >= 4 ==> |Queue(old(m))| <= n <= |Queue(m)| && n < 256
    {
      if ep % 8 < 4 { return 0; }
      Interfere();
      n := head;
      ghost var seen := m;
      Interfere();
      n := n - tail;
      if n < 0 { n := n + RX_RING; }
      assert n == |Queue(seen)|;
    }

    method Load() returns (c: byte)
      requires Valid() && m.pc.Load?
      modifies `trace, `m
      ensures Valid() && m == old(m).(pc := Advance(c))
    {
      c := ring[tail];
      Took(Main);
    }

    method AdvanceTail(ghost c: byte)
      requires Valid() && m.pc == Advance(c)
      modifies this`tail, `trace, `m
      ensures Valid() && m.pc.Idle? && m.received == old(m.received) + [c] && m.accepted == old(m.accepted)
      ensures |Queue(m)| == |Queue(old(m))| - 1
    {
      ReceivedInOrder();
      tail := (tail + 1) % RX_RING;
      Took(Main);
    }

    /** The loop test of USB_Recv. */
    method Test() returns (more: bool)
      requires Valid() && m.pc.Idle?
      modifies this`head, this`cnt, this`status, epBuf, ring, `trace, `m, `sent, `unread, `pids
      ensures Valid() && HandlerRan(old(m), m.(pc := Idle))
      ensures if more then m.pc.Load? else m.pc.Idle? && Queue(m) == []
    {
      Interfere();
      more := tail != head;
      Took(Label.Test);
    }

    /** The loop body of USB_Recv. */
    method Take(dst: array<byte>, got: nat)
      requires Valid() && m.pc.Load? && got < dst.Length && dst != epBuf && dst != ring
      modifies this, epBuf, ring, dst
      ensures Valid() && m.pc.Idle? && old(m.accepted) <= m.accepted
      ensures dst[..] == old(dst[..])[got := dst[got]] && m.received == old(m.received) + [dst[got]]
      ensures |Queue(old(m))| <= |Queue(m)| + 1
    {
      Interfere();
      var c := Load();
      dst[got] := c;
      Interfere();
      AdvanceTail(c);
    }

    /** USB_Recv: what it returns is what was accepted, in order, and it comes
        back short only after seeing the ring empty. */
    method Recv(ep: byte, dst: array<byte>, len: int) returns (got: int)
      requires Valid() && m.pc.Idle? && len <= dst.Length && dst != epBuf && dst != ring
      modifies this, epBuf, ring, dst
      ensures Valid() && m.pc.Idle? && old(m.accepted) <= m.accepted
      ensures ep % 8 < 4 ==> got == -1 && m == old(m) && dst[..] == old(dst[..])
      ensures ep % 8 >= 4 ==> 0 <= got <= dst.Length && got <= (if len < 0 then 0 else len)
      ensures ep % 8 >= 4 ==> m.received == old(m.received) + dst[..got] && m.received <= m.accepted
      ensures ep % 8 >= 4 ==> dst[got..] == old(dst[got..])
      ensures ep % 8 >= 4 && got < len ==> |Queue(old(m))| <= got
    {
      hide Exec, Admissible, KeptOf, Alternating, Sound, Contents;
      if ep % 8 < 4 { return -1; }
      got := 0;
      ReceivedInOrder();
      if len <= 0 { return; }
      while got < len
        invariant 0 <= got <= len && Valid() && m.pc.Idle? && old(m.accepted) <= m.accepted
        invariant m.received == old(m.received) + dst[..got]
        invariant |Queue(old(m))| <= got + |Queue(m)|
        invariant dst[got..] == old(dst[..])[got..]
        decreases len - got
      {
        var more := Test();
        if !more { break; }
        ghost var was := dst[..];
        Take(dst, got);
        assert dst[..got + 1] == was[..got] + [dst[got]] && dst[got + 1..] == was[got..][1..];
        assert old(dst[..])[got..][1..] == old(dst[..])[got + 1..];
        got := got + 1;
      }
      ReceivedInOrder();
    }

    /** USB_Recv(ep): one byte, or -1. */
    method RecvByte(ep: byte) returns (r: int)
      requires Valid() && m.pc.Idle?
      modifies this, epBuf, ring
      ensures Valid() && m.pc.Idle? && old(m.accepted) <= m.accepted
      ensures r == -1 ==> m.received == old(m.received) && (ep % 8 >= 4 ==> Queue(old(m)) == [])
      ensures r != -1 ==> ep % 8 >= 4 && 0 <= r < 256 && m.received == old(m.received) + [r] && m.received <= m.accepted
    {
      var b := new byte[1](_ => 0);
      var got := Recv(ep, b, 1);
      r := if got == 1 then b[0] else -1;
      assert got == 1 ==> b[..got] == [b[0]];
    }
  }
}
