/** A dynamic IN endpoint: USB_Send stages bytes and dyn_ep_release hands the
    staging buffer to the hardware until the host has taken the packet. */
module UsbIn {
  import opened Bits
  import opened UsbEndpoint

  const EP_BUF := 64
  const RELEASE: nat := 0x40
  const TIMEOUT := 65536

  /** The packets that leave while t is being staged: a full buffer goes only when
      another byte needs its room. */
  function Full<T>(t: seq<T>): (packets: seq<seq<T>>) {
    if |t| <= EP_BUF then [] else [t[..EP_BUF]] + Full(t[EP_BUF..])
  }

  /** What is still staged after t. */
  function Rest<T>(t: seq<T>): (rest: seq<T>)
    ensures |rest| <= 64 && (rest == [] <==> t == [])
  {
    if |t| <= EP_BUF then t else Rest(t[EP_BUF..])
  }

  /** The packetisation loses, duplicates and reorders nothing, and its packets
      are full: the number of bytes decides how many there are. */
  lemma {:induction false} Packetised<T>(t: seq<T>)
    ensures Flatten(Full(t)) + Rest(t) == t
    ensures forall k :: 0 <= k < |Full(t)| ==> |Full(t)[k]| == 64
    ensures |Full(t)| == if t == [] then 0 else (|t| - 1) / 64
    decreases |t|
  {
    if |t| > EP_BUF {
      var head, tail := t[..EP_BUF], t[EP_BUF..];
      Packetised(tail);
      assert Full(t)[1..] == Full(tail);
      assert head + (Flatten(Full(tail)) + Rest(tail)) == t;
    }
  }

  /** One pass of the copy loop: x fits beside what is staged. */
  lemma {:induction false} StageFits<T>(t: seq<T>, x: seq<T>)
    requires |Rest(t)| + |x| <= EP_BUF
    ensures Full(t + x) == Full(t) && Rest(t + x) == Rest(t) + x
    decreases |t|
  {
    if |t| > EP_BUF {
      assert (t + x)[..EP_BUF] == t[..EP_BUF] && (t + x)[EP_BUF..] == t[EP_BUF..] + x;
      StageFits(t[EP_BUF..], x);
    }
  }

  /** One pass of the copy loop: the buffer is full, so it goes first. */
  lemma {:induction false} StageAfterRelease<T>(t: seq<T>, x: seq<T>)
    requires |Rest(t)| == EP_BUF && 0 < |x| <= EP_BUF
    ensures Full(t + x) == Full(t) + [Rest(t)] && Rest(t + x) == x
    decreases |t|
  {
    var u := t + x;
    if |t| > EP_BUF {
      assert u[..EP_BUF] == t[..EP_BUF] && u[EP_BUF..] == t[EP_BUF..] + x;
      StageAfterRelease(t[EP_BUF..], x);
    } else {
      assert u[..EP_BUF] == t && u[EP_BUF..] == x;
      assert Full(u) == [t] + Full(x);
    }
  }

  /** One pass of the copy loop, either way. */
  lemma StageNext<T>(t: seq<T>, x: seq<T>, full: bool)
    requires 0 < |x| <= EP_BUF && full == (|Rest(t)| == EP_BUF)
    requires !full ==> |Rest(t)| + |x| <= EP_BUF
    ensures Full(t + x) == Full(t) + (if full then [Rest(t)] else [])
    ensures Rest(t + x) == (if full then [] else Rest(t)) + x
  {
    if full { StageAfterRelease(t, x); } else { StageFits(t, x); }
  }

  class InEndpoint {
    const buf: array<byte>            // s_dyn_ep_buf[ep - 4], the endpoint's DATAPTR
    var pos: nat                      // s_dyn_ep_pos[ep - 4]
    var cnt: nat                      // IN.CNT
    var status: Status                // IN.STATUS

    ghost var taken: seq<seq<byte>>   // the packets the host has acknowledged
    ghost var pids: seq<bool>         // the data PID each of them carried
    ghost var given: seq<byte>        // the bytes the callers have handed to USB_Send
    ghost var timedOut: bool          // some release has given up
    ghost var disturbed: bool         // the buffer was written while the hardware owned it

    ghost predicate Valid()
      reads this
    {
      && buf.Length == EP_BUF && pos <= EP_BUF && cnt <= EP_BUF
      && (forall k :: 0 <= k < |taken| ==> |taken[k]| <= EP_BUF)
      && pids == Alternating(|taken|) && (Toggle in status <==> |taken| % 2 == 1)
      && (TrnCompl in status ==> BusNak in status)
    }

    ghost function Staged(): seq<byte>
      reads this, buf
      requires Valid()
    {
      buf[..pos]
    }

    /** Between calls, unless a release has timed out: the buffer is the core's,
        and every byte given is taken or staged. */
    ghost predicate Conserved()
      reads this, buf
    {
      && Valid()
      && (!timedOut ==> BusNak in status && TrnCompl !in status && !disturbed)
      && (!timedOut ==> given == Flatten(taken) + Staged())
    }

    /** As after SET_CONFIGURATION. */
    constructor ()
      ensures Conserved() && !timedOut && taken == [] && given == [] && Staged() == []
    {
      buf := new byte[EP_BUF](_ => 0);
      pos, cnt, status := 0, 0, {BusNak};
      taken, pids, given, timedOut, disturbed := [], [], [], false, false;
    }

    /** The host polls the endpoint, or does not. Only an armed packet can be taken. */
    method HostPolls()
      requires Valid()
      modifies this`status, `taken, `pids
      ensures Valid() && (old(Conserved()) ==> Conserved())
      ensures BusNak in old(status) ==> taken == old(taken) && status - {UnfOvf} == old(status) - {UnfOvf}
      ensures taken == old(taken) && BusNak !in old(status) ==> status == old(status)
      ensures taken != old(taken) ==> Delivers(old(status), old(taken))
    {
      var polls: bool := *;
      if polls && BusNak !in status {
        NextPid(|taken|);
        pids, taken := pids + [Toggle in status], taken + [buf[..cnt]];
        status := Complete(status);
      } else if polls {
        status := status + {UnfOvf};
      }
    }

    /** One packet has gone: the buffer's first CNT bytes, and the hardware has
        completed the transaction. */
    ghost predicate Delivers(statusBefore: Status, takenBefore: seq<seq<byte>>)
      reads this, buf
      requires Valid()
    {
      taken == takenBefore + [buf[..cnt]] && status == Complete(statusBefore)
    }

    /** Only underflow may come and go; the flags that software waits for or clears do not. */
    lemma Alike(s: Status, t: Status)
      requires t - {UnfOvf} == s - {UnfOvf}
      ensures (BusNak in t <==> BusNak in s) && (TrnCompl in t <==> TrnCompl in s)
      ensures Clear(t, {UnfOvf, TrnCompl, Stalled, BusNak}) == Clear(s, {UnfOvf, TrnCompl, Stalled, BusNak})
    {
      assert BusNak in t - {UnfOvf} <==> BusNak in s - {UnfOvf};
      assert TrnCompl in t - {UnfOvf} <==> TrnCompl in s - {UnfOvf};
      assert Clear(t, {UnfOvf, TrnCompl, Stalled, BusNak}) == (t - {UnfOvf}) - {TrnCompl, Stalled, BusNak};
      assert Clear(s, {UnfOvf, TrnCompl, Stalled, BusNak}) == (s - {UnfOvf}) - {TrnCompl, Stalled, BusNak};
    }

    /** Either busy-wait of dyn_ep_release: at most 65536 reads of STATUS. */
    method Await(f: Flag) returns (ok: bool, ghost misses: nat)
      requires Valid() && f in {BusNak, TrnCompl} && (BusNak in status ==> f in status)
      modifies this`status, `taken, `pids
      ensures Valid() && (if ok then f in status && misses < 65536 else f !in status && misses == 65536)
      ensures f in old(status) ==> ok && status - {UnfOvf} == old(status) - {UnfOvf}
      ensures !ok ==> status == old(status)
      ensures f in old(status) || !ok ==> taken == old(taken) && pids == old(pids)
      ensures f !in old(status) && ok ==> Delivers(old(status), old(taken))
    {
      var tmo := 0;
      misses := 0;
      HostPolls();
      if BusNak in old(status) { Alike(old(status), status); }
      while f !in status
        invariant Valid() && misses == tmo < TIMEOUT
        invariant f in old(status) ==> f in status && status - {UnfOvf} == old(status) - {UnfOvf}
        invariant f !in status ==> status == old(status)
        invariant f !in status || f in old(status) ==> taken == old(taken) && pids == old(pids)
        invariant f in status && f !in old(status) ==> Delivers(old(status), old(taken))
        decreases TIMEOUT - tmo
      {
        misses := misses + 1;
        tmo := (tmo + 1) % TIMEOUT;
        if tmo == 0 { return false, misses; }
        HostPolls();
      }
      ok := true;
    }

    /** Arm the endpoint with what is staged and wait until the host has taken it. */
    method HandOver() returns (ok: bool)
      requires Valid()
      modifies this`cnt, this`status, `taken, `pids
      ensures Valid() && cnt == pos
      ensures ok ==> taken == old(taken) + [Staged()]
      ensures ok ==> status == Complete(Clear(old(status), {UnfOvf, TrnCompl, Stalled, BusNak}))
      ensures !ok ==> taken == old(taken) && BusNak !in status && TrnCompl !in status
    {
      ghost var misses: nat;
      cnt := pos;
      status := Clear(status, {UnfOvf, TrnCompl, Stalled, BusNak});
      ok, misses := Await(TrnCompl);
    }

    /** dyn_ep_release, on an endpoint that is the core's: arm, wait for the host,
        account for the packet. It fails only by waiting in vain. */
    method Release() returns (r: int)
      requires Conserved()
      modifies this`pos, this`cnt, this`status, `taken, `pids, `timedOut
      ensures Conserved() && (timedOut <==> old(timedOut) || r == -1)
      ensures r == -1 || r == old(pos)
      ensures r == -1 ==> BusNak !in status && TrnCompl !in status
      ensures pos == 0 || (r == -1 && pos == old(pos) && status == old(status) && cnt == old(cnt))
      ensures !timedOut ==> cnt == old(pos) && pos == 0
      ensures !timedOut ==> status == Clear(Complete(Clear(old(status), {UnfOvf, TrnCompl, Stalled, BusNak})), {TrnCompl})
      ensures !timedOut ==> taken == old(taken) + [old(Staged())]
    {
      ghost var misses: nat;
      var ok: bool;
      ok, misses := Await(BusNak);
      if BusNak in old(status) { Alike(old(status), status); }
      if !ok {
        timedOut := true;
        return -1;
      }
      ok := HandOver();
      if !ok {
        pos, timedOut := 0, true;
        return -1;
      }
      status := Clear(status, {TrnCompl});
      r := pos;
      if !timedOut {
        FlattenOne(old(taken), buf[..cnt]);
        assert taken == old(taken) + [buf[..cnt]];
      }
      pos := 0;
    }

    /** The memcpy into the staging buffer. */
    method CopyIn(at: nat, x: seq<byte>)
      requires at + |x| <= buf.Length
      modifies buf
      ensures buf[..at + |x|] == old(buf[..at]) + x
    {
      ghost var was := buf[..at];
      for k := 0 to |x|
        invariant buf[..at + k] == was + x[..k]
      {
        buf[at + k] := x[k];
      }
    }

    method Stage(x: seq<byte>)
      requires Conserved() && pos + |x| <= EP_BUF
      modifies this`pos, this`given, `disturbed, buf
      ensures Conserved() && given == old(given) + x
      ensures Staged() == old(Staged()) + x
    {
      CopyIn(pos, x);
      disturbed := disturbed || BusNak !in status;
      pos, given := pos + |x|, given + x;
    }

    /** After t has been staged behind the packets in `before`, with `g` given in all. */
    ghost predicate Accounts(before: seq<seq<byte>>, g: seq<byte>, t: seq<byte>)
      reads this, buf
      requires Valid()
    {
      !timedOut ==> given == g && taken == before + Full(t) && Staged() == Rest(t)
    }

    /** The loop's release of a full buffer. */
    method MakeRoom() returns (ok: bool)
      requires Conserved()
      modifies this`pos, this`cnt, this`status, `taken, `pids, `timedOut
      ensures Conserved() && (timedOut <==> old(timedOut) || !ok)
      ensures ok ==> pos == if old(pos) == EP_BUF then 0 else old(pos)
      ensures !timedOut ==> taken == old(taken) + if old(pos) == EP_BUF then [old(Staged())] else []
    {
      ok := true;
      if pos == EP_BUF {
        var r := Release();
        ok := r >= 0;
      }
    }

    /** One pass of the copy loop; no byte is copied only if a release timed out. */
    method Pass(rest: seq<byte>, ghost before: seq<seq<byte>>, ghost g: seq<byte>, ghost t: seq<byte>) returns (n: nat)
      requires Conserved() && rest != [] && Accounts(before, g, t)
      modifies this`pos, this`cnt, this`status, `taken, `pids, `given, `timedOut, `disturbed, buf
      ensures Conserved() && n <= |rest| && (timedOut <==> old(timedOut) || n == 0)
      ensures Accounts(before, g + rest[..n], t + rest[..n])
    {
      if !timedOut { assert Staged() == Rest(t); }
      var ok := MakeRoom();
      if !ok { return 0; }
      n := if |rest| > EP_BUF - pos then EP_BUF - pos else |rest|;
      if !timedOut { StageNext(t, rest[..n], |Rest(t)| == EP_BUF); }
      Stage(rest[..n]);
    }

    /** The copy loop of USB_Send. */
    method Append(src: seq<byte>) returns (ok: bool)
      requires Conserved()
      modifies this`pos, this`cnt, this`status, `taken, `pids, `given, `timedOut, `disturbed, buf
      ensures Conserved() && (timedOut <==> old(timedOut) || !ok)
      ensures Accounts(old(taken), old(given) + src, old(Staged()) + src)
    {
      ghost var t, g, before := buf[..pos], given, taken;
      var total := 0;
      assert t + src[..0] == t && g + src[..0] == g;
      while total < |src|
        invariant 0 <= total <= |src| && Conserved() && timedOut == old(timedOut)
        invariant Accounts(before, g + src[..total], t + src[..total])
      {
        var n := Pass(src[total..], before, g + src[..total], t + src[..total]);
        if n == 0 { return false; }
        assert src[..total] + src[total..][..n] == src[..total + n];
        assert t + src[..total] + src[total..][..n] == t + src[..total + n];
        assert g + src[..total] + src[total..][..n] == g + src[..total + n];
        total := total + n;
      }
      assert src[..|src|] == src;
      ok := true;
    }

    /** USB_Send. It returns -1 for a bad endpoint or length and after a release
        in vain; otherwise len, with the bytes behind what was staged cut into
        full packets and, on TRANSFER_RELEASE, one last packet of the rest. */
    method Send(epWithFlags: byte, src: seq<byte>, len: int) returns (r: int)
      requires Conserved() && len <= |src|
      modifies this`pos, this`cnt, this`status, `taken, `pids, `given, `timedOut, `disturbed, buf
      ensures Conserved()
      ensures epWithFlags % 8 < 4 || len < 0 ==> r == -1 && unchanged(this) && buf[..] == old(buf[..])
      ensures epWithFlags % 8 >= 4 && len >= 0 ==> (timedOut <==> old(timedOut) || r == -1)
      ensures r == -1 || r == len
      ensures r != -1 && !timedOut ==>
        var t, release := old(Staged()) + src[..len], Bit(epWithFlags, 6);
        && given == old(given) + src[..len] && Staged() == (if release then [] else Rest(t))
        && taken == old(taken) + Full(t) + if release then [Rest(t)] else []
    {
      if epWithFlags % 8 < 4 { return -1; }
      if len < 0 { return -1; }
      var ok := Append(src[..len]);
      if !ok { return -1; }
      MaskBit(epWithFlags, 6);
      Powers();
      if And(epWithFlags, RELEASE) != 0 {
        r := Release();
        if r < 0 { return -1; }
      }
      r := len;
    }

    /** USB_Flush: push a short packet; it does not say whether the host took it. */
    method Flush(ep: byte)
      requires Conserved()
      modifies this`pos, this`cnt, this`status, `taken, `pids, `timedOut
      ensures Conserved()
      ensures ep % 8 < 4 || old(pos) == 0 ==> unchanged(this)
      ensures ep % 8 >= 4 && old(pos) > 0 && !timedOut ==> Staged() == [] && taken == old(taken) + [old(Staged())]
    {
      if ep % 8 < 4 { return; }
      if pos > 0 {
        var _ := Release();
      }
    }

    /** USB_SendSpace: that many more bytes cause no packet. */
    function SendSpace(ep: byte): (n: nat)
      reads this, buf
      requires Valid()
      ensures ep % 8 < 4 ==> n == 0
      ensures ep % 8 >= 4 ==> forall x: seq<byte> :: |x| <= n <==> Full(Staged() + x) == []
    {
      if ep % 8 < 4 then 0 else EP_BUF - pos
    }
  }
}
