/** attachInterrupt's tables and the dispatch of a port's interrupt, with user
    functions that attach, detach and cause further events while they run. */
module PortInterrupts {
  import opened Bits

  const PORTS := 7

  /** One byte of a table entry stored: the high or the low byte of f, which is 0
      for a detach. Attaching and detaching are two such stores each. */
  datatype Store = Store(port: nat, bit: nat, high: bool, f: word)

  /** The function whose low (high) byte the entry holds. */
  ghost function LastHalf(h: seq<Store>, port: nat, bit: nat, high: bool): word {
    if h == [] then 0
    else
      var s := h[|h| - 1];
      if s.port == port && s.bit == bit && s.high == high then s.f
      else LastHalf(h[..|h| - 1], port, bit, high)
  }

  /** What a dispatch reads from the table. */
  ghost function Entry(h: seq<Store>, port: nat, bit: nat): word {
    Join(LastHalf(h, port, bit, false), LastHalf(h, port, bit, true))
  }

  /** Both bytes are of one function. */
  ghost predicate Settled(h: seq<Store>, port: nat, bit: nat) {
    LastHalf(h, port, bit, false) == LastHalf(h, port, bit, true)
  }

  /** A complete attachment, or with f = 0 a detachment. */
  datatype Op = Op(port: nat, bit: nat, f: word, highFirst: bool)

  /** The function last attached to a pin and not since detached; 0 if none. */
  ghost function LastAttached(ops: seq<Op>, port: nat, bit: nat): word {
    if ops == [] then 0
    else
      var op := ops[|ops| - 1];
      if op.port == port && op.bit == bit then op.f else LastAttached(ops[..|ops| - 1], port, bit)
  }

  /** The stores of complete operations. */
  ghost function Stores(ops: seq<Op>): seq<Store> {
    if ops == [] then []
    else
      var op := ops[|ops| - 1];
      Replaced(Stores(ops[..|ops| - 1]), op.port, op.bit, op.f, op.highFirst, [])
  }

  /** Between operations an entry is exactly the function last attached. */
  lemma {:induction false} EntryIsLastAttached(ops: seq<Op>, port: nat, bit: nat)
    ensures Settled(Stores(ops), port, bit) && Entry(Stores(ops), port, bit) == LastAttached(ops, port, bit)
  {
    if ops != [] {
      var op, before := ops[|ops| - 1], ops[..|ops| - 1];
      EntryIsLastAttached(before, port, bit);
      var h, s1, s2 := Stores(before), Store(op.port, op.bit, op.highFirst, op.f), Store(op.port, op.bit, !op.highFirst, op.f);
      HalfStored(h, s1);
      HalfStored(h + [s1], s2);
      assert Stores(ops) == h + [s1] + [s2] by { assert h + [s1] + [] == h + [s1]; }
      JoinIsOneOfIff(op.f, op.f);
      hide LastHalf, Stores, Join;
    }
  }

  predicate Touches(h: seq<Store>, port: nat, bit: nat) {
    exists i :: 0 <= i < |h| && h[i].port == port && h[i].bit == bit
  }

  lemma {:induction false} UntouchedHalf(h: seq<Store>, more: seq<Store>, port: nat, bit: nat, high: bool)
    requires !Touches(more, port, bit)
    ensures LastHalf(h + more, port, bit, high) == LastHalf(h, port, bit, high)
    decreases |more|
  {
    if more == [] {
      assert h + more == h;
    } else {
      var last := |more| - 1;
      assert (h + more)[..|h| + last] == h + more[..last];
      assert more[last].port != port || more[last].bit != bit;
      UntouchedHalf(h, more[..last], port, bit, high);
    }
  }

  lemma HalfStored(h: seq<Store>, s: Store)
    ensures forall port, bit, high ::
      LastHalf(h + [s], port, bit, high) ==
      if s.port == port && s.bit == bit && s.high == high then s.f else LastHalf(h, port, bit, high)
  {
    assert (h + [s])[..|h|] == h;
  }

  /** An attachment (or, with f = 0, a detachment) stores one byte, then the other;
      in the meantime handlers may have made the stores `mid`. */
  ghost function Replaced(h: seq<Store>, port: nat, bit: nat, f: word, highFirst: bool, mid: seq<Store>): seq<Store> {
    h + [Store(port, bit, highFirst, f)] + mid + [Store(port, bit, !highFirst, f)]
  }

  /** What is attached in the end: f but for the byte stored first, which is the
      last one stored before the second. */
  lemma ReplacedEntry(h: seq<Store>, port: nat, bit: nat, f: word, highFirst: bool, mid: seq<Store>)
    ensures var t := Replaced(h, port, bit, f, highFirst, mid);
            var g := LastHalf(h + [Store(port, bit, highFirst, f)] + mid, port, bit, highFirst);
      && Entry(t, port, bit) == (if highFirst then Join(f, g) else Join(g, f))
      && (Entry(t, port, bit) == f <==> if highFirst then g / 256 == f / 256 else g % 256 == f % 256)
      && (!Touches(mid, port, bit) ==> Settled(t, port, bit) && Entry(t, port, bit) == f)
  {
    var first := h + [Store(port, bit, highFirst, f)];
    HalfStored(h, Store(port, bit, highFirst, f));
    if !Touches(mid, port, bit) { UntouchedHalf(first, mid, port, bit, highFirst); }
    HalfStored(first + mid, Store(port, bit, !highFirst, f));
    JoinIsOneOfIff(f, f);
  }

  /** Between the two stores, with `some` of the handlers' stores made: the entry is
      the old function's but for one byte. */
  lemma HalfwayEntry(h: seq<Store>, port: nat, bit: nat, f: word, highFirst: bool, some: seq<Store>)
    requires !Touches(some, port, bit) && Settled(h, port, bit)
    ensures var t, was := h + [Store(port, bit, highFirst, f)] + some, Entry(h, port, bit);
            Entry(t, port, bit) == if highFirst then Join(was, f) else Join(f, was)
  {
    var first := h + [Store(port, bit, highFirst, f)];
    HalfStored(h, Store(port, bit, highFirst, f));
    UntouchedHalf(first, some, port, bit, true);
    UntouchedHalf(first, some, port, bit, false);
    JoinIsOneOfIff(LastHalf(h, port, bit, true), LastHalf(h, port, bit, true));
  }

  /** One flag served: its port and bit, what its table entry held, and how much of
      the history lay behind. */
  datatype Visit = Visit(port: nat, bit: nat, f: word, at: nat)

  /** The visits of a pass over `flags` up to bit n: each set bit once, ascending,
      with what the entry held when it was reached. */
  ghost predicate Pass(vs: seq<Visit>, flags: byte, n: nat, h: seq<Store>, port: nat) {
    && (forall i :: 0 <= i < |vs| ==> vs[i].port == port && vs[i].bit < n && Bit(flags, vs[i].bit))
    && (forall i, j :: 0 <= i < j < |vs| ==> vs[i].bit < vs[j].bit)
    && (forall k :: 0 <= k < n && Bit(flags, k) ==> exists i :: 0 <= i < |vs| && vs[i].bit == k)
    && Faithful(vs, h)
  }

  /** Every visit found the entry its time of the history left. */
  ghost predicate Faithful(vs: seq<Visit>, h: seq<Store>) {
    forall i :: 0 <= i < |vs| ==> vs[i].at <= |h| && vs[i].f == Entry(h[..vs[i].at], vs[i].port, vs[i].bit)
  }

  /** The visits were made after `from`. */
  predicate Since(vs: seq<Visit>, from: nat) {
    forall i :: 0 <= i < |vs| ==> from <= vs[i].at
  }

  lemma FaithfulGrows(vs: seq<Visit>, h: seq<Store>, more: seq<Store>)
    requires Faithful(vs, h)
    ensures Faithful(vs, h + more)
  {
    forall i | 0 <= i < |vs| ensures vs[i].f == Entry((h + more)[..vs[i].at], vs[i].port, vs[i].bit) {
      assert (h + more)[..vs[i].at] == h[..vs[i].at];
    }
  }

  predicate OneByteAgrees(f: word, g: word) { f % 256 == g % 256 || f / 256 == g / 256 }

  predicate Serves(vs: seq<Visit>, port: nat, bit: nat) {
    exists i :: 0 <= i < |vs| && vs[i].port == port && vs[i].bit == bit
  }

  /** Every event of the pin found the old function or the new one. */
  ghost predicate NoneMixed(vs: seq<Visit>, port: nat, bit: nat, was: word, f: word) {
    forall i :: 0 <= i < |vs| && vs[i].port == port && vs[i].bit == bit ==> vs[i].f == was || vs[i].f == f
  }

  /** The exact condition for re-attaching a live pin, with any dispatches `vs`
      between the two stores: none finds a mixed address if and only if none serves
      the pin or the two addresses agree in one byte. */
  lemma WindowIsCleanIff(h: seq<Store>, port: nat, bit: nat, f: word, highFirst: bool, mid: seq<Store>, vs: seq<Visit>)
    requires Settled(h, port, bit) && !Touches(mid, port, bit)
    requires Faithful(vs, h + [Store(port, bit, highFirst, f)] + mid) && Since(vs, |h| + 1)
    ensures NoneMixed(vs, port, bit, Entry(h, port, bit), f) <==>
            !Serves(vs, port, bit) || OneByteAgrees(Entry(h, port, bit), f)
  {
    var t, was := h + [Store(port, bit, highFirst, f)] + mid, Entry(h, port, bit);
    forall i | 0 <= i < |vs| && vs[i].port == port && vs[i].bit == bit
      ensures vs[i].f == was || vs[i].f == f <==> OneByteAgrees(was, f)
    {
      var some := mid[..vs[i].at - |h| - 1];
      assert t[..vs[i].at] == h + [Store(port, bit, highFirst, f)] + some;
      HalfwayEntry(h, port, bit, f, highFirst, some);
      JoinIsOneOfIff(was, f);
      JoinIsOneOfIff(f, was);
    }
  }

  /** What happens between the two stores of a replacement, leaving the pin's entry alone. */
  ghost predicate Between(h: seq<Store>, port: nat, bit: nat, f: word, highFirst: bool, mid: seq<Store>, vs: seq<Visit>) {
    && !Touches(mid, port, bit)
    && Faithful(vs, h + [Store(port, bit, highFirst, f)] + mid) && Since(vs, |h| + 1)
  }

  /** One event between the two stores is enough to serve the pin there. */
  lemma OneVisit(h: seq<Store>, port: nat, bit: nat, f: word, highFirst: bool) returns (vs: seq<Visit>)
    ensures Between(h, port, bit, f, highFirst, [], vs) && Serves(vs, port, bit)
  {
    hide Entry;
    var t := h + [Store(port, bit, highFirst, f)];
    vs := [Visit(port, bit, Entry(t, port, bit), |t|)];
    assert t + [] == t && t[..|t|] == t;
    assert vs[0].port == port && vs[0].bit == bit;
  }

  /** The exact condition at the call: a mixed address can be found if and only if
      the old and the new function differ in both bytes. */
  lemma MayMixIff(h: seq<Store>, port: nat, bit: nat, f: word, highFirst: bool)
    requires Settled(h, port, bit)
    ensures (exists mid, vs :: Between(h, port, bit, f, highFirst, mid, vs) && !NoneMixed(vs, port, bit, Entry(h, port, bit), f))
            <==> !OneByteAgrees(Entry(h, port, bit), f)
  {
    hide Entry, Faithful, Since, NoneMixed, Serves, OneByteAgrees, Settled, Touches;
    if OneByteAgrees(Entry(h, port, bit), f) {
      forall mid, vs | Between(h, port, bit, f, highFirst, mid, vs)
        ensures NoneMixed(vs, port, bit, Entry(h, port, bit), f)
      {
        WindowIsCleanIff(h, port, bit, f, highFirst, mid, vs);
      }
    } else {
      var vs := OneVisit(h, port, bit, f, highFirst);
      WindowIsCleanIff(h, port, bit, f, highFirst, [], vs);
    }
  }

  lemma Window(h: seq<Store>, port: nat, bit: nat, f: word, highFirst: bool, mid: seq<Store>, vs: seq<Visit>)
    requires Faithful(vs, h + [Store(port, bit, highFirst, f)] + mid) && Since(vs, |h| + 1)
    ensures Settled(h, port, bit) && !Touches(mid, port, bit) ==>
      (NoneMixed(vs, port, bit, Entry(h, port, bit), f) <==>
       !Serves(vs, port, bit) || OneByteAgrees(Entry(h, port, bit), f))
  {
    if Settled(h, port, bit) && !Touches(mid, port, bit) {
      WindowIsCleanIff(h, port, bit, f, highFirst, mid, vs);
    }
  }

  /** The table entry of a pin moved from one function to another, low byte first. */
  lemma MovedEntry(port: nat, bit: nat, was: word, f: word)
    ensures var h := [Store(port, bit, false, was), Store(port, bit, true, was)];
            Entry(h, port, bit) == was && Entry(h + [Store(port, bit, false, f)], port, bit) == Join(f, was)
  {
    var one := [Store(port, bit, false, was)];
    var two := [Store(port, bit, false, was), Store(port, bit, true, was)];
    assert [] + one == one && one + [two[1]] == two;
    HalfStored([], one[0]);
    HalfStored(one, two[1]);
    HalfStored(two, Store(port, bit, false, f));
    JoinIsOneOfIff(was, was);
    hide LastHalf, Join;
  }

  /** From the function at 0x1234 to the one at 0x5678: an event in between calls 0x1278. */
  lemma MixedCall(port: nat, bit: nat, was: word, f: word)
    requires was == 0x1234 && f == 0x5678
    ensures var h := [Store(port, bit, false, was), Store(port, bit, true, was)];
            Entry(h, port, bit) == was && Entry(h + [Store(port, bit, false, f)], port, bit) == 0x1278
  {
    MovedEntry(port, bit, was, f);
    Mixed(was, f);
    hide Entry, Join;
  }

  lemma Mixed(was: word, f: word)
    requires was == 0x1234 && f == 0x5678
    ensures Join(was, was) == was && Join(f, was) == 0x1278
  {
    assert was == 256 * 0x12 + 0x34;
    assert f == 256 * 0x56 + 0x78;
    assert was / 256 == 0x12 && was % 256 == 0x34 && f % 256 == 0x78;
  }

  /** The functions called: the visits that found one. */
  ghost function Called(vs: seq<Visit>): seq<word> {
    if vs == [] then [] else Called(vs[..|vs| - 1]) + (if vs[|vs| - 1].f == 0 then [] else [vs[|vs| - 1].f])
  }

  lemma CalledNext(vs: seq<Visit>, v: Visit)
    ensures Called(vs + [v]) == Called(vs) + if v.f == 0 then [] else [v.f]
  {
    assert (vs + [v])[..|vs|] == vs;
  }

  lemma {:induction false} CalledConcat(vs: seq<Visit>, ws: seq<Visit>)
    ensures Called(vs + ws) == Called(vs) + Called(ws)
    decreases |ws|
  {
    if ws == [] {
      assert vs + ws == vs;
    } else {
      var last := |ws| - 1;
      assert vs + ws == (vs + ws[..last]) + [ws[last]] && ws == ws[..last] + [ws[last]];
      CalledNext(vs + ws[..last], ws[last]);
      CalledNext(ws[..last], ws[last]);
      CalledConcat(vs, ws[..last]);
    }
  }

  lemma PassSkips(vs: seq<Visit>, flags: byte, n: nat, h: seq<Store>, port: nat)
    requires Pass(vs, flags, n, h, port) && !Bit(flags, n)
    ensures Pass(vs, flags, n + 1, h, port)
  {
  }

  lemma PassVisits(vs: seq<Visit>, flags: byte, n: nat, h: seq<Store>, port: nat)
    requires Pass(vs, flags, n, h, port) && Bit(flags, n)
    ensures Pass(vs + [Visit(port, n, Entry(h, port, n), |h|)], flags, n + 1, h, port)
  {
    hide Entry, Bit;
    var ws := vs + [Visit(port, n, Entry(h, port, n), |h|)];
    assert h[..|h|] == h;
    assert ws[|vs|].bit == n;
    forall k | 0 <= k < n + 1 && Bit(flags, k) ensures exists i :: 0 <= i < |ws| && ws[i].bit == k {
      if k < n {
        var i :| 0 <= i < |vs| && vs[i].bit == k;
        assert ws[i].bit == k;
      }
    }
  }

  lemma PassGrows(vs: seq<Visit>, flags: byte, n: nat, h: seq<Store>, more: seq<Store>, port: nat)
    requires Pass(vs, flags, n, h, port)
    ensures Pass(vs, flags, n, h + more, port)
  {
    FaithfulGrows(vs, h, more);
  }

  /** A store to INTFLAGS: ones clear. */
  function Clear(flags: byte, v: byte): (r: byte) { And(flags, 255 - v) }

  lemma ClearBits(flags: byte, v: byte)
    ensures forall k :: 0 <= k < 8 ==> (Bit(Clear(flags, v), k) <==> Bit(flags, k) && !Bit(v, k))
  {
    Powers();
    forall k | 0 <= k < 8 ensures Bit(Clear(flags, v), k) <==> Bit(flags, k) && !Bit(v, k) {
      AndBit(flags, 255 - v, k);
      ComplementBit(v, 8, k);
    }
  }

  /** What happened to the flags of a port: those cleared by detachments, and the
      events that came after them. */
  datatype Change = Change(raised: byte, cleared: byte)

  /** One change, then another. */
  function Then(a: Change, b: Change): Change {
    Change(OrByte(Clear(a.raised, b.cleared), b.raised), OrByte(a.cleared, b.cleared))
  }

  /** The change leads from the flags `start` to the flags `now`. */
  ghost predicate Gained(now: byte, start: byte, ch: Change) {
    forall k :: 0 <= k < 8 ==> (Bit(now, k) <==> (Bit(start, k) && !Bit(ch.cleared, k)) || Bit(ch.raised, k))
  }

  lemma OrGains(start: byte, raised: byte)
    ensures Gained(OrByte(start, raised), start, Change(raised, 0))
  {
    forall k | 0 <= k < 8
      ensures Bit(OrByte(start, raised), k) <==> (Bit(start, k) && !Bit(0, k)) || Bit(raised, k)
    {
      OrBit(start, raised, k);
      ZeroBit(k);
    }
  }

  lemma ClearLoses(start: byte, v: byte)
    ensures Gained(Clear(start, v), start, Change(0, v))
  {
    ClearBits(start, v);
    forall k | 0 <= k < 8 ensures !Bit(0, k) { ZeroBit(k); }
  }

  lemma GainsAddUp(now: byte, between: byte, start: byte, first: Change, second: Change)
    requires Gained(between, start, first) && Gained(now, between, second)
    ensures Gained(now, start, Then(first, second))
  {
    ClearBits(first.raised, second.cleared);
    forall k | 0 <= k < 8
      ensures Bit(Then(first, second).raised, k) <==> (Bit(first.raised, k) && !Bit(second.cleared, k)) || Bit(second.raised, k)
      ensures Bit(Then(first, second).cleared, k) <==> Bit(first.cleared, k) || Bit(second.cleared, k)
    {
      OrBit(Clear(first.raised, second.cleared), second.raised, k);
      OrBit(first.cleared, second.cleared, k);
    }
  }

  /** A late clear keeps exactly the events of pins that were not in the snapshot. */
  lemma LateClearKeeps(now: byte, start: byte, ch: Change)
    requires Gained(now, start, ch)
    ensures forall k :: 0 <= k < 8 ==> (Bit(Clear(now, start), k) <==> Bit(ch.raised, k) && !Bit(start, k))
  {
    ClearBits(now, start);
  }

  lemma OrShift(a: nat, c: nat, b: nat)
    requires b < 2
    ensures Or(2 * a, 2 * c + b) == 2 * Or(a, c) + b
  {
  }

  lemma JoinBits(y: nat, m2: nat, m1: nat, m0: nat)
    requires m2 < 2 && m1 < 2 && m0 < 2
    ensures Or(8 * y, 4 * m2 + 2 * m1 + m0) == 8 * y + 4 * m2 + 2 * m1 + m0
  {
    hide Or;
    OrShift(4 * y, 2 * m2 + m1, m0);
    OrShift(2 * y, m2, m1);
    OrShift(y, 0, m2);
    OrZero(y);
  }

  /** `(x & 0xF8) | m` replaces the low three bits. */
  lemma LowBits(x: byte, m: byte)
    requires m < 8
    ensures var y := Or(And(x, 0xF8), m); y == x - x % 8 + m && y % 8 == m && y / 8 == x / 8
  {
    hide And, Or;
    ClearLowThree(x);
    JoinBits(x / 8, m / 4, m / 2 % 2, m % 2);
    LowField(x, m);
  }

  lemma LowField(x: nat, m: nat)
    requires m < 8
    ensures var y := x - x % 8 + m; y % 8 == m && y / 8 == x / 8
  {
  }

  lemma OrZero(a: nat)
    ensures Or(a, 0) == a
  {
  }

  const CHANGE: nat := 4
  const FALLING: nat := 2
  const RISING: nat := 3
  const LOW: nat := 0

  /** Of the PINnCTRL registers only sense fields differ, and pull-ups switched off. */
  predicate PinsKept(a: seq<byte>, b: seq<byte>) {
    |a| == |b| && forall i :: 0 <= i < |a| ==> a[i] / 16 == b[i] / 16 && (b[i] / 8 % 2 == 1 ==> a[i] / 8 % 2 == 1)
  }

  /** `x &= 0xF1`, with which detachInterrupt means to switch the sense off: it keeps
      the lowest of the three sense bits and clears the pull-up above them. */
  lemma DetachMask(x: byte)
    ensures And(x, 0xF1) == 16 * (x / 16) + x % 2
  {
    hide And, Pow2;
    Powers();
    AndHigh(x / 16, x / 2 % 8, 15, 3);
    MaskWraps(x / 16, 4);
    AndOdd(x / 2, x % 2, 120);
  }

  lemma AndOdd(a: nat, b: nat, c: nat)
    requires b < 2
    ensures And(2 * a + b, 2 * c + 1) == 2 * And(a, c) + b
  {
  }

  /** `1 << bit`. */
  function Mask(bit: nat): byte
    requires bit < 8
  {
    Powers();
    Pow2Grows(bit, 7);
    Pow2(bit)
  }

  /** The flag clear of detachInterrupt goes to address 16 * port + 3; VPORTx.INTFLAGS
      is at 4 * port + 3. For ports above B no port's flags are there. */
  function FlagStored(flags: seq<byte>, port: nat, bit: nat): (r: seq<byte>)
    requires bit < 8
    ensures |r| == |flags|
  {
    if 4 * port < |flags| then flags[4 * port := Clear(flags[4 * port], Mask(bit))] else flags
  }

  /** Which flags of port p that store clears. */
  function Hit(p: nat, port: nat, bit: nat): byte
    requires bit < 8
  {
    if p == 4 * port then Mask(bit) else 0
  }

  lemma FlagStoreChange(flags: seq<byte>, port: nat, bit: nat, p: nat)
    requires bit < 8 && p < |flags|
    ensures Gained(FlagStored(flags, port, bit)[p], flags[p], Change(0, Hit(p, port, bit)))
  {
    if p == 4 * port { ClearLoses(flags[p], Mask(bit)); } else { NoneRaised(flags[p]); }
  }

  /** The pin transitions for which attachInterrupt is asked to call the function:
      any change (4), a falling edge (2), a rising edge (3) or a low level (0). */
  predicate Wanted(mode: byte, was: bool, now: bool) {
    || (mode == 4 && was != now)
    || (mode == 2 && was && !now)
    || (mode == 3 && !was && now)
    || (mode == 0 && !now)
  }

  /** The pin transitions that raise the flag, by the sense field of PINnCTRL: both
      edges, the rising edge, the falling edge, or the low level. */
  predicate Raises(isc: nat, was: bool, now: bool) {
    || (isc == 1 && was != now)
    || (isc == 2 && !was && now)
    || (isc == 3 && was && !now)
    || (isc == 5 && !now)
  }

  /** No transition raises the flag. */
  ghost predicate Off(isc: nat) {
    forall was, now :: !Raises(isc, was, now)
  }

  /** The sense field raises the flag exactly when the mode asks for it. */
  ghost predicate Senses(isc: nat, mode: byte) {
    forall was, now :: Raises(isc, was, now) <==> Wanted(mode, was, now)
  }

  class Dispatcher {
    const pins: map<byte, (nat, nat)>   // digitalPinToPort, digitalPinToBitPosition
    const enabled: set<nat>             // the ports whose table is not NULL
    const early: bool                   // CORE_ATTACH_EARLYCLEAR
    const intFunc: array2<byte>         // each entry low byte first
    const portRegs: array<byte>         // the PORT registers, from 0x400
    const intFlags: array<byte>         // VPORTx.INTFLAGS

    ghost var history: seq<Store>
    ghost var calls: seq<word>          // the user functions called so far

    ghost predicate Shape()
      reads this
    {
      && intFunc.Length0 == PORTS && intFunc.Length1 == 16
      && portRegs.Length == 256 && intFlags.Length == PORTS && portRegs != intFlags
      && (forall pin :: pin in pins ==> pins[pin].0 < PORTS && pins[pin].1 < 8)
      && (forall port :: port in enabled ==> port < PORTS)
    }

    /** The table holds what the history stored last. */
    ghost predicate Valid()
      reads this, intFunc
    {
      && Shape()
      && (forall port, bit :: port in enabled && 0 <= bit < 8 ==>
            intFunc[port, 2 * bit] == LastHalf(history, port, bit, false) % 256
            && intFunc[port, 2 * bit + 1] == LastHalf(history, port, bit, true) / 256)
    }

    /** As after start-up: no function attached. */
    constructor (pins: map<byte, (nat, nat)>, enabled: set<nat>, early: bool)
      requires forall pin :: pin in pins ==> pins[pin].0 < PORTS && pins[pin].1 < 8
      requires forall port :: port in enabled ==> port < PORTS
      ensures Valid() && history == [] && calls == [] && fresh(intFunc) && fresh(portRegs) && fresh(intFlags)
    {
      this.pins, this.enabled, this.early := pins, enabled, early;
      intFunc := new byte[PORTS, 16]((_, _) => 0);
      portRegs, intFlags := new byte[256](_ => 0), new byte[PORTS](_ => 0);
      history, calls := [], [];
    }

    ghost predicate Accepts(pin: byte, f: word, mode: byte) {
      mode in {CHANGE, FALLING, RISING, LOW} && f != 0 && pin in pins && pins[pin].0 in enabled
    }

    /** The sense field attachInterrupt writes; 0 for a mode it rejects. */
    static function Sense(mode: byte): (isc: byte)
      ensures isc < 8
    {
      if mode == CHANGE then 1 else if mode == FALLING then 3 else if mode == RISING then 2 else if mode == LOW then 5 else 0
    }

    /** One of the two byte stores to a table entry. */
    method StoreHalf(port: nat, bit: nat, high: bool, f: word)
      requires Valid() && port in enabled && bit < 8
      modifies intFunc, `history
      ensures Valid() && history == old(history) + [Store(port, bit, high, f)]
    {
      HalfStored(history, Store(port, bit, high, f));
      if high { intFunc[port, 2 * bit + 1] := f / 256; } else { intFunc[port, 2 * bit] := f % 256; }
      history := history + [Store(port, bit, high, f)];
    }

    /** Both stores, in the order the compiler chose. On the main thread interrupts
        are on between them; a handler is not interrupted by port interrupts. */
    method StoreEntry(port: nat, bit: nat, f: word, highFirst: bool, main: bool)
      returns (ghost mid: seq<Store>, ghost vs: seq<Visit>)
      requires Valid() && port in enabled && bit < 8
      modifies intFunc, portRegs, intFlags, `history, `calls
      ensures Valid() && history == Replaced(old(history), port, bit, f, highFirst, mid)
      ensures Faithful(vs, old(history) + [Store(port, bit, highFirst, f)] + mid) && Since(vs, |old(history)| + 1)
      ensures calls == old(calls) + Called(vs) && PinsKept(old(portRegs[..]), portRegs[..])
      ensures mid == [] ==> portRegs[..] == old(portRegs[..])
      ensures !main ==> mid == [] && vs == [] && intFlags[..] == old(intFlags[..])
      decreases if main then 7 else 0, 0
    {
      StoreHalf(port, bit, highFirst, f);
      mid, vs := [], [];
      if main { mid, vs := Interfere(); }
      StoreHalf(port, bit, !highFirst, f);
    }

    /** attachInterrupt: a bad pin, mode or function, or a port that is not
        enabled, changes nothing. */
    method AttachInterrupt(pin: byte, f: word, mode: byte, highFirst: bool, main: bool)
      returns (ghost mid: seq<Store>, ghost vs: seq<Visit>)
      requires Valid()
      modifies intFunc, portRegs, intFlags, `history, `calls
      ensures Accepts(pin, f, mode) <==> mode in {4, 2, 3, 0} && f != 0 && pin in pins && pins[pin].0 in enabled
      ensures Valid() && (!main || !Accepts(pin, f, mode) ==> mid == [] && vs == [] && intFlags[..] == old(intFlags[..]))
      ensures !Accepts(pin, f, mode) ==> history == old(history) && portRegs[..] == old(portRegs[..])
      ensures Accepts(pin, f, mode) ==> history == Replaced(old(history), pins[pin].0, pins[pin].1, f, highFirst, mid)
      ensures Accepts(pin, f, mode) ==>
        Since(vs, |old(history)| + 1) && Faithful(vs, old(history) + [Store(pins[pin].0, pins[pin].1, highFirst, f)] + mid)
      ensures Accepts(pin, f, mode) && old(Settled(history, pins[pin].0, pins[pin].1))
              && !Touches(mid, pins[pin].0, pins[pin].1) ==>
        (NoneMixed(vs, pins[pin].0, pins[pin].1, old(Entry(history, pins[pin].0, pins[pin].1)), f) <==>
         !Serves(vs, pins[pin].0, pins[pin].1) || OneByteAgrees(old(Entry(history, pins[pin].0, pins[pin].1)), f))
      ensures calls == old(calls) + Called(vs) && PinsKept(old(portRegs[..]), portRegs[..])
      ensures Accepts(pin, f, mode) ==>
        var at := 32 * pins[pin].0 + 0x10 + pins[pin].1;
        && Senses(portRegs[at] % 8, mode)
        && (mid == [] ==> portRegs[..] == old(portRegs[..])[at := portRegs[at]])
      decreases if main then 8 else 0, 2
    {
      mid, vs := [], [];
      if pin !in pins { return; }
      var (port, bit) := pins[pin];
      if mode !in {CHANGE, FALLING, RISING, LOW} { return; }
      if port in enabled && f != 0 {
        mid, vs := StoreEntry(port, bit, f, highFirst, main);
        Window(old(history), port, bit, f, highFirst, mid, vs);
        hide LastHalf, Entry, Faithful, Since, NoneMixed, Serves, Touches, OneByteAgrees, PinsKept, Called, Settled;
        SenseMeans(mode);
        hide Senses;
        ghost var regs := portRegs[..];
        SetSense(32 * port + 0x10 + bit, mode);
        SenseKeepsPins(old(portRegs[..]), regs, 32 * port + 0x10 + bit, portRegs[32 * port + 0x10 + bit]);
      }
    }

    /** The PINnCTRL update, made with interrupts off. */
    method SetSense(at: nat, mode: byte)
      requires Shape() && at < 256
      modifies portRegs
      ensures portRegs[..] == old(portRegs[..])[at := portRegs[at]]
      ensures portRegs[at] % 8 == Sense(mode) && portRegs[at] / 8 == old(portRegs[at]) / 8
    {
      LowBits(portRegs[at], Sense(mode));
      hide And, Or;
      portRegs[at] := Or(And(portRegs[at], 0xF8), Sense(mode));
    }

    /** detachInterrupt. The pin's control register is loaded, masked and stored, a
        flag is cleared, and the entry is replaced by 0; on the main thread interrupts
        are on. `pre` and `us` are what handlers store and visit before the
        entry's first byte is stored, `mid` and `vs` between its two bytes. */
    method DetachInterrupt(pin: byte, highFirst: bool, main: bool)
      returns (ghost pre: seq<Store>, ghost us: seq<Visit>, ghost mid: seq<Store>, ghost vs: seq<Visit>)
      requires Valid() && (pin in pins ==> pins[pin].0 in enabled)
      modifies intFunc, portRegs, intFlags, `history, `calls
      ensures Valid() && (!main || pin !in pins ==> pre == [] && us == [] && mid == [] && vs == [])
      ensures pin !in pins ==> history == old(history) && portRegs[..] == old(portRegs[..]) && intFlags[..] == old(intFlags[..])
      ensures pin in pins ==> history == Replaced(old(history) + pre, pins[pin].0, pins[pin].1, 0, highFirst, mid)
      ensures pin in pins ==> Faithful(us, old(history) + pre) && Since(us, |old(history)|)
      ensures pin in pins ==>
        var h := old(history) + pre;
        Since(vs, |h| + 1) && Faithful(vs, h + [Store(pins[pin].0, pins[pin].1, highFirst, 0)] + mid)
      ensures pin in pins ==>
        var (port, bit, h) := (pins[pin].0, pins[pin].1, old(history) + pre);
        Settled(h, port, bit) && !Touches(mid, port, bit) ==>
        (NoneMixed(vs, port, bit, Entry(h, port, bit), 0) <==> !Serves(vs, port, bit) || OneByteAgrees(Entry(h, port, bit), 0))
      ensures calls == old(calls) + Called(us) + Called(vs) && PinsKept(old(portRegs[..]), portRegs[..])
      ensures pin in pins && pre == [] && mid == [] ==>
        var at := 32 * pins[pin].0 + 0x10 + pins[pin].1;
        portRegs[..] == old(portRegs[..])[at := 16 * (old(portRegs[at]) / 16) + old(portRegs[at]) % 2]
      ensures pin in pins && !main ==> intFlags[..] == FlagStored(old(intFlags[..]), pins[pin].0, pins[pin].1)
      decreases if main then 8 else 0, 2
    {
      pre, us, mid, vs := [], [], [], [];
      if pin !in pins {
        SensesSame(portRegs[..]);
        return;
      }
      var (port, bit) := pins[pin];
      hide LastHalf, Entry, Faithful, Since, NoneMixed, Serves, Touches, OneByteAgrees, PinsKept, FlagStored, Settled, Called;
      pre, us := SwitchOff(port, bit, main);
      ghost var h, regs := history, portRegs[..];
      mid, vs := StoreEntry(port, bit, 0, highFirst, main);
      Window(h, port, bit, 0, highFirst, mid, vs);
      SensesChain(old(portRegs[..]), regs, portRegs[..]);
    }

    /** The register accesses of detachInterrupt, before it stores to the table. */
    method SwitchOff(port: nat, bit: nat, main: bool) returns (ghost pre: seq<Store>, ghost us: seq<Visit>)
      requires Valid() && port in enabled && bit < 8
      modifies intFunc, portRegs, intFlags, `history, `calls
      ensures Valid() && history == old(history) + pre && calls == old(calls) + Called(us)
      ensures Faithful(us, history) && Since(us, |old(history)|) && PinsKept(old(portRegs[..]), portRegs[..])
      ensures pre == [] ==>
        var at := 32 * port + 0x10 + bit;
        portRegs[..] == old(portRegs[..])[at := 16 * (old(portRegs[at]) / 16) + old(portRegs[at]) % 2]
      ensures !main ==> pre == [] && us == [] && intFlags[..] == FlagStored(old(intFlags[..]), port, bit)
      decreases if main then 7 else 0, 1
    {
      hide LastHalf, Entry, PinsKept, FlagStored, Faithful, Since, Called;
      pre, us := MaskControl(port, bit, main);
      ghost var h, regs := history, portRegs[..];
      StoreFlag(port, bit);
      if main {
        ghost var more, ws := Interfere();
        FaithfulGrows(us, h, more);
        CalledConcat(us, ws);
        SinceEarlier(ws, |h|, |old(history)|);
        FaithfulBoth(us, ws, history, |old(history)|);
        SensesChain(old(portRegs[..]), regs, portRegs[..]);
        pre, us := pre + more, us + ws;
      }
    }

    /** `PINnCTRL &= 0xF1`: a load and a store, with handlers in between. */
    method MaskControl(port: nat, bit: nat, main: bool) returns (ghost pre: seq<Store>, ghost us: seq<Visit>)
      requires Valid() && port in enabled && bit < 8
      modifies intFunc, portRegs, intFlags, `history, `calls
      ensures Valid() && history == old(history) + pre && calls == old(calls) + Called(us)
      ensures Faithful(us, history) && Since(us, |old(history)|) && PinsKept(old(portRegs[..]), portRegs[..])
      ensures var at := 32 * port + 0x10 + bit; portRegs[at] == 16 * (old(portRegs[at]) / 16) + old(portRegs[at]) % 2
      ensures pre == [] ==> var at := 32 * port + 0x10 + bit; portRegs[..] == old(portRegs[..])[at := portRegs[at]]
      ensures !main ==> pre == [] && us == [] && intFlags[..] == old(intFlags[..])
      decreases if main then 7 else 0, 0
    {
      hide And, LastHalf, Entry, PinsKept, Faithful, Since, Called;
      var at := 32 * port + 0x10 + bit;
      DetachMask(portRegs[at]);
      var settings: byte := And(portRegs[at], 0xF1);
      pre, us := [], [];
      NoVisits(history);
      SensesSame(portRegs[..]);
      if main { pre, us := Interfere(); }
      ghost var regs := portRegs[..];
      portRegs[at] := settings;
      DetachKeepsPins(old(portRegs[..]), regs, at, settings);
      assert portRegs[..] == regs[at := settings];
    }

    method StoreFlag(port: nat, bit: nat)
      requires Valid() && bit < 8
      modifies intFlags
      ensures Valid() && intFlags[..] == FlagStored(old(intFlags[..]), port, bit)
    {
      if 4 * port < PORTS {
        intFlags[4 * port] := Clear(intFlags[4 * port], Mask(bit));
      }
    }

    /** Events raise flags of a port. */
    method Events(port: nat) returns (ch: Change)
      requires Valid() && port < PORTS
      modifies intFlags
      ensures Valid() && ch.cleared == 0 && Gained(intFlags[port], old(intFlags[port]), ch)
    {
      var n: nat := *;
      ch := Change(n % 256, 0);
      OrGains(intFlags[port], ch.raised);
      intFlags[port] := OrByte(intFlags[port], ch.raised);
    }

    /** A user function: it may attach and detach, and events may happen. */
    method UserFunction(port: nat, f: word) returns (ch: Change)
      requires Valid() && port < PORTS && f != 0
      modifies intFunc, portRegs, intFlags, `history, `calls
      ensures Valid() && old(history) <= history && calls == old(calls) + [f]
      ensures PinsKept(old(portRegs[..]), portRegs[..])
      ensures history == old(history) ==> portRegs[..] == old(portRegs[..])
      ensures Gained(intFlags[port], old(intFlags[port]), ch)
      decreases 1, 1
    {
      hide LastHalf, Gained, PinsKept;
      calls := calls + [f];
      ch := Events(port);
      SensesSame(portRegs[..]);
      var n: nat := *;
      while n > 0
        invariant Valid() && old(history) <= history && calls == old(calls) + [f]
        invariant PinsKept(old(portRegs[..]), portRegs[..])
        invariant history == old(history) ==> portRegs[..] == old(portRegs[..])
        invariant Gained(intFlags[port], old(intFlags[port]), ch)
      {
        ghost var regs, grown, between := portRegs[..], history, intFlags[port];
        var change := AttachOrDetach(port);
        SensesChain(old(portRegs[..]), regs, portRegs[..]);
        GainsAddUp(intFlags[port], between, old(intFlags[port]), ch, change);
        ch := Then(ch, change);
        n := n - 1;
      }
    }

    /** One call a user function makes, and the events after it. */
    method AttachOrDetach(port: nat) returns (ch: Change)
      requires Valid() && port < PORTS
      modifies intFunc, portRegs, intFlags, `history, `calls
      ensures Valid() && old(history) <= history && calls == old(calls)
      ensures PinsKept(old(portRegs[..]), portRegs[..])
      ensures history == old(history) ==> portRegs[..] == old(portRegs[..])
      ensures Gained(intFlags[port], old(intFlags[port]), ch)
      decreases 1, 0
    {
      hide LastHalf, Gained, PinsKept, Faithful, Since, Settled, Touches, NoneMixed, Serves, OneByteAgrees;
      var pin: byte, g: word, mode: byte, attach: bool, highFirst: bool := *, *, *, *, *;
      ghost var mid, vs;
      ch := Change(0, 0);
      NoneRaised(intFlags[port]);
      SensesSame(portRegs[..]);
      assert Called([]) == [];
      if attach {
        mid, vs := AttachInterrupt(pin, g, mode, highFirst, false);
      } else if pin in pins && pins[pin].0 in enabled {
        ghost var pre, us;
        FlagStoreChange(intFlags[..], pins[pin].0, pins[pin].1, port);
        pre, us, mid, vs := DetachInterrupt(pin, highFirst, false);
        ch := Change(0, Hit(port, pins[pin].0, pins[pin].1));
      }
      ghost var between := intFlags[port];
      var later := Events(port);
      GainsAddUp(intFlags[port], between, old(intFlags[port]), ch, later);
      ch := Then(ch, later);
    }

    method LoadEntry(port: nat, bit: nat) returns (f: word)
      requires Valid() && port in enabled && bit < 8
      ensures f == Entry(history, port, bit)
    {
      var low, high := intFunc[port, 2 * bit], intFunc[port, 2 * bit + 1];
      hide LastHalf;
      f := (low as int) + 256 * (high as int);
    }

    /** One set bit of the snapshot: its entry is read now, and called if there is one. */
    method Serve(port: nat, bit: nat) returns (ghost v: Visit, ch: Change)
      requires Valid() && port in enabled && bit < 8
      modifies intFunc, portRegs, intFlags, `history, `calls
      ensures Valid() && old(history) <= history
      ensures v == Visit(port, bit, Entry(old(history), port, bit), |old(history)|)
      ensures calls == old(calls) + if v.f == 0 then [] else [v.f]
      ensures PinsKept(old(portRegs[..]), portRegs[..])
      ensures history == old(history) ==> portRegs[..] == old(portRegs[..])
      ensures Gained(intFlags[port], old(intFlags[port]), ch)
      decreases 2
    {
      hide Entry, Gained;
      var f := LoadEntry(port, bit);
      v := Visit(port, bit, f, |history|);
      if f != 0 {
        ch := UserFunction(port, f);
      } else {
        ch := Events(port);
      }
    }

    /** The loop body of port_interrupt_handler: the bit is served if it is set. */
    method Turn(port: nat, flags: byte, bitPos: nat, bitMask: nat, ghost vs: seq<Visit>, ghost before: seq<word>,
                ghost from: nat)
      returns (ghost ws: seq<Visit>, ch: Change)
      requires Valid() && port in enabled && bitPos < 8 && bitMask == Pow2(bitPos)
      requires Pass(vs, flags, bitPos, history, port) && calls == before + Called(vs) && Since(vs, from) && from <= |history|
      modifies intFunc, portRegs, intFlags, `history, `calls
      ensures Valid() && old(history) <= history
      ensures Pass(ws, flags, bitPos + 1, history, port) && calls == before + Called(ws) && Since(ws, from)
      ensures PinsKept(old(portRegs[..]), portRegs[..])
      ensures history == old(history) ==> portRegs[..] == old(portRegs[..])
      ensures Gained(intFlags[port], old(intFlags[port]), ch)
      decreases 3
    {
      hide Pass, Entry, Called, Gained, Pow2, Since;
      MaskBit(flags, bitPos);
      if And(flags, bitMask) != 0 {
        PassVisits(vs, flags, bitPos, history, port);
        ghost var h, v := history, Visit(0, 0, 0, 0);
        v, ch := Serve(port, bitPos);
        ws := vs + [v];
        CalledNext(vs, v);
        SinceNext(vs, v, from);
        PassGrows(ws, flags, bitPos + 1, h, history[|h|..], port);
        assert h + history[|h|..] == history;
      } else {
        PassSkips(vs, flags, bitPos, history, port);
        ws := vs;
        ch := Events(port);
      }
    }

    /** The loop of port_interrupt_handler over a snapshot of the flags. */
    method ServeFlags(port: nat, flags: byte) returns (ghost vs: seq<Visit>, ch: Change)
      requires Valid() && port in enabled
      modifies intFunc, portRegs, intFlags, `history, `calls
      ensures Valid() && old(history) <= history && Pass(vs, flags, 8, history, port) && Since(vs, |old(history)|)
      ensures calls == old(calls) + Called(vs)
      ensures PinsKept(old(portRegs[..]), portRegs[..])
      ensures history == old(history) ==> portRegs[..] == old(portRegs[..])
      ensures Gained(intFlags[port], old(intFlags[port]), ch)
      decreases 4
    {
      var bitPos, bitMask := 0, 1;
      vs, ch := [], Change(0, 0);
      NoneRaised(intFlags[port]);
      NothingServed(flags, history, port);
      SensesSame(portRegs[..]);
      hide Pass, Since, Called, Gained, PinsKept, LastHalf, Pow2;
      FirstMask();
      while bitPos <= 7
        invariant bitPos <= 8 && bitMask == Pow2(bitPos) % 256
        invariant Valid() && old(history) <= history && Pass(vs, flags, bitPos, history, port)
        invariant Since(vs, |old(history)|) && PinsKept(old(portRegs[..]), portRegs[..])
        invariant history == old(history) ==> portRegs[..] == old(portRegs[..])
        invariant calls == old(calls) + Called(vs)
        invariant Gained(intFlags[port], old(intFlags[port]), ch)
      {
        NextMask(bitPos);
        ghost var between, regs := intFlags[port], portRegs[..];
        var e;
        vs, e := Turn(port, flags, bitPos, bitMask, vs, old(calls), |old(history)|);
        GainsAddUp(intFlags[port], between, old(intFlags[port]), ch, e);
        SensesChain(old(portRegs[..]), regs, portRegs[..]);
        ch := Then(ch, e);
        bitPos := bitPos + 1;
        bitMask := (2 * bitMask) % 256;
      }
    }

    /** port_interrupt_handler, and the default dispatcher: the flags of the
        snapshot are cleared when all is done, so an event during the user
        functions survives if and only if its pin was not in the snapshot. */
    method PortInterruptHandler(port: nat) returns (ghost vs: seq<Visit>, ch: Change)
      requires Valid() && port in enabled
      modifies intFunc, portRegs, intFlags, `history, `calls
      ensures Valid() && Pass(vs, old(intFlags[port]), 8, history, port) && calls == old(calls) + Called(vs)
      ensures old(history) <= history && Since(vs, |old(history)|)
      ensures PinsKept(old(portRegs[..]), portRegs[..])
      ensures history == old(history) ==> portRegs[..] == old(portRegs[..])
      ensures forall k :: 0 <= k < 8 ==> (Bit(intFlags[port], k) <==> Bit(ch.raised, k) && !Bit(old(intFlags[port]), k))
      decreases 5
    {
      var flags := intFlags[port];
      vs, ch := ServeFlags(port, flags);
      LateClearKeeps(intFlags[port], flags, ch);
      intFlags[port] := Clear(intFlags[port], flags);
    }

    /** With CORE_ATTACH_EARLYCLEAR: only an event between the read of the flags
        and the write that follows it can be lost, and only on a snapshot pin. */
    method EarlyClearHandler(port: nat) returns (ghost vs: seq<Visit>, before: Change, ch: Change)
      requires Valid() && port in enabled
      modifies intFunc, portRegs, intFlags, `history, `calls
      ensures Valid() && Pass(vs, old(intFlags[port]), 8, history, port) && calls == old(calls) + Called(vs)
      ensures old(history) <= history && Since(vs, |old(history)|)
      ensures PinsKept(old(portRegs[..]), portRegs[..])
      ensures history == old(history) ==> portRegs[..] == old(portRegs[..])
      ensures forall k :: 0 <= k < 8 ==>
        (Bit(intFlags[port], k) <==>
         (Bit(before.raised, k) && !Bit(old(intFlags[port]), k) && !Bit(ch.cleared, k)) || Bit(ch.raised, k))
      decreases 5
    {
      var flags := intFlags[port];
      before := Events(port);
      LateClearKeeps(intFlags[port], flags, before);
      intFlags[port] := Clear(intFlags[port], flags);
      vs, ch := ServeFlags(port, flags);
    }

    /** Port interrupts and events, any number of them. */
    method Interfere() returns (ghost mid: seq<Store>, ghost vs: seq<Visit>)
      requires Valid()
      modifies intFunc, portRegs, intFlags, `history, `calls
      ensures Valid() && history == old(history) + mid && calls == old(calls) + Called(vs)
      ensures Faithful(vs, history) && Since(vs, |old(history)|)
      ensures PinsKept(old(portRegs[..]), portRegs[..])
      ensures mid == [] ==> portRegs[..] == old(portRegs[..])
      decreases 6
    {
      hide LastHalf, Entry;
      SensesSame(portRegs[..]);
      assert Faithful([], history) && Since([], |history|) && Called([]) == [];
      hide Faithful, Since, Called, PinsKept;
      vs := [];
      var n: nat := *;
      while n > 0
        invariant Valid() && old(history) <= history && calls == old(calls) + Called(vs)
        invariant Faithful(vs, history) && Since(vs, |old(history)|)
        invariant PinsKept(old(portRegs[..]), portRegs[..])
        invariant history == old(history) ==> portRegs[..] == old(portRegs[..])
      {
        ghost var h, regs := history, portRegs[..];
        ghost var ws := InterfereOnce();
        assert h + history[|h|..] == history;
        FaithfulGrows(vs, h, history[|h|..]);
        CalledConcat(vs, ws);
        SinceEarlier(ws, |h|, |old(history)|);
        FaithfulBoth(vs, ws, history, |old(history)|);
        SensesChain(old(portRegs[..]), regs, portRegs[..]);
        vs := vs + ws;
        n := n - 1;
      }
      mid := history[|old(history)|..];
    }

    method InterfereOnce() returns (ghost vs: seq<Visit>)
      requires Valid()
      modifies intFunc, portRegs, intFlags, `history, `calls
      ensures Valid() && old(history) <= history && calls == old(calls) + Called(vs)
      ensures Faithful(vs, history) && Since(vs, |old(history)|)
      ensures PinsKept(old(portRegs[..]), portRegs[..])
      ensures history == old(history) ==> portRegs[..] == old(portRegs[..])
      decreases 6, 1
    {
      vs := [];
      var port: nat, event: bool := *, *;
      if event && port < PORTS {
        var _ := Events(port);
      } else if port in enabled {
        vs := Dispatch(port);
      }
    }

    /** The interrupt of one port, with whichever dispatcher was built. */
    method Dispatch(port: nat) returns (ghost vs: seq<Visit>)
      requires Valid() && port in enabled
      modifies intFunc, portRegs, intFlags, `history, `calls
      ensures Valid() && Pass(vs, old(intFlags[port]), 8, history, port) && calls == old(calls) + Called(vs)
      ensures old(history) <= history && Since(vs, |old(history)|)
      ensures PinsKept(old(portRegs[..]), portRegs[..])
      ensures history == old(history) ==> portRegs[..] == old(portRegs[..])
      decreases 6, 0
    {
      if early {
        var before, ch;
        vs, before, ch := EarlyClearHandler(port);
      } else {
        var ch;
        vs, ch := PortInterruptHandler(port);
      }
    }
  }

  lemma SenseMeans(mode: byte)
    requires mode in {CHANGE, FALLING, RISING, LOW}
    ensures Senses(Dispatcher.Sense(mode), mode)
  {
  }

  /** What detachInterrupt makes of a control register that attachInterrupt has left:
      only RISING is switched off, every other mode becomes CHANGE, and the pull-up
      goes off. */
  lemma DetachSwitchesOffIff(x: byte, mode: byte)
    requires mode in {CHANGE, FALLING, RISING, LOW} && Senses(x % 8, mode)
    ensures var y := And(x, 0xF1);
      && (Off(y % 8) <==> mode == RISING)
      && (mode != RISING ==> Senses(y % 8, CHANGE))
      && y / 8 % 2 == 0 && y / 16 == x / 16
  {
    hide And, Senses, Off, Raises;
    DetachMask(x);
    Masked(x, 16 * (x / 16) + x % 2);
    MaskedSense(x);
    LowestBit(x % 8, mode);
  }

  /** What is left of a sense field of which only the lowest bit stays. */
  lemma LowestBit(isc: nat, mode: byte)
    requires mode in {CHANGE, FALLING, RISING, LOW} && isc < 8 && Senses(isc, mode)
    ensures Off(isc % 2) <==> mode == RISING
    ensures mode != RISING ==> Senses(isc % 2, CHANGE)
  {
    SenseIsCode(isc, mode);
    var left := isc % 2;
    assert left == if mode == RISING then 0 else 1;
    assert left == 1 ==> Raises(left, true, false);
  }

  /** The field that senses a mode is one of four codes. */
  lemma SenseIsCode(isc: nat, mode: byte)
    requires mode in {CHANGE, FALLING, RISING, LOW} && isc < 8 && Senses(isc, mode)
    ensures isc == if mode == CHANGE then 1 else if mode == FALLING then 3 else if mode == RISING then 2 else 5
  {
    assert Wanted(CHANGE, false, true) && Wanted(CHANGE, true, false) && !Wanted(CHANGE, false, false);
    assert Wanted(FALLING, true, false) && !Wanted(FALLING, false, true) && !Wanted(FALLING, false, false);
    assert Wanted(RISING, false, true) && !Wanted(RISING, true, false);
    assert Wanted(LOW, false, false);
    forall was, now ensures Raises(isc, was, now) <==> Wanted(mode, was, now) { }
  }

  lemma MaskedSense(x: byte)
    ensures (16 * (x / 16) + x % 2) % 8 == x % 8 % 2
  {
  }

  /** The flag clear of detachInterrupt reaches the pin's own flag on port A only; on
      port B it clears the flag of the same bit on port E; no other flag ever changes. */
  lemma DetachClearsItsFlagIff(flags: seq<byte>, port: nat, bit: nat)
    requires |flags| == PORTS && port < PORTS && bit < 8
    ensures var r := FlagStored(flags, port, bit);
      && (Bit(flags[port], bit) ==> (!Bit(r[port], bit) <==> port == 0))
      && (port == 1 ==> !Bit(r[4], bit))
      && (forall p, k :: 0 <= p < PORTS && 0 <= k < 8 && !(p == 4 * port && k == bit) ==> (Bit(r[p], k) <==> Bit(flags[p], k)))
  {
    if 4 * port < PORTS {
      ClearBits(flags[4 * port], Mask(bit));
      forall k | 0 <= k < 8 ensures Bit(Mask(bit), k) <==> k == bit { OneBit(bit, k); }
    }
  }

  lemma NothingServed(flags: byte, h: seq<Store>, port: nat)
    ensures Pass([], flags, 0, h, port) && Since([], |h|) && Called([]) == []
  {
  }

  lemma FirstMask()
    ensures Pow2(0) % 256 == 1
  {
  }

  /** `bitMask` in eight bits, before and after it is shifted. */
  lemma NextMask(k: nat)
    requires k <= 7
    ensures Pow2(k) % 256 == Pow2(k) && (2 * Pow2(k)) % 256 == Pow2(k + 1) % 256
  {
    Powers();
    Pow2Grows(k, 7);
  }

  /** A control register masked by detachInterrupt from the value it had at first. */
  lemma DetachKeepsPins(a: seq<byte>, b: seq<byte>, at: nat, v: byte)
    requires PinsKept(a, b) && at < |a| && v == 16 * (a[at] / 16) + a[at] % 2
    ensures PinsKept(a, b[at := v])
  {
    Masked(a[at], v);
  }

  lemma Masked(x: byte, v: byte)
    requires v == 16 * (x / 16) + x % 2
    ensures v / 16 == x / 16 && v / 8 % 2 == 0
  {
  }

  lemma SenseKeepsPins(a: seq<byte>, b: seq<byte>, at: nat, v: byte)
    requires PinsKept(a, b) && at < |a| && v / 8 == b[at] / 8
    ensures PinsKept(a, b[at := v])
  {
    assert v / 16 == v / 8 / 2 && b[at] / 16 == b[at] / 8 / 2;
  }

  lemma NoVisits(h: seq<Store>)
    ensures Faithful([], h) && Since([], |h|) && Called([]) == []
  {
  }

  lemma SinceNext(vs: seq<Visit>, v: Visit, from: nat)
    requires Since(vs, from) && from <= v.at
    ensures Since(vs + [v], from)
  {
  }

  lemma SinceEarlier(vs: seq<Visit>, from: nat, before: nat)
    requires Since(vs, from) && before <= from
    ensures Since(vs, before)
  {
  }

  lemma SensesSame(a: seq<byte>)
    ensures PinsKept(a, a)
  {
  }

  lemma SensesChain(a: seq<byte>, b: seq<byte>, c: seq<byte>)
    requires PinsKept(a, b) && PinsKept(b, c)
    ensures PinsKept(a, c)
  {
  }

  lemma FaithfulBoth(vs: seq<Visit>, ws: seq<Visit>, h: seq<Store>, from: nat)
    requires Faithful(vs, h) && Faithful(ws, h) && Since(vs, from) && Since(ws, from)
    ensures Faithful(vs + ws, h) && Since(vs + ws, from)
  {
  }

  lemma NoneRaised(now: byte)
    ensures Gained(now, now, Change(0, 0))
  {
    forall k | 0 <= k < 8 ensures !Bit(0, k) { ZeroBit(k); }
  }

  /** The functions attached to the set pins below n, in ascending order. */
  ghost function Attached(h: seq<Store>, port: nat, flags: byte, n: nat): seq<word> {
    if n == 0 then []
    else Attached(h, port, flags, n - 1)
         + (if Bit(flags, n - 1) && Entry(h, port, n - 1) != 0 then [Entry(h, port, n - 1)] else [])
  }

  /** At every visit the port's attachments were what they are in the end. */
  ghost predicate Quiet(vs: seq<Visit>, h: seq<Store>, port: nat) {
    forall i, k :: 0 <= i < |vs| && 0 <= k < 8 && vs[i].at <= |h| ==>
      Entry(h[..vs[i].at], port, k) == Entry(h, port, k)
  }

  /** With user functions that leave the port's attachments alone, the functions
      called are the attached ones. */
  lemma {:induction false} QuietPassCallsAttached(vs: seq<Visit>, flags: byte, n: nat, h: seq<Store>, port: nat)
    requires Pass(vs, flags, n, h, port) && Quiet(vs, h, port) && n <= 8
    ensures Called(vs) == Attached(h, port, flags, n)
    decreases n
  {
    hide Pass, Entry, Quiet, Bit;
    if n == 0 {
      NoVisit(vs, flags, h, port);
    } else if Bit(flags, n - 1) {
      var last := |vs| - 1;
      LastVisit(vs, flags, n, h, port);
      DropLast(vs, flags, n, h, port);
      QuietPassCallsAttached(vs[..last], flags, n - 1, h, port);
    } else {
      NotVisited(vs, flags, n, h, port);
      QuietPassCallsAttached(vs, flags, n - 1, h, port);
    }
  }

  lemma NotVisited(vs: seq<Visit>, flags: byte, n: nat, h: seq<Store>, port: nat)
    requires n > 0 && Pass(vs, flags, n, h, port) && !Bit(flags, n - 1)
    ensures Pass(vs, flags, n - 1, h, port)
  {
    hide Faithful, Bit;
    forall i | 0 <= i < |vs| ensures vs[i].bit < n - 1 { assert vs[i].bit != n - 1; }
  }

  lemma NoVisit(vs: seq<Visit>, flags: byte, h: seq<Store>, port: nat)
    requires Pass(vs, flags, 0, h, port)
    ensures vs == []
  {
    assert |vs| > 0 ==> vs[0].bit < 0;
  }

  /** The highest set bit is visited last, with what is attached to it. */
  lemma LastVisit(vs: seq<Visit>, flags: byte, n: nat, h: seq<Store>, port: nat)
    requires Pass(vs, flags, n, h, port) && Quiet(vs, h, port) && 0 < n <= 8 && Bit(flags, n - 1)
    ensures vs != [] && vs[|vs| - 1].bit == n - 1 && vs[|vs| - 1].f == Entry(h, port, n - 1)
  {
    var i :| 0 <= i < |vs| && vs[i].bit == n - 1;
    assert vs[|vs| - 1].bit < n;
  }

  lemma DropLast(vs: seq<Visit>, flags: byte, n: nat, h: seq<Store>, port: nat)
    requires n > 0 && Pass(vs, flags, n, h, port) && Quiet(vs, h, port) && vs != [] && vs[|vs| - 1].bit == n - 1
    ensures Pass(vs[..|vs| - 1], flags, n - 1, h, port) && Quiet(vs[..|vs| - 1], h, port)
  {
    hide Entry, Bit;
    var ws := vs[..|vs| - 1];
    forall i | 0 <= i < |ws| ensures ws[i].bit < n - 1 { assert vs[i].bit < vs[|vs| - 1].bit; }
    forall k | 0 <= k < n - 1 && Bit(flags, k) ensures exists i :: 0 <= i < |ws| && ws[i].bit == k {
      var i :| 0 <= i < |vs| && vs[i].bit == k;
      assert ws[i].bit == k;
    }
  }
}
