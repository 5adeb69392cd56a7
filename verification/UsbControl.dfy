/** Endpoint 0: the accumulator behind USB_SendControl, the composite
    configuration descriptor built in it, and the control-OUT replay buffer. */
module UsbControl {
  import opened Bits
  import opened UsbEndpoint

  const ACC_SIZE := 192
  const INTERFACE: nat := 0x04
  const CTRL_OUT := 64

  /** The accumulator keeps what fits of everything sent to it. */
  function Clip(stream: seq<byte>, size: nat): (kept: seq<byte>) {
    if |stream| <= size then stream else stream[..size]
  }

  /** Walking d by bLength ends exactly at its last byte. */
  predicate Chains(d: seq<byte>)
    decreases |d|
  {
    d == [] || (2 <= d[0] <= |d| && Chains(d[d[0]..]))
  }

  predicate IsInterface(d: seq<byte>) {
    |d| >= 9 && d[0] >= 9 && d[1] == INTERFACE && d[3] == 0
  }

  /** The interfaces (alternate setting 0) such a walk meets. */
  function Interfaces(d: seq<byte>): (n: nat)
    requires Chains(d)
    decreases |d|
  {
    if d == [] then 0 else (if IsInterface(d) then 1 else 0) + Interfaces(d[d[0]..])
  }

  lemma {:induction false} ChainsConcat(a: seq<byte>, b: seq<byte>)
    requires Chains(a)
    ensures Chains(a + b) <==> Chains(b)
    ensures Chains(b) ==> Interfaces(a + b) == Interfaces(a) + Interfaces(b)
    decreases |a|
  {
    if a == [] {
      assert a + b == b;
    } else {
      assert (a + b)[a[0]..] == a[a[0]..] + b;
      ChainsConcat(a[a[0]..], b);
    }
  }

  /** One descriptor: its first byte is its length. */
  predicate Single(d: seq<byte>) { |d| >= 2 && d[0] == |d| }

  function CountInterfaces(ds: seq<seq<byte>>): nat {
    if ds == [] then 0 else (if IsInterface(ds[0]) then 1 else 0) + CountInterfaces(ds[1..])
  }

  lemma {:induction false} ListChains(ds: seq<seq<byte>>)
    requires forall k :: 0 <= k < |ds| ==> Single(ds[k])
    ensures Chains(Flatten(ds)) && Interfaces(Flatten(ds)) == CountInterfaces(ds)
  {
    if ds != [] {
      ListChains(ds[1..]);
      assert ds[0][ds[0][0]..] == [];
      ChainsConcat(ds[0], Flatten(ds[1..]));
    }
  }

  /** cfg_hdr, with wTotalLength and bNumInterfaces still zero. */
  const CFG_HDR: seq<byte> := [9, 0x02, 0, 0, 0, 1, 0, 0xA0, 50]

  /** g_config_descriptor[9..75]: the CDC function's descriptors. */
  const CDC: seq<seq<byte>> := [
    [8, 0x0B, 0, 2, 0x02, 0x02, 0x01, 0],
    [9, 0x04, 0, 0, 1, 0x02, 0x02, 0x01, 0],
    [5, 0x24, 0x00, 0x10, 0x01],
    [5, 0x24, 0x01, 0x00, 1],
    [4, 0x24, 0x02, 0x02],
    [5, 0x24, 0x06, 0, 1],
    [7, 0x05, 0x81, 0x03, 16, 0, 64],
    [9, 0x04, 1, 0, 2, 0x0A, 0x00, 0x00, 0],
    [7, 0x05, 0x02, 0x02, 64, 0, 0],
    [7, 0x05, 0x83, 0x02, 64, 0, 0]]

  lemma CdcBlock()
    ensures |Flatten(CDC)| == 66 && Chains(Flatten(CDC)) && Interfaces(Flatten(CDC)) == 2
  {
    forall k | 0 <= k < 10
      ensures Flatten(CDC[k..]) == CDC[k] + Flatten(CDC[k + 1..])
      ensures CountInterfaces(CDC[k..]) == (if IsInterface(CDC[k]) then 1 else 0) + CountInterfaces(CDC[k + 1..])
    {
      assert CDC[k..][1..] == CDC[k + 1..];
    }
    assert CDC[0..] == CDC && CDC[10..] == [];
    ListChains(CDC);
  }

  predicate IsEndpoint(d: seq<byte>) { |d| >= 7 && d[1] == 0x05 }

  /** The endpoint descriptors before the next interface. */
  function EndpointsAhead(ds: seq<seq<byte>>): nat {
    if ds == [] || IsInterface(ds[0]) then 0 else (if IsEndpoint(ds[0]) then 1 else 0) + EndpointsAhead(ds[1..])
  }

  /** s_ep_types[0..4]: the direction in bit 7, the transfer type in bits 1 and 0. */
  const EP_TYPES: seq<byte> := [0x00, 0x83, 0x02, 0x82]

  /** The endpoint a descriptor declares, in the same encoding. */
  function Declared(d: seq<byte>): byte
    requires IsEndpoint(d)
  {
    d[2] / 128 * 128 + d[3] % 4
  }

  /** An endpoint descriptor the endpoint table agrees with. */
  predicate Agrees(d: seq<byte>) {
    IsEndpoint(d) && 1 <= d[2] % 128 <= 3 && Declared(d) == EP_TYPES[d[2] % 128] && d[4] <= 64 && d[5] == 0
  }

  /** The block agrees with itself and with the endpoint table: the association covers
      interfaces 0 and 1, which are there in order, each followed by as many endpoints
      as it announces ... */
  lemma CdcInterfaces()
    ensures CDC[0][2] == 0 && CDC[0][3] == 2
    ensures forall k :: 0 <= k < |CDC| ==> (IsInterface(CDC[k]) <==> k == 1 || k == 7)
    ensures CDC[1][2] == 0 && CDC[1][4] as int == EndpointsAhead(CDC[2..])
    ensures CDC[7][2] == 1 && CDC[7][4] as int == EndpointsAhead(CDC[8..])
  {
    CdcKinds();
    hide IsInterface, IsEndpoint, EndpointsAhead;
    Ahead(2);
    Ahead(3);
    Ahead(4);
    Ahead(5);
    Ahead(6);
    Ahead(7);
    Ahead(8);
    Ahead(9);
    Ahead(10);
  }

  lemma CdcKinds()
    ensures forall k :: 0 <= k < 10 ==> (IsInterface(CDC[k]) <==> k == 1 || k == 7)
    ensures forall k :: 0 <= k < 10 ==> (IsEndpoint(CDC[k]) <==> k == 6 || k == 8 || k == 9)
  {
  }

  lemma Ahead(k: nat)
    requires k <= 10
    ensures EndpointsAhead(CDC[k..]) ==
            if k == 10 || IsInterface(CDC[k]) then 0
            else (if IsEndpoint(CDC[k]) then 1 else 0) + EndpointsAhead(CDC[k + 1..])
  {
    if k < 10 { assert CDC[k..][1..] == CDC[k + 1..]; }
  }

  /** ... and the endpoints are 1, 2 and 3, with the table's direction and type, and
      packets that fit the 64-byte buffers. */
  lemma CdcEndpoints()
    ensures forall k :: 0 <= k < |CDC| ==> (IsEndpoint(CDC[k]) <==> k == 6 || k == 8 || k == 9)
    ensures Agrees(CDC[6]) && CDC[6][2] % 128 == 1
    ensures Agrees(CDC[8]) && CDC[8][2] % 128 == 2
    ensures Agrees(CDC[9]) && CDC[9][2] % 128 == 3
  {
    Address(CDC[6][2], CDC[6][3]);
    Address(CDC[8][2], CDC[8][3]);
    Address(CDC[9][2], CDC[9][3]);
  }

  lemma Address(address: byte, attributes: byte)
    requires address in {0x81, 0x02, 0x83} && attributes < 4
    ensures address % 128 == (if address == 0x81 then 1 else if address == 2 then 2 else 3)
    ensures address / 128 == (if address == 2 then 0 else 1) && attributes % 4 == attributes
  {
  }

  /** One USB_SendControl call of a plugged module, and the interfaces it counts. */
  datatype Emission = Emission(bytes: seq<byte>, interfaces: byte)

  function Bytes(ms: seq<Emission>): (d: seq<byte>) {
    if ms == [] then [] else Bytes(ms[..|ms| - 1]) + ms[|ms| - 1].bytes
  }

  function Count(ms: seq<Emission>): (n: nat) {
    if ms == [] then 0 else Count(ms[..|ms| - 1]) + ms[|ms| - 1].interfaces
  }

  function Patch(d: seq<byte>, interfaces: byte): (p: seq<byte>)
    requires 9 <= |d| <= ACC_SIZE
    ensures |p| == |d|
  {
    d[2 := |d| % 256][3 := |d| / 256][4 := interfaces]
  }

  /** The descriptor the host is given. */
  function Config(ms: seq<Emission>): (d: seq<byte>)
    ensures 9 <= |d| <= ACC_SIZE
  {
    Patch(Clip(CFG_HDR + Flatten(CDC) + Bytes(ms), ACC_SIZE), (2 + Count(ms)) % 256)
  }

  lemma ClipTwice(s: seq<byte>, t: seq<byte>, size: nat)
    ensures Clip(Clip(s, size) + t, size) == Clip(s + t, size)
  {
  }

  /** The configuration header of `total` bytes in all. */
  function Header(total: nat, interfaces: byte): (h: seq<byte>)
    requires total <= ACC_SIZE
    ensures |h| == 9
  {
    [9, 0x02, total % 256, total / 256, interfaces, 1, 0, 0xA0, 50]
  }

  lemma PatchIsHeader(rest: seq<byte>, interfaces: byte)
    requires 9 + |rest| <= ACC_SIZE
    ensures Patch(CFG_HDR + rest, interfaces) == Header(9 + |rest|, interfaces) + rest
  {
  }

  lemma ClipTail(a: seq<byte>, b: seq<byte>, size: nat)
    requires |a| <= size
    ensures Clip(a + b, size) == a + Clip(b, size - |a|)
  {
  }

  /** The descriptor is its header, patched, the CDC block, and what fits of the modules. */
  lemma ConfigParts(ms: seq<Emission>)
    ensures var d := Config(ms); var modules := Clip(Bytes(ms), ACC_SIZE - 75);
            d == Header(|d|, (2 + Count(ms)) % 256) + (Flatten(CDC) + modules) && |d| == 75 + |modules|
  {
    CdcBlock();
    hide Flatten, Bytes, Count, Chains, Interfaces;
    var modules := Clip(Bytes(ms), ACC_SIZE - 75);
    ClipTail(CFG_HDR + Flatten(CDC), Bytes(ms), ACC_SIZE);
    assert CFG_HDR + Flatten(CDC) + modules == CFG_HDR + (Flatten(CDC) + modules);
    PatchIsHeader(Flatten(CDC) + modules, (2 + Count(ms)) % 256);
  }

  /** What the host reads in the header besides: configuration 1, bus-powered (bit 6
      clear) with remote wakeup (bit 5), and 100 mA in units of 2. */
  lemma HeaderFields(ms: seq<Emission>)
    ensures var d := Config(ms);
      && d[0] == 9 && d[1] == 2 && d[5] == 1 && d[6] == 0
      && Bit(d[7], 7) && !Bit(d[7], 6) && Bit(d[7], 5) && 2 * d[8] as int == 100
  {
    ConfigParts(ms);
    hide Config, Flatten, Bytes, Count;
    assert 0xA0 / 2 == 80 && 80 / 2 == 40 && 40 / 2 == 20 && 20 / 2 == 10 && 10 / 2 == 5 && 5 / 2 == 2 && 2 / 2 == 1;
    assert Bit(1, 0) && !Bit(2, 0) && Bit(5, 0);
    assert Bit(2, 1) && Bit(5, 2) && !Bit(5, 1);
    assert Bit(10, 3) && !Bit(10, 2) && Bit(10, 1);
    assert Bit(20, 4) && !Bit(20, 3) && Bit(20, 2);
    assert Bit(40, 5) && !Bit(40, 4) && Bit(40, 3);
    assert Bit(80, 6) && !Bit(80, 5) && Bit(80, 4);
  }

  lemma HeaderThen(h: seq<byte>, cdc: seq<byte>, modules: seq<byte>)
    requires |h| == 9 && h[0] == 9 && h[1] != INTERFACE && Chains(cdc) && Interfaces(cdc) == 2
    ensures var d := h + (cdc + modules);
      && (Chains(d) <==> Chains(modules))
      && (Chains(modules) ==> Interfaces(d) == 2 + Interfaces(modules))
  {
    var d := h + (cdc + modules);
    assert d[9..] == cdc + modules;
    ChainsConcat(cdc, modules);
    assert Chains(d) <==> Chains(d[9..]);
  }

  /** Past its header, the descriptor is the CDC block and the modules' share. */
  lemma ConfigWalk(ms: seq<Emission>)
    ensures var d := Config(ms); var modules := Clip(Bytes(ms), ACC_SIZE - 75);
      && (Chains(d) <==> Chains(modules))
      && (Chains(modules) ==> Interfaces(d) == 2 + Interfaces(modules))
  {
    ConfigParts(ms);
    CdcBlock();
    hide Flatten, Config, Clip, Bytes, Chains, Interfaces, Count;
    HeaderThen(Header(|Config(ms)|, (2 + Count(ms)) % 256), Flatten(CDC), Clip(Bytes(ms), ACC_SIZE - 75));
  }

  /** wTotalLength (bytes 2 and 3) is the number of bytes emitted, and the walk by
      bLength ends exactly there if and only if what fits of the modules' bytes
      is itself a chain of descriptors. */
  lemma WalkEndsAtTotalLength(ms: seq<Emission>)
    ensures var d := Config(ms);
      && (d[2] as int) + 256 * d[3] == |d|
      && |d| == (if 75 + |Bytes(ms)| <= 192 then 75 + |Bytes(ms)| else 192)
      && (Chains(d) <==> Chains(Clip(Bytes(ms), ACC_SIZE - 75)))
  {
    ConfigParts(ms);
    ConfigWalk(ms);
    hide Chains, Flatten, Bytes;
  }

  /** A walk of d by bLength passes n. */
  predicate Boundary(d: seq<byte>, n: nat)
    requires Chains(d)
    decreases |d|
  {
    n == 0 || (d != [] && d[0] as int <= n && Boundary(d[d[0]..], n - d[0]))
  }

  lemma {:induction false} CutChainsIff(d: seq<byte>, n: nat)
    requires Chains(d) && n <= |d|
    ensures Chains(d[..n]) <==> Boundary(d, n)
    decreases |d|
  {
    if n > 0 && d[0] as int <= n {
      assert d[..n][d[0]..] == d[d[0]..][..n - d[0]];
      CutChainsIff(d[d[0]..], n - d[0]);
    }
  }

  /** Modules that are a chain of descriptors but too long for the accumulator: the
      walk still ends at wTotalLength if and only if the cut, after 117 of their
      bytes, falls between two descriptors. */
  lemma TruncatedWalkIff(ms: seq<Emission>)
    requires Chains(Bytes(ms)) && 75 + |Bytes(ms)| > ACC_SIZE
    ensures Chains(Config(ms)) <==> Boundary(Bytes(ms), ACC_SIZE - 75)
  {
    WalkEndsAtTotalLength(ms);
    CutChainsIff(Bytes(ms), ACC_SIZE - 75);
    hide Config, Chains, Boundary, Bytes;
  }

  /** One 200-byte descriptor is a chain by itself, and is cut. */
  lemma TruncationBreaksTheWalk()
    ensures var ms := [Emission([200] + seq(199, _ => 0), 0)];
            Chains(ms[0].bytes) && !Chains(Config(ms))
  {
    var d: seq<byte> := [200] + seq(199, _ => 0);
    var ms := [Emission(d, 0)];
    assert d[200..] == [];
    assert ms[..0] == [];
    assert Bytes(ms) == d;
    WalkEndsAtTotalLength(ms);
    hide Config;
    assert Clip(d, 117)[0] == 200;
  }

  /** Every emission is a chain of descriptors and counts the interfaces it has. */
  ghost predicate Honest(ms: seq<Emission>) {
    forall e :: e in ms ==> Chains(e.bytes) && e.interfaces == Interfaces(e.bytes)
  }

  lemma {:induction false} BytesChain(ms: seq<Emission>)
    requires Honest(ms)
    ensures Chains(Bytes(ms)) && Count(ms) == Interfaces(Bytes(ms))
  {
    if ms != [] {
      BytesChain(ms[..|ms| - 1]);
      ChainsConcat(Bytes(ms[..|ms| - 1]), ms[|ms| - 1].bytes);
    }
  }

  /** When every emission is a chain of descriptors, claims the interfaces it
      contains, and nothing is truncated, the host's walk ends at wTotalLength
      having met bNumInterfaces (byte 4) interfaces. */
  lemma WholeConfigIsWellFormed(ms: seq<Emission>)
    requires Honest(ms)
    requires 75 + |Bytes(ms)| <= ACC_SIZE
    ensures var d := Config(ms); Chains(d) && Interfaces(d) == d[4] as int
  {
    hide Config, Honest, Bytes, Count;
    WholeConfigWalks(ms);
    FewInterfaces(Config(ms));
    InterfaceByte(ms);
    SmallByte(2 + Count(ms), |Config(ms)|);
  }

  lemma SmallByte(n: nat, size: nat)
    requires 9 * n <= size <= ACC_SIZE
    ensures n % 256 == n
  {
  }

  lemma WholeConfigWalks(ms: seq<Emission>)
    requires Honest(ms)
    requires 75 + |Bytes(ms)| <= ACC_SIZE
    ensures Chains(Config(ms)) && Interfaces(Config(ms)) == 2 + Count(ms)
  {
    BytesChain(ms);
    ConfigWalk(ms);
    assert Clip(Bytes(ms), ACC_SIZE - 75) == Bytes(ms);
    hide Config, Clip, Chains, Interfaces, Bytes, Count;
  }

  /** An interface descriptor takes nine bytes. */
  lemma {:induction false} FewInterfaces(d: seq<byte>)
    requires Chains(d)
    ensures 9 * Interfaces(d) <= |d|
    decreases |d|
  {
    if d != [] { FewInterfaces(d[d[0]..]); }
  }

  lemma InterfaceByte(ms: seq<Emission>)
    ensures Config(ms)[4] == (2 + Count(ms)) % 256
  {
    hide Flatten, Bytes, Count;
    assert |Clip(CFG_HDR + Flatten(CDC) + Bytes(ms), ACC_SIZE)| >= 9;
  }

  lemma AddModulo(a: nat, b: nat)
    ensures (a % 256 + b) % 256 == (a + b) % 256
  {
  }

  lemma NextEmission(held: seq<byte>, ms: seq<Emission>, k: nat)
    requires k < |ms|
    ensures Clip(Clip(held + Bytes(ms[..k]), ACC_SIZE) + ms[k].bytes, ACC_SIZE) == Clip(held + Bytes(ms[..k + 1]), ACC_SIZE)
    ensures Count(ms[..k + 1]) == Count(ms[..k]) + ms[k].interfaces
  {
    assert ms[..k + 1][..k] == ms[..k];
    ClipTwice(held + Bytes(ms[..k]), ms[k].bytes, ACC_SIZE);
    assert held + Bytes(ms[..k + 1]) == held + Bytes(ms[..k]) + ms[k].bytes;
  }

  class Accumulator {
    const acc: array<byte>            // s_acc
    var pos: nat                      // s_acc_pos

    ghost predicate Valid() reads this { acc.Length == ACC_SIZE && pos <= ACC_SIZE }

    ghost function Held(): seq<byte>
      reads this, acc
      requires Valid()
    {
      acc[..pos]
    }

    constructor ()
      ensures Valid() && Held() == [] && fresh(acc)
    {
      acc, pos := new byte[ACC_SIZE](_ => 0), 0;
    }

    method Copy(src: seq<byte>)
      requires Valid() && pos + |src| <= ACC_SIZE
      modifies this`pos, acc
      ensures Valid() && Held() == old(Held()) + src
    {
      ghost var was := acc[..pos];
      for k := 0 to |src|
        invariant unchanged(this) && acc[..pos + k] == was + src[..k]
      {
        acc[pos + k] := src[k];
      }
      pos := pos + |src|;
    }

    /** USB_SendControl: 0 for nothing to send, -1 when full, otherwise the number kept. */
    method SendControl(d: seq<byte>, len: int) returns (r: int)
      requires Valid() && len <= |d|
      modifies this`pos, acc
      ensures Valid() && Held() == Clip(old(Held()) + d[..if len <= 0 then 0 else len], ACC_SIZE)
      ensures r == if len <= 0 then 0 else if |old(Held())| == 192 then -1 else |Held()| - |old(Held())|
      ensures var sent := d[..if len <= 0 then 0 else len];
              Held() <= old(Held()) + sent && |Held()| == if |old(Held())| + |sent| <= 192 then |old(Held())| + |sent| else 192
    {
      if len <= 0 { return 0; }
      var room := ACC_SIZE - pos;
      if room <= 0 { return -1; }
      r := if len > room then room else len;
      Copy(d[..r]);
    }

    /** usbcore_acc_load_P: the same for descriptors in flash, silently. */
    method LoadFromFlash(src: seq<byte>, n: nat)
      requires Valid() && n <= |src|
      modifies this`pos, acc
      ensures Valid() && Held() == Clip(old(Held()) + src[..n], ACC_SIZE)
      ensures Held() <= old(Held()) + src[..n] && |Held()| == if |old(Held())| + n <= 192 then |old(Held())| + n else 192
    {
      var room := ACC_SIZE - pos;
      if room == 0 { return; }
      Copy(src[..if n > room then room else n]);
    }

    /** The modules' turn: any sequence of calls, whatever they return. */
    method PluggedGetInterfaces(ms: seq<Emission>, ifCount: byte) returns (r: byte)
      requires Valid()
      modifies this`pos, acc
      ensures Valid() && Held() == Clip(old(Held()) + Bytes(ms), ACC_SIZE)
      ensures r == (ifCount + Count(ms)) % 256
    {
      r := ifCount;
      assert ms[..0] == [];
      assert old(Held()) + [] == old(Held());
      for k := 0 to |ms|
        invariant Valid() && Held() == Clip(old(Held()) + Bytes(ms[..k]), ACC_SIZE)
        invariant r == (ifCount + Count(ms[..k])) % 256
      {
        NextEmission(old(Held()), ms, k);
        hide Clip, Bytes, Count;
        AddModulo(ifCount + Count(ms[..k]), ms[k].interfaces);
        assert ms[k].bytes[..|ms[k].bytes|] == ms[k].bytes;
        var _ := SendControl(ms[k].bytes, |ms[k].bytes|);
        r := (r + ms[k].interfaces) % 256;
      }
      assert ms[..|ms|] == ms;
    }

    /** usbcore_build_config_descriptor. */
    method BuildConfigDescriptor(ms: seq<Emission>)
      requires Valid()
      modifies this`pos, acc
      ensures Valid() && Held() == Config(ms)
    {
      CdcBlock();
      hide Flatten, Bytes, Count, Chains, Interfaces;
      pos := 0;
      var _ := SendControl(CFG_HDR, 9);
      assert Held() == CFG_HDR;
      var _ := SendControl(Flatten(CDC), 66);
      assert Held() == CFG_HDR + Flatten(CDC);
      hide Clip;
      var ifCount := PluggedGetInterfaces(ms, 2);
      PatchHeader(ifCount);
    }

    method PatchHeader(ifCount: byte)
      requires Valid() && 9 <= pos
      modifies acc
      ensures Valid() && Held() == Patch(old(Held()), ifCount)
    {
      acc[2] := pos % 256;
      acc[3] := pos / 256;
      acc[4] := ifCount;
    }
  }

  /** A SETUP packet as the stack keeps it, and as the module framework wants it. */
  datatype SetupPacket = SetupPacket(bmRequestType: byte, bRequest: byte, wValue: word, wIndex: word, wLength: word)
  datatype UsbSetup = UsbSetup(bmRequestType: byte, bRequest: byte, wValueL: byte, wValueH: byte, wIndex: word, wLength: word)

  /** as_usbsetup. */
  function AsUsbSetup(s: SetupPacket): (u: UsbSetup)
    ensures (u.wValueL as int) + 256 * u.wValueH == s.wValue
    ensures (u.bmRequestType, u.bRequest, u.wIndex, u.wLength) == (s.bmRequestType, s.bRequest, s.wIndex, s.wLength)
  {
    UsbSetup(s.bmRequestType, s.bRequest, s.wValue % 256, s.wValue / 256, s.wIndex, s.wLength)
  }

  /** The control-OUT data stage: the host's bytes are staged, then replayed to
      the module that owns the request. */
  class ControlOut {
    const buf: array<byte>            // s_ctrl_out_buf
    var setup: SetupPacket            // s_ctrl_out_setup
    var len: nat
    var pos: nat
    var pending: bool

    ghost predicate Valid() reads this { buf.Length == CTRL_OUT && pos <= len <= CTRL_OUT }

    constructor ()
      ensures Valid() && !pending && len == 0
    {
      buf, len, pos, pending := new byte[CTRL_OUT](_ => 0), 0, 0, false;
      setup := SetupPacket(0, 0, 0, 0, 0);
    }

    /** usbcore_ctrl_out_begin: keep the SETUP; the length to arm is capped at one packet. */
    method Begin(s: SetupPacket) returns (n: nat)
      requires Valid()
      modifies this`setup, this`len, this`pos, this`pending
      ensures Valid() && pending && pos == 0 && setup == s
      ensures len == n == if s.wLength > 64 then 64 else s.wLength
    {
      setup := s;
      n := if s.wLength > CTRL_OUT then CTRL_OUT else s.wLength;
      len, pos, pending := n, 0, true;
    }

    /** USB_RecvControl: the next bytes of the stage. */
    method RecvControl(want: int) returns (d: seq<byte>)
      requires Valid()
      modifies this`pos
      ensures Valid() && buf[..pos] == buf[..old(pos)] + d
      ensures |d| == if want <= 0 then 0 else if want > len - old(pos) then len - old(pos) else want
    {
      if want <= 0 { return []; }
      var n := if want > len - pos then len - pos else want;
      d := buf[pos..pos + n];
      pos := pos + n;
    }

    /** usbcore_ctrl_out_dispatch: the module gets the SETUP kept by Begin, and its
        reads, of any lengths, see the staged bytes from the first one on, each
        once and in order. */
    method Dispatch(wants: seq<int>) returns (u: UsbSetup, got: seq<seq<byte>>)
      requires Valid()
      modifies this`pos, this`pending
      ensures Valid() && !pending && |got| == |wants| && u == AsUsbSetup(setup)
      ensures Flatten(got) == buf[..pos]
      ensures forall k :: 0 <= k < |wants| ==> |got[k]| <= if wants[k] <= 0 then 0 else wants[k]
      ensures (exists k :: 0 <= k < |wants| && |got[k]| < wants[k]) ==> pos == len
    {
      pending, pos := false, 0;
      u := AsUsbSetup(setup);
      got := [];
      for k := 0 to |wants|
        invariant Valid() && !pending && |got| == k && Flatten(got) == buf[..pos]
        invariant forall i :: 0 <= i < k ==> |got[i]| <= if wants[i] <= 0 then 0 else wants[i]
        invariant (exists i :: 0 <= i < k && |got[i]| < wants[i]) ==> pos == len
      {
        var d := RecvControl(wants[k]);
        FlattenOne(got, d);
        got := got + [d];
      }
    }
  }
}
