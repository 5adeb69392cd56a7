/** The endpoint status register as the USB peripheral and the core share it. */
module UsbEndpoint {

  datatype Flag = TrnCompl | BusNak | Stalled | UnfOvf | Toggle

  type Status = set<Flag>

  /** A write to INCLR or OUTCLR: the flags named by the mask go to zero. */
  function Clear(s: Status, mask: set<Flag>): Status { s - mask }

  /** The hardware completes a transaction: the endpoint is the core's again,
      and the data toggle flips (section 8.6 of the USB 2.0 specification). */
  function Complete(s: Status): Status {
    (if Toggle in s then s - {Toggle} else s + {Toggle}) + {TrnCompl, BusNak}
  }

  /** The data PIDs of n transactions, starting with DATA0. */
  function Alternating(n: nat): (pids: seq<bool>)
    ensures |pids| == n
  {
    seq(n, k => k % 2 == 1)
  }

  lemma NextPid(n: nat)
    ensures Alternating(n) + [n % 2 == 1] == Alternating(n + 1)
  {
  }

  /** The byte stream a sequence of packets carries. */
  function Flatten<T>(packets: seq<seq<T>>): seq<T> {
    if packets == [] then [] else packets[0] + Flatten(packets[1..])
  }

  lemma {:induction false} FlattenAppend<T>(packets: seq<seq<T>>, more: seq<seq<T>>)
    ensures Flatten(packets + more) == Flatten(packets) + Flatten(more)
  {
    if packets == [] {
      assert packets + more == more;
    } else {
      assert (packets + more)[1..] == packets[1..] + more;
      FlattenAppend(packets[1..], more);
    }
  }

  lemma FlattenOne<T>(packets: seq<seq<T>>, p: seq<T>)
    ensures Flatten(packets + [p]) == Flatten(packets) + p
  {
    FlattenAppend(packets, [p]);
    assert [p][1..] == [] && Flatten([p]) == p + Flatten([p][1..]);
  }
}
