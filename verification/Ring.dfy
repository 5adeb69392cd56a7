/** The ring-buffer discipline shared by the UART buffers and the USB OUT rings:
    head is the next slot to fill, tail the next to read, and one slot always
    stays free so that head == tail means empty. */
module Ring {
  import opened Bits

  function Next(i: nat, size: nat): (j: nat)
    requires i < size
    ensures j < size
  {
    if i + 1 == size then 0 else i + 1
  }

  function Len(head: nat, tail: nat, size: nat): (n: nat)
    requires head < size && tail < size
    ensures n < size && (n == 0 <==> head == tail)
  {
    if tail <= head then head - tail else size - tail + head
  }

  /** The unread elements, oldest first. */
  function Contents<T>(buf: seq<T>, head: nat, tail: nat): (s: seq<T>)
    requires head < |buf| && tail < |buf|
    ensures |s| == Len(head, tail, |buf|)
  {
    if tail <= head then buf[tail..head] else buf[tail..] + buf[..head]
  }

  /** Storing in the head slot is invisible until the head moves. */
  lemma HeadSlotIsOutside<T>(buf: seq<T>, head: nat, tail: nat, x: T)
    requires head < |buf| && tail < |buf|
    ensures Contents(buf[head := x], head, tail) == Contents(buf, head, tail)
  {
    assert buf[head := x][..head] == buf[..head];
    assert tail <= head ==> buf[head := x][tail..head] == buf[tail..head];
    assert tail > head ==> buf[head := x][tail..] == buf[tail..];
  }

  /** Advancing the head past a filled slot appends that slot. */
  lemma Push<T>(buf: seq<T>, head: nat, tail: nat)
    requires head < |buf| && tail < |buf|
    requires Next(head, |buf|) != tail
    ensures Contents(buf, Next(head, |buf|), tail) == Contents(buf, head, tail) + [buf[head]]
  {
    if head + 1 == |buf| {
      assert buf[tail..] == buf[tail..head] + [buf[head]];
    } else {
      assert buf[..head + 1] == buf[..head] + [buf[head]];
    }
  }

  /** Advancing the tail removes the oldest element, which is the tail slot. */
  lemma Pop<T>(buf: seq<T>, head: nat, tail: nat)
    requires head < |buf| && tail < |buf| && head != tail
    ensures Contents(buf, head, tail)[0] == buf[tail]
    ensures Contents(buf, head, Next(tail, |buf|)) == Contents(buf, head, tail)[1..]
  {
    if tail + 1 == |buf| {
      assert buf[tail..] == [buf[tail]];
    }
  }

  /** Advancing the tail of an empty ring makes it look full. */
  lemma PopEmpty(head: nat, size: nat)
    requires head < size
    ensures Len(head, Next(head, size), size) == size - 1
  {
  }

  lemma FullIff(head: nat, tail: nat, size: nat)
    requires head < size && tail < size
    ensures Next(head, size) == tail <==> Len(head, tail, size) == size - 1
  {
  }

  /** The sources wrap with `(i + 1) & (SIZE - 1)`. */
  lemma NextIsMask(i: nat, k: nat)
    requires i < Pow2(k)
    ensures And(i + 1, Pow2(k) - 1) == Next(i, Pow2(k))
  {
    MaskWraps(if i + 1 == Pow2(k) then 0 else i + 1, k);
  }

  /** `(SIZE + head - tail) & (SIZE - 1)` counts the unread elements. */
  lemma LenIsMask(head: nat, tail: nat, k: nat)
    requires head < Pow2(k) && tail < Pow2(k)
    ensures And(Pow2(k) + head - tail, Pow2(k) - 1) == Len(head, tail, Pow2(k))
  {
    MaskWraps(Len(head, tail, Pow2(k)), k);
  }
}
