/** Where the fields of a HardwareSerial object and of a USART lie in memory. */
module SerialLayout {
  import opened Bits
  import opened Ring
  import opened Avr

  /** The sizes the assembly is written for. */
  predicate Size(n: nat) { n == 16 || n == 32 || n == 64 || n == 128 || n == 256 }

  // Field offsets in the object, and registers in the USART.
  const MODULE := 8
  const STATE := 14
  const RX_HEAD := 15
  const RX_TAIL := 16
  const TX_HEAD := 17
  const TX_TAIL := 18
  const RX_BUFFER := 19
  const RXDATAL := 0
  const RXDATAH := 1
  const TXDATAL := 2
  const STATUS := 4
  const CTRLA := 5

  /** The object lies in data memory, and its module pointer is a USART's: all
      of them are at 0x0800 plus a multiple of 32. */
  ghost predicate Laid(mem: Mem, obj: word, rx: nat, tx: nat) {
    && Size(rx) && Size(tx)
    && IO_END <= obj && obj + RX_BUFFER + rx + tx <= 65536
    && mem[obj + MODULE + 1] == 8 && mem[obj + MODULE] < 0xC0
    && mem[obj + TX_HEAD] < tx && mem[obj + TX_TAIL] < tx
    && mem[obj + RX_HEAD] < rx && mem[obj + RX_TAIL] < rx
  }

  function Module(mem: Mem, obj: word): word
    requires obj + MODULE + 1 < 65536
  {
    Word(mem[obj + MODULE], mem[obj + MODULE + 1])
  }

  /** The offsets follow from the declaration: a vtable pointer, Print's write error and
      Stream's timeout, then the module and pin pointers, two bytes of multiplexing, and
      the fields the handlers use, in order. */
  lemma FieldsInOrder()
    ensures MODULE == 2 + 2 + 4 && STATE == MODULE + 2 + 2 + 1 + 1
    ensures [RX_HEAD, RX_TAIL, TX_HEAD, TX_TAIL, RX_BUFFER] == [STATE + 1, STATE + 2, STATE + 3, STATE + 4, STATE + 5]
  {
  }

  /** The five sizes are powers of two. */
  lemma SizeIsPow2(n: nat) returns (k: nat)
    requires Size(n)
    ensures n == Pow2(k) && k <= 8
  {
    assert Pow2(4) == 16;
    assert Pow2(6) == 4 * Pow2(4);
    assert Pow2(8) == 4 * Pow2(6);
    k := if n == 16 then 4 else if n == 32 then 5 else if n == 64 then 6 else if n == 128 then 7 else 8;
  }

  /** Masking an index, even after it has wrapped to 8 bits, gives the next one. */
  lemma MaskedNext(i: nat, n: nat)
    requires Size(n) && i < n
    ensures And(i + 1, n - 1) == Next(i, n) == And((i + 1) % 256, n - 1)
  {
    var k := SizeIsPow2(n);
    NextIsMask(i, k);
    WrapsTo(i + 1);
    if i + 1 == 256 { assert And(0, n - 1) == 0; }
  }

  lemma WrapsTo(i: nat)
    requires i <= 256
    ensures i % 256 == if i == 256 then 0 else i
  {
  }
}
