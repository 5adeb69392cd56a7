/** Machine integers of the 8-bit core, kept as mathematical integers in range,
    and the bitwise operations the sources use on them. */
module Bits {

  type byte = x: int | 0 <= x < 256
  type word = x: int | 0 <= x < 65536

  function Pow2(k: nat): (p: nat)
    ensures p >= 1
  {
    if k == 0 then 1 else 2 * Pow2(k - 1)
  }

  lemma {:induction false} Pow2Grows(k: nat, n: nat)
    requires k <= n
    ensures Pow2(k) <= Pow2(n)
  {
    if k < n { Pow2Grows(k, n - 1); }
  }

  /** Bit k of a, least significant bit first. */
  predicate Bit(a: nat, k: nat) {
    if k == 0 then a % 2 == 1 else Bit(a / 2, k - 1)
  }

  /** The C operator `a & b`. */
  function And(a: nat, b: nat): (r: nat)
    ensures r <= a && r <= b
  {
    if a == 0 || b == 0 then 0
    else 2 * And(a / 2, b / 2) + (if a % 2 == 1 && b % 2 == 1 then 1 else 0)
  }

  /** The C operator `a | b`. */
  function Or(a: nat, b: nat): (r: nat)
    ensures a <= r && b <= r
    decreases a + b
  {
    if a == 0 then b
    else if b == 0 then a
    else 2 * Or(a / 2, b / 2) + (if a % 2 == 1 || b % 2 == 1 then 1 else 0)
  }

  lemma {:induction false} OrBound(a: nat, b: nat, k: nat)
    requires a < Pow2(k) && b < Pow2(k)
    ensures Or(a, b) < Pow2(k)
    decreases k
  {
    if a != 0 && b != 0 {
      OrBound(a / 2, b / 2, k - 1);
    }
  }

  /** `a | b` on bytes is a byte. */
  function OrByte(a: byte, b: byte): (r: byte)
    ensures a <= r && b <= r
  {
    Powers();
    OrBound(a, b, 8);
    Or(a, b)
  }

  lemma {:induction false} AndBit(a: nat, b: nat, k: nat)
    ensures Bit(And(a, b), k) <==> Bit(a, k) && Bit(b, k)
    decreases k
  {
    if a == 0 || b == 0 {
      ZeroBit(k);
    } else if k > 0 {
      AndBit(a / 2, b / 2, k - 1);
    }
  }

  lemma {:induction false} OrBit(a: nat, b: nat, k: nat)
    ensures Bit(Or(a, b), k) <==> Bit(a, k) || Bit(b, k)
    decreases k
  {
    if a == 0 || b == 0 {
      ZeroBit(k);
    } else if k > 0 {
      OrBit(a / 2, b / 2, k - 1);
    }
  }

  lemma {:induction false} ZeroBit(k: nat)
    ensures !Bit(0, k)
  {
    if k > 0 { ZeroBit(k - 1); }
  }

  /** `a & (1 << k)`. */
  lemma {:induction false} MaskBit(a: nat, k: nat)
    ensures And(a, Pow2(k)) != 0 <==> Bit(a, k)
    decreases k
  {
    if k == 0 {
      assert a != 0 ==> And(a / 2, 0) == 0;
    } else if a > 0 {
      assert Pow2(k) / 2 == Pow2(k - 1);
      MaskBit(a / 2, k - 1);
    } else {
      ZeroBit(k);
    }
  }

  /** Masking with 2^k - 1 wraps an index that has run at most one lap past 2^k:
      why the ring indices may be wrapped with `& (SIZE - 1)`. */
  lemma {:induction false} MaskWraps(r: nat, k: nat)
    requires r < Pow2(k)
    ensures And(r, Pow2(k) - 1) == r
    ensures And(Pow2(k) + r, Pow2(k) - 1) == r
    decreases k
  {
    if k > 0 {
      var p := Pow2(k - 1);
      MaskWraps(r / 2, k - 1);
      assert (2 * p - 1) / 2 == p - 1;
      assert (2 * p + r) / 2 == p + r / 2;
    }
  }

  lemma AndShift(a: nat, b: nat, c: nat)
    requires b < 2
    ensures And(2 * a + b, 2 * c) == 2 * And(a, c)
  {
  }

  /** A mask without its low k bits drops the low k bits of its operand. */
  lemma {:induction false} AndHigh(q: nat, r: nat, m: nat, k: nat)
    requires r < Pow2(k)
    ensures And(Pow2(k) * q + r, Pow2(k) * m) == Pow2(k) * And(q, m)
    decreases k
  {
    if k > 0 {
      var p := Pow2(k - 1);
      AndHigh(q, r / 2, m, k - 1);
      AndShift(p * q + r / 2, r % 2, p * m);
      Double(p, q);
      Double(p, m);
      Double(p, And(q, m));
      hide And, Pow2;
      assert 2 * (p * q + r / 2) + r % 2 == 2 * p * q + r;
    }
  }

  lemma Double(p: nat, q: nat)
    ensures (2 * p) * q == 2 * (p * q)
  {
  }

  lemma Powers()
    ensures Pow2(3) == 8 && Pow2(4) == 16 && Pow2(5) == 32 && Pow2(6) == 64 && Pow2(7) == 128 && Pow2(8) == 256 && Pow2(10) == 1024
  {
    assert Pow2(4) == 16;
    assert Pow2(7) == 128;
  }

  /** `x & 0xFFC0` on 16 bits. */
  lemma ClearLowSix(x: word)
    ensures And(x, 0xFFC0) == x - x % 64
  {
    hide And, Pow2;
    Powers();
    AndHigh(x / 64, x % 64, 1023, 6);
    MaskWraps(x / 64, 10);
  }

  /** `x & 0xF8` on 8 bits. */
  lemma ClearLowThree(x: byte)
    ensures And(x, 0xF8) == x - x % 8
  {
    hide And, Pow2;
    Powers();
    AndHigh(x / 8, x % 8, 31, 3);
    MaskWraps(x / 8, 5);
  }

  /** A word with the low byte of one and the high byte of another. */
  function Join(low: word, high: word): word { low % 256 + 256 * (high / 256) }

  /** The exact condition for the mix of two words to be one of the two after all. */
  lemma JoinIsOneOfIff(low: word, high: word)
    ensures Join(low, high) == low || Join(low, high) == high <==> low % 256 == high % 256 || low / 256 == high / 256
    ensures Join(low, low) == low
  {
  }

  /** `~v`, on the low n bits. */
  lemma {:induction false} ComplementBit(v: nat, n: nat, k: nat)
    requires v < Pow2(n) && k < n
    ensures Bit(Pow2(n) - 1 - v, k) <==> !Bit(v, k)
    decreases k
  {
    var p := Pow2(n - 1);
    HalfComplement(p, v);
    if k > 0 {
      ComplementBit(v / 2, n - 1, k - 1);
      hide Pow2;
    }
  }

  lemma HalfComplement(p: nat, v: nat)
    requires v < 2 * p
    ensures (2 * p - 1 - v) / 2 == p - 1 - v / 2 && (2 * p - 1 - v) % 2 == 1 - v % 2
  {
  }

  lemma {:induction false} OneBit(n: nat, k: nat)
    ensures Bit(Pow2(n), k) <==> k == n
    decreases k
  {
    if n == 0 {
      if k > 0 { ZeroBit(k - 1); }
    } else if k > 0 {
      assert Pow2(n) / 2 == Pow2(n - 1);
      OneBit(n - 1, k - 1);
    }
  }

  /** `x & ~(1 << n)` on a byte. */
  lemma ClearBit(x: byte, n: nat, k: nat)
    requires n < 8 && k < 8
    ensures Pow2(n) <= 255 && (Bit(And(x, 255 - Pow2(n)), k) <==> k != n && Bit(x, k))
  {
    Powers();
    Pow2Grows(n, 7);
    AndBit(x, 255 - Pow2(n), k);
    ComplementBit(Pow2(n), 8, k);
    OneBit(n, k);
  }
}
