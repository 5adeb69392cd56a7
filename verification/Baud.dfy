/** The BAUD register that HardwareSerial::begin computes. */
module Baud {
  import opened Bits

  /** The baud rate after the choice of double speed. */
  function Base(fCpu: nat, baud: nat): (b: nat)
    requires 16 <= fCpu && baud > 0
    ensures b > 0
  {
    if baud > fCpu / 16 then baud / 2 else baud
  }

  /** 64 * fCpu over p, the samples per second, is what the register should hold. */
  predicate Within(fCpu: nat, p: nat, low: int, high: int) { p * low <= 64 * fCpu < p * high }

  /** What begin stores, with `clocked` for the synchronous and SPI-host modes. The
      error of the rate against the one asked for, at 8 or 16 samples a bit, is that
      of the last place of the register if and only if the rate is in range; double
      speed cannot tell an odd rate from the even one below it. */
  method Setting(fCpu: nat, baud: nat, clocked: bool) returns (setting: word, double: bool)
    requires 16 <= fCpu && 0 < baud
    ensures double <==> baud > fCpu / 16
    ensures var d := 4 * fCpu / Base(fCpu, baud);
            setting == if clocked then Clocked(d % 0x10000) else Async(d % 0x10000)
    ensures var p := if double then 8 * (baud - baud % 2) else 16 * baud;
      && p > 0
      && (!clocked ==> (Within(fCpu, p, setting, setting + 1) <==> p <= fCpu < 1024 * p))
      && (clocked ==> (Within(fCpu, p, setting - 32, setting + 33) <==> p <= 2 * fCpu < 2047 * p))
      && ((if clocked then 2 * fCpu else fCpu) < p ==> setting == 64)
  {
    hide Within, Clocked, Async;
    var b := baud;
    double := false;
    if b > fCpu / 16 {
      double := true;
      b := b / 2;
    }
    assert b == Base(fCpu, baud);
    hide Base;
    Realised(fCpu, baud);
    setting := (4 * fCpu / b) % 0x10000;
    setting := Adjusted(setting, clocked);
  }

  /** The last part: rounded to the integer part for the clocked modes, and at least 64. */
  method Adjusted(quotient: word, clocked: bool) returns (setting: word)
    ensures setting == if clocked then Clocked(quotient) else Async(quotient)
  {
    RoundsUp(quotient);
    hide And, Clocked;
    setting := quotient;
    if clocked {
      setting := And((setting + 0x20) % 0x10000, 0xFFC0);
      if setting < 64 { setting := 64; }
    }
    if setting < 64 { setting := 64; }
  }

  function Async(d: word): (s: word) { if d < 64 then 64 else d }

  function Clocked(d: word): (s: word) {
    var up := (d + 32) % 0x10000;
    if up < 64 then 64 else up - up % 64
  }

  lemma RoundsUp(d: word)
    ensures var s := And((d + 0x20) % 0x10000, 0xFFC0); Clocked(d) == (if s < 64 then 64 else s) >= 64
  {
    hide And;
    var up: word := (d + 0x20) % 0x10000;
    ClearLowSix(up);
    assert Clocked(d) == if up < 64 then 64 else up - up % 64;
    AtLeast64(up);
    hide Clocked;
  }

  lemma AtLeast64(up: word)
    ensures up - up % 64 < 64 <==> up < 64
  {
  }

  lemma QuotientIff(f: nat, b: nat, s: nat)
    requires b > 0
    ensures b * s <= f < b * (s + 1) <==> s == f / b
  {
    var d := f / b;
    assert b * d <= f < b * (d + 1);
    if s < d { assert b * (s + 1) <= b * d; }
    if s > d { assert b * s >= b * (d + 1); }
  }

  /** Asynchronous: the setting is the exact quotient 4 * fCpu / b if and only if
      that is in the register's range; otherwise the rate is simply another one. */
  lemma AsyncIsQuotientIff(fCpu: nat, b: nat)
    requires b > 0
    ensures var d := 4 * fCpu / b; var s := Async(d % 0x10000);
      (b * s <= 4 * fCpu < b * (s + 1)) <==> 64 <= d < 0x10000
  {
    QuotientIff(4 * fCpu, b, Async(4 * fCpu / b % 0x10000));
  }

  lemma SamplesPerSecond(fCpu: nat, b: nat, low: int, high: int)
    requires b > 0
    ensures Within(fCpu, 16 * b, low, high) <==> b * low <= 4 * fCpu < b * high
  {
    assert (16 * b) * low == 16 * (b * low) && (16 * b) * high == 16 * (b * high);
  }

  /** The quotient d of begin, in terms of the rate asked for. */
  lemma Realised(fCpu: nat, baud: nat)
    requires 16 <= fCpu && 0 < baud
    ensures var p := if baud > fCpu / 16 then 8 * (baud - baud % 2) else 16 * baud;
            var d := 4 * fCpu / Base(fCpu, baud);
            var async, clocked := Async(d % 0x10000) as int, Clocked(d % 0x10000) as int;
      && p > 0
      && (Within(fCpu, p, async, async + 1) <==> p <= fCpu < 1024 * p)
      && (Within(fCpu, p, clocked - 32, clocked + 33) <==> p <= 2 * fCpu < 2047 * p)
      && (fCpu < p ==> async == 64) && (2 * fCpu < p ==> clocked == 64)
  {
    Halves(baud);
    var b := Base(fCpu, baud);
    RealisedAsync(fCpu, b);
    RealisedClocked(fCpu, b);
    hide Within, Clocked, Async;
  }

  lemma RealisedAsync(fCpu: nat, b: nat)
    requires b > 0
    ensures var d := 4 * fCpu / b; var s := Async(d % 0x10000) as int;
      && (Within(fCpu, 16 * b, s, s + 1) <==> 16 * b <= fCpu < 1024 * (16 * b))
      && (fCpu < 16 * b ==> s == 64)
  {
    hide Within;
    var d := 4 * fCpu / b;
    Quotient(4 * fCpu, b, d);
    Ranges(fCpu, b, d);
    AsyncIsQuotientIff(fCpu, b);
    var s := Async(d % 0x10000) as int;
    SamplesPerSecond(fCpu, b, s, s + 1);
  }

  lemma RealisedClocked(fCpu: nat, b: nat)
    requires b > 0
    ensures var d := 4 * fCpu / b; var s := Clocked(d % 0x10000) as int;
      && (Within(fCpu, 16 * b, s - 32, s + 33) <==> 16 * b <= 2 * fCpu < 2047 * (16 * b))
      && (2 * fCpu < 16 * b ==> s == 64)
  {
    var d := 4 * fCpu / b;
    ClockedIsNearestIff(d);
    assert d < 32 ==> Clocked(d % 0x10000) == 64;
    hide Within, Clocked;
    Quotient(4 * fCpu, b, d);
    Ranges(fCpu, b, d);
    var s := Clocked(d % 0x10000) as int;
    Around(4 * fCpu, b, d, s);
    SamplesPerSecond(fCpu, b, s - 32, s + 33);
  }

  lemma Halves(n: nat)
    ensures n - n % 2 == 2 * (n / 2)
  {
  }

  lemma Quotient(f: nat, b: nat, d: nat)
    requires b > 0 && d == f / b
    ensures b * d <= f < b * (d + 1)
  {
    QuotientIff(f, b, d);
  }

  /** The quotient is at least k iff f holds k times b. */
  lemma AtLeast(f: nat, b: nat, d: nat, k: int)
    requires b > 0 && b * d <= f < b * (d + 1)
    ensures k <= d <==> b * k <= f
  {
    if k <= d { assert b * k <= b * d; } else { assert b * (d + 1) <= b * k; }
  }

  lemma Around(f: nat, b: nat, d: nat, s: nat)
    requires b > 0 && b * d <= f < b * (d + 1)
    ensures b * (s - 32) <= f < b * (s + 33) <==> d - 32 <= s <= d + 32
  {
    AtLeast(f, b, d, s - 32);
    AtLeast(f, b, d, s + 33);
  }

  lemma Ranges(fCpu: nat, b: nat, d: nat)
    requires b > 0 && b * d <= 4 * fCpu < b * (d + 1)
    ensures 64 <= d <==> 16 * b <= fCpu
    ensures d < 0x10000 <==> fCpu < 1024 * (16 * b)
    ensures 32 <= d <==> 16 * b <= 2 * fCpu
    ensures d < 0xFFE0 <==> 2 * fCpu < 2047 * (16 * b)
  {
    AtLeast(4 * fCpu, b, d, 64);
    AtLeast(4 * fCpu, b, d, 0x10000);
    AtLeast(4 * fCpu, b, d, 32);
    AtLeast(4 * fCpu, b, d, 0xFFE0);
  }

  /** In the clocked modes, where the argument is an eighth of the rate, a rate above
      the highest one, half the clock, is not stored as the highest one (64) but as half
      of it (128), unless it is above two thirds of the clock: it is halved first. */
  lemma TooFastClock(fCpu: nat, baud: nat)
    requires 1024 <= fCpu && baud > fCpu / 16
    ensures Clocked(4 * fCpu / Base(fCpu, baud) % 0x10000) == if 24 * (baud / 2) <= fCpu then 128 else 64
  {
    hide Clocked;
    var b := baud / 2;
    Halves(baud);
    var d := 4 * fCpu / b;
    Quotient(4 * fCpu, b, d);
    AtLeast(4 * fCpu, b, d, 96);
    AtLeast(4 * fCpu, b, d, 160);
    Rounded(d);
  }

  lemma Rounded(d: nat)
    requires d < 160
    ensures Clocked(d % 0x10000) == if d >= 96 then 128 else 64
  {
  }

  /** 12.1 MHz at 24 MHz becomes 6 MHz; 12 MHz is exact. */
  lemma TooFastClockAt24()
    ensures Clocked(4 * 24_000_000 / Base(24_000_000, 12_100_000 / 8) % 0x10000) == 128
    ensures Clocked(4 * 24_000_000 / Base(24_000_000, 12_000_000 / 8) % 0x10000) == 64
  {
    TooFastClock(24_000_000, 1_512_500);
    hide Clocked;
    Rounded(64);
  }

  /** Below about 1465 baud at 24 MHz the quotient overflows: 300 baud is stored
      as 57856, which is 1659 baud. */
  lemma LowRateIsAnotherRate()
    ensures var s := Async(4 * 24_000_000 / Base(24_000_000, 300) % 0x10000);
            s == 57856 && 1659 * s <= 4 * 24_000_000 < 1660 * s
  {
  }

  /** Clocked modes: the setting has no fractional part, is never zero, and is
      within half a step of the quotient if and only if the quotient is in range. */
  lemma ClockedIsNearestIff(d: nat)
    ensures var s := Clocked(d % 0x10000);
      && s % 64 == 0 && s >= 64
      && (d - 32 <= s <= d + 32 <==> 32 <= d < 0xFFE0)
  {
    hide Clocked;
    NearestMultiple(d % 0x10000);
  }

  /** Of 16 bits, rounded to a multiple of 64: near the end of the range it wraps. */
  lemma NearestMultiple(d: word)
    ensures var s := Clocked(d);
      && s % 64 == 0 && s >= 64
      && (if d < 32 || d >= 0xFFE0 then s == 64 else d - 32 <= s <= d + 32)
  {
  }
}
