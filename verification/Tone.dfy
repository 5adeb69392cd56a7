/** Tone generation: the search for a compare value, and the interrupt that
    toggles the pin and stops it. */
module Tone {
  import opened Bits

  const NOT_A_PIN: nat := 255
  const U32 := 0x1_0000_0000

  // ---- the search ----

  /** What the search settles on: the timer clock, the interrupts per toggle as a
      power of two, and the compare register. */
  datatype Setting = Setting(halfClock: bool, division: nat, ccmp: nat)

  /** The half period those settings realise, in CPU cycles. */
  function HalfPeriod(s: Setting): nat {
    (if s.halfClock then 2 else 1) * (s.ccmp + 1) * Pow2(s.division)
  }

  /** k halvings of c, as the shift computes them. */
  function Halved(c: nat, k: nat): (h: nat)
    ensures h <= c
  {
    if k == 0 then c else Halved(c, k - 1) / 2
  }

  lemma {:induction false} HalvedBounds(c: nat, k: nat)
    ensures Halved(c, k) * Pow2(k) <= c < (Halved(c, k) + 1) * Pow2(k)
  {
    if k > 0 {
      HalvedBounds(c, k - 1);
      HalveOnce(c, Halved(c, k - 1), Pow2(k - 1));
    }
  }

  lemma HalveOnce(c: nat, g: nat, p: nat)
    requires g * p <= c < (g + 1) * p
    ensures (g / 2) * (2 * p) <= c < (g / 2 + 1) * (2 * p)
  {
    var h := g / 2;
    assert h * (2 * p) == (2 * h) * p;
    assert (h + 1) * (2 * p) == (2 * h + 2) * p;
    if g == 2 * h + 1 { assert g * p == (2 * h) * p + p; } else { assert (2 * h + 2) * p == (g + 1) * p + p; }
  }

  /** What the best such setting means for a half period of c cycles: exact up to
      16 bits, then k halvings that each cost at most one part in 32768, and
      saturation beyond 2^23 cycles. */
  ghost predicate Fits(c: nat, s: Setting, k: nat) {
    && s.division <= 6 && s.ccmp <= 0xFFFF && k <= 7
    && (c < 0x10000 ==> k == 0 && HalfPeriod(s) == c)
    && (c / 128 <= 0x10000 ==> HalfPeriod(s) <= c < HalfPeriod(s) + Pow2(k))
    && (c / 128 > 0x10000 ==> HalfPeriod(s) == 0x80_0000 && s == Setting(true, 6, 0xFFFF))
    && (k >= 1 ==> Pow2(k) * 0x8000 <= c)
  }

  lemma Seven(c: nat)
    ensures Halved(c, 7) == c / 128
  {
    Powers();
    HalvedBounds(c, 7);
  }

  lemma Products(h: nat, p: nat, c: nat)
    requires h * (2 * p) <= c < (h + 1) * (2 * p) && 0x8000 <= h
    ensures 2 * h * p <= c < 2 * h * p + 2 * p && 2 * p * 0x8000 <= c
  {
    assert h * (2 * p) == 2 * h * p && (h + 1) * (2 * p) == h * (2 * p) + 2 * p;
    assert 0x8000 * (2 * p) <= h * (2 * p);
  }

  /** The loop stopped because the value fits. */
  lemma SettlesExactly(c: nat, k: nat)
    requires 1 <= k <= 7 && Halved(c, k - 1) > 0x10000 >= Halved(c, k)
    ensures Fits(c, Setting(true, k - 1, Halved(c, k) - 1), k)
  {
    var h := Halved(c, k);
    HalvedBounds(c, k);
    StillBig(c, k);
    Seven(c);
    Products(h, Pow2(k - 1), c);
    assert Pow2(k) == 2 * Pow2(k - 1);
    var s := Setting(true, k - 1, h - 1);
    assert HalfPeriod(s) == 2 * h * Pow2(k - 1);
    assert c / 128 <= 0x10000 && c > 0x10000;
    hide Halved, HalfPeriod, Pow2;
  }

  /** The loop stopped at the last division. */
  lemma SettlesSaturated(c: nat)
    requires Halved(c, 7) > 0x10000
    ensures Fits(c, Setting(true, 6, 0xFFFF), 7)
  {
    Seven(c);
    Powers();
    hide Halved;
  }

  lemma {:induction false} StillBig(c: nat, k: nat)
    requires k <= 7 && Halved(c, k) <= 0x10000
    ensures Halved(c, 7) <= 0x10000
    decreases 7 - k
  {
    if k < 7 { StillBig(c, k + 1); }
  }

  ghost predicate BestFit(c: nat, s: Setting) {
    exists k: nat :: Fits(c, s, k)
  }

  /** The search of tone(); c == 0x10000 would leave a shift by -1. */
  method Search(c: nat) returns (s: Setting)
    requires 1 <= c < U32 && c != 0x10000
    ensures BestFit(c, s) && s.division <= 6 && s.halfClock == (c >= 0x10000)
    ensures c < 0x10000 ==> s.division == 0 && s.ccmp + 1 == c
  {
    var compareVal, division, halfClock := c, 0, false;
    if compareVal >= 0x10000 {
      halfClock, division := true, -1;
    }
    ghost var k := 0;
    while compareVal > 0x10000 && division < 6
      invariant division <= 6 && (c < 0x10000 ==> k == 0 && division == 0)
      invariant c > 0x10000 ==> division == k - 1
      invariant compareVal == Halved(c, k)
      invariant k >= 1 ==> Halved(c, k - 1) > 0x10000
      decreases 6 - division
    {
      compareVal := compareVal / 2;
      division := division + 1;
      k := k + 1;
    }
    if c > 0x10000 {
      if compareVal <= 0x10000 { SettlesExactly(c, k); } else { SettlesSaturated(c); }
    }
    if compareVal - 1 > 0xFFFF {
      compareVal := 0xFFFF;
    } else {
      compareVal := compareVal - 1;
    }
    s := Setting(halfClock, division, compareVal);
    assert Fits(c, s, k);
  }

  /** With the documented clocks, no 16-bit frequency meets the compare value for
      which the search has no setting. */
  lemma EveryFrequencyHasASetting(fCpu: nat, frequency: word)
    requires fCpu in {12_000_000, 16_000_000, 20_000_000, 24_000_000} && frequency != 0
    ensures 1 <= fCpu / frequency / 2 < U32 && fCpu / frequency / 2 != 0x10000
  {
    var q := fCpu / frequency;
    var last := if fCpu == 12_000_000 then 91 else if fCpu == 16_000_000 then 122 else if fCpu == 20_000_000 then 152 else 183;
    assert q * frequency <= fCpu < (q + 1) * frequency;
    NoSuchQuotient(fCpu, frequency, q, last);
    TimesGrows(frequency, 65535, 2);
    TimesGrows(q + 1, 2, frequency);
  }

  lemma NoSuchQuotient(fCpu: nat, f: nat, q: nat, last: nat)
    requires q * f <= fCpu < (q + 1) * f && 131074 * last <= fCpu < 131072 * (last + 1)
    ensures q < 131072 || q > 131073
  {
    TimesGrows(f, last, 131074);
    TimesGrows(q + 1, 131074, f);
    TimesGrows(last + 1, f, 131072);
    TimesGrows(131072, q, f);
  }

  lemma TimesGrows(a: nat, b: nat, m: nat)
    ensures a <= b ==> a * m <= b * m && m * a <= m * b
  {
  }

  /** The toggle count of tone(), in 32-bit arithmetic. */
  function ToggleCount(frequency: word, duration: nat): (n: int) {
    if duration > 0 then (frequency * duration) % U32 / 500 else -1
  }

  /** A tone of d milliseconds has 2 * frequency * d / 1000 toggles, if and only if
      the product fits in 32 bits. */
  lemma ToggleCountIsExactIff(frequency: word, duration: nat)
    requires duration > 0
    ensures ToggleCount(frequency, duration) == frequency * duration / 500 <==> frequency * duration < U32
  {
    var x := frequency * duration;
    assert x % U32 <= x;
    if x >= U32 { assert x % U32 <= x - U32; }
  }

  /** 1 kHz for 5000 seconds should toggle ten million times. */
  lemma LongToneIsCutShort()
    ensures ToggleCount(1000, 5_000_000) == 1_410_065 < 1000 * 5_000_000 / 500
  {
  }

  /** What tone() ends up with for c: division and compare value are the search's,
      and so is the clock unless it was lost to the old tone's last interrupt. */
  ghost predicate Chosen(c: nat, halfClock: bool, d: nat, ccmp: nat, lost: bool) {
    && BestFit(c, Setting(c >= 0x10000, d, ccmp))
    && halfClock == (c >= 0x10000 && !lost)
    && (BestFit(c, Setting(halfClock, d, ccmp)) <==> !(c >= 0x10000 && lost))
  }

  /** The undivided clock in place of the halved one sounds an octave high. */
  lemma ClockMatters(c: nat, s: Setting)
    requires BestFit(c, s)
    ensures s.halfClock && c > 0x10000 ==> !BestFit(c, s.(halfClock := false))
    ensures s.halfClock ==> HalfPeriod(s) == 2 * HalfPeriod(s.(halfClock := false))
  {
    var w := s.(halfClock := false);
    if s.halfClock {
      Double((s.ccmp + 1), Pow2(s.division));
      if c > 0x10000 {
        forall k: nat ensures !Fits(c, w, k) { NoFit(c, s, k); }
      }
    }
  }

  lemma NoFit(c: nat, s: Setting, k: nat)
    requires s.halfClock && c > 0x10000 && BestFit(c, s)
    requires HalfPeriod(s) == 2 * HalfPeriod(s.(halfClock := false))
    ensures !Fits(c, s.(halfClock := false), k)
  {
    hide HalfPeriod;
    var k0: nat :| Fits(c, s, k0);
    assert k == 0 ==> Pow2(k) == 1;
  }

  // ---- the interrupt ----

  /** The shared variables: `driven` is the pin behind timer_outtgl_reg and
      timer_bit_mask, `high` the pins the tone code has left high, `toggles` how
      often it has toggled one. */
  datatype State = State(pin: byte, driven: byte, high: set<byte>, toggleCount: int,
                         perTgl: byte, count: byte, running: bool, toggles: nat)

  function Disabled(s: State): State {
    s.(running := false, pin := NOT_A_PIN, high := s.high - {s.driven})
  }

  function Toggled(s: State): State {
    s.(high := if s.driven in s.high then s.high - {s.driven} else s.high + {s.driven}, toggles := s.toggles + 1)
  }

  /** One timer interrupt; there is none once the timer is disabled. */
  function Tick(s: State): (t: State) {
    if !s.running then s
    else if s.count != 1 then s.(count := (s.count + 255) % 256)
    else
      var t := Toggled(s).(count := s.perTgl);
      if s.toggleCount > 0 then t.(toggleCount := s.toggleCount - 1)
      else if s.toggleCount == 0 then Disabled(t)
      else t
  }

  function Ticks(s: State, n: nat): State {
    if n == 0 then s else Tick(Ticks(s, n - 1))
  }

  /** A tone just started. */
  predicate Started(s: State) {
    s.running && 1 <= s.perTgl == s.count && s.toggleCount >= -1
  }

  /** After k toggles and r more interrupts, a started tone that has not ended. */
  function Playing(s: State, k: nat, r: nat): State
    requires r < s.perTgl
  {
    s.(high := if k % 2 == 0 then s.high else Toggled(s).high, toggles := s.toggles + k,
       toggleCount := if s.toggleCount < 0 then s.toggleCount else s.toggleCount - k, count := s.perTgl - r)
  }

  /** Where the run stands after j interrupts. */
  lemma {:induction false} RunStands(s: State, k: nat, r: nat, j: nat)
    requires Started(s) && r < s.perTgl && j == k * s.perTgl + r && (s.toggleCount >= 0 ==> k <= s.toggleCount)
    ensures Ticks(s, j) == Playing(s, k, r)
    decreases j
  {
    hide Tick, Playing;
    if j == 0 {
      NothingPlayed(s, k);
    } else if r > 0 {
      RunStands(s, k, r - 1, j - 1);
      PlayingTicks(s, k, r - 1);
    } else {
      assert k > 0 && j - 1 == (k - 1) * s.perTgl + (s.perTgl - 1) by { assert k * s.perTgl == (k - 1) * s.perTgl + s.perTgl; }
      RunStands(s, k - 1, s.perTgl - 1, j - 1);
      PlayingToggles(s, k - 1);
    }
  }

  lemma NothingPlayed(s: State, k: nat)
    requires Started(s) && k * s.perTgl == 0
    ensures k == 0 && Playing(s, 0, 0) == s
  {
    TimesGrows(1, k, s.perTgl);
  }

  lemma PlayingTicks(s: State, k: nat, r: nat)
    requires Started(s) && r + 1 < s.perTgl
    ensures Tick(Playing(s, k, r)) == Playing(s, k, r + 1)
  {
  }

  lemma PlayingToggles(s: State, k: nat)
    requires Started(s) && (s.toggleCount >= 0 ==> k < s.toggleCount)
    ensures Tick(Playing(s, k, s.perTgl - 1)) == Playing(s, k + 1, 0)
  {
    assert Toggled(Toggled(s)).high == s.high;
  }

  predicate Odd(n: nat) { n % 2 == 1 }

  /** While it sounds, where a started tone stands after j interrupts. */
  lemma StillPlaying(s: State, k: nat, r: nat, j: nat)
    requires Started(s) && r < s.perTgl && j == k * s.perTgl + r && Ticks(s, j).running
    ensures (s.toggleCount >= 0 ==> k <= s.toggleCount) && Ticks(s, j) == Playing(s, k, r)
  {
    hide Tick, Ticks, Playing;
    if s.toggleCount >= 0 && k > s.toggleCount {
      TimesGrows(s.toggleCount + 1, k, s.perTgl);
      OverBy(s, j);
    } else {
      RunStands(s, k, r, j);
    }
  }

  lemma OverBy(s: State, j: nat)
    requires Started(s) && s.toggleCount >= 0 && j >= (s.toggleCount + 1) * s.perTgl
    ensures !Ticks(s, j).running
  {
    hide Tick, Ticks;
    var end := (s.toggleCount + 1) * s.perTgl;
    CountedToneEnds(s);
    TicksAdd(s, end, j - end);
    StoppedForGood(Ticks(s, end), j - end);
  }

  lemma {:induction false} TicksAdd(s: State, m: nat, n: nat)
    ensures Ticks(s, m + n) == Ticks(Ticks(s, m), n)
  {
    if n > 0 { TicksAdd(s, m, n - 1); }
  }

  lemma PlayingLevel(s: State, k: nat, r: nat)
    requires r < s.perTgl
    ensures var t := Playing(s, k, r);
            t.toggles == s.toggles + k && (s.driven in t.high <==> (s.driven in s.high) != Odd(k))
            && t.high - {s.driven} == s.high - {s.driven}
  {
  }

  /** The pin moves with the tone: while it sounds, its level after j interrupts, that
      is k rounds of perTgl and r more, is the level at the start turned over once for
      every toggle ... */
  lemma LevelFollowsToggles(s: State, k: nat, r: nat, j: nat)
    requires Started(s) && r < s.perTgl && j == k * s.perTgl + r && Ticks(s, j).running
    ensures var t := Ticks(s, j);
      && t.toggles == s.toggles + k
      && (s.driven in t.high <==> (s.driven in s.high) != Odd(t.toggles - s.toggles))
      && t.high - {s.driven} == s.high - {s.driven}
  {
    hide Ticks, Playing;
    StillPlaying(s, k, r, j);
    PlayingLevel(s, k, r);
  }

  /** ... and it changes at the last interrupt of every round and at no other. */
  lemma EdgeIff(s: State, k: nat, r: nat, j: nat)
    requires Started(s) && r < s.perTgl && j == k * s.perTgl + r && Ticks(s, j + 1).running
    ensures ((s.driven in Ticks(s, j).high) != (s.driven in Ticks(s, j + 1).high)) <==> r + 1 == s.perTgl
  {
    assert Ticks(s, j).running;
    hide Tick, Ticks;
    LevelFollowsToggles(s, k, r, j);
    if r + 1 == s.perTgl {
      assert j + 1 == (k + 1) * s.perTgl + 0;
      LevelFollowsToggles(s, k + 1, 0, j + 1);
    } else {
      LevelFollowsToggles(s, k, r + 1, j + 1);
    }
  }

  lemma {:induction false} StoppedForGood(s: State, n: nat)
    requires !s.running
    ensures Ticks(s, n) == s
  {
    if n > 0 { StoppedForGood(s, n - 1); }
  }

  /** The interrupt that will end a counted tone. */
  predicate LastInterrupt(s: State) { s.running && s.count == 1 && s.toggleCount == 0 }

  /** A tone of count N makes exactly N + 1 toggles in (N + 1) * perTgl interrupts,
      not one fewer, and then is over with its pin low. */
  lemma CountedToneEnds(s: State)
    requires Started(s) && s.toggleCount >= 0
    ensures var n := s.toggleCount + 1;
            var e := Ticks(s, n * s.perTgl);
      && LastInterrupt(Ticks(s, n * s.perTgl - 1)) && Ticks(s, n * s.perTgl - 1).toggles == s.toggles + n - 1
      && e.toggles == s.toggles + n && !e.running && e.pin == NOT_A_PIN && e.high == s.high - {s.driven}
  {
    var n := s.toggleCount + 1;
    assert n * s.perTgl - 1 == s.toggleCount * s.perTgl + (s.perTgl - 1);
    RunStands(s, s.toggleCount, s.perTgl - 1, n * s.perTgl - 1);
  }

  /** 100 Hz at 24 MHz, asked for as an old tone ends: with the late interrupt the
      timer runs undivided and the new tone is 200 Hz. */
  lemma LateInterruptSoundsAnOctaveHigh(ccmp: nat, d: nat, halfClock: bool)
    requires Chosen(24_000_000 / 100 / 2, halfClock, d, ccmp, true)
    ensures HalfPeriod(Setting(halfClock, d, ccmp)) == 24_000_000 / 200 / 2
    ensures !BestFit(24_000_000 / 100 / 2, Setting(halfClock, d, ccmp))
  {
    var s := Setting(true, d, ccmp);
    ClockMatters(120_000, s);
    var k: nat :| Fits(120_000, s, k);
    assert Pow2(2) == 4;
    if k >= 2 { Pow2Grows(2, k); }
    hide Pow2, HalfPeriod;
  }

  /** A tone without duration never stops by itself. */
  lemma EndlessToneRuns(s: State, j: nat)
    requires Started(s) && s.toggleCount == -1
    ensures Ticks(s, j).running && Ticks(s, j).toggles == s.toggles + j / s.perTgl
  {
    RunStands(s, j / s.perTgl, j % s.perTgl, j);
  }

  function NoToneOf(s: State, pin: byte): State {
    if pin == s.pin then Disabled(s.(toggleCount := 0)) else s
  }

  /** noTone on the sounding pin, at any point of the run, ends it low for good;
      on any other pin it changes nothing. */
  lemma NoToneSilences(s: State, j: nat, pin: byte, later: nat)
    requires Started(s) && s.pin == s.driven != NOT_A_PIN && s.high <= {s.driven}
    ensures var now := Ticks(s, j);
            var t := Ticks(NoToneOf(now, pin), later);
            if pin == now.pin then !t.running && t.high == {} && t.toggles == now.toggles else t == Ticks(now, later)
  {
    PinsOf(s, j);
    if pin == Ticks(s, j).pin {
      StoppedForGood(NoToneOf(Ticks(s, j), pin), later);
    }
  }

  lemma {:induction false} PinsOf(s: State, j: nat)
    requires s.high <= {s.driven}
    ensures Ticks(s, j).high <= {s.driven} && Ticks(s, j).driven == s.driven
  {
    if j > 0 { PinsOf(s, j - 1); }
  }

  class ToneTimer {
    const fCpu: nat
    const pins: set<byte>             // those with a bit mask
    var pin: byte                     // _pin
    var driven: byte                  // timer_outtgl_reg and timer_bit_mask
    var toggleCount: int
    var perTgl: byte                  // timer_cycle_per_tgl
    var count: byte                   // timer_cycle_per_tgl_count
    var high: set<byte>               // the pins at a high level
    var outputs: set<byte>
    var halfClock: bool               // CTRLA.CLKSEL
    var enabled: bool                 // CTRLA.ENABLE
    var interrupts: bool              // INTCTRL.CAPT
    var ccmp: nat
    var cnt: nat
    ghost var toggles: nat

    ghost function Now(): State
      reads this
    {
      State(pin, driven, high, toggleCount, perTgl, count, interrupts, toggles)
    }

    /** The tone's variables agree with its interrupt: a pin is high only while it
        sounds. The timer may be stopped, as in the middle of tone(). */
    ghost predicate Consistent()
      reads this
    {
      && fCpu in {12_000_000, 16_000_000, 20_000_000, 24_000_000} && NOT_A_PIN !in pins
      && interrupts == (pin != NOT_A_PIN)
      && (interrupts ==> pin == driven && pin in outputs && 1 <= count <= perTgl && toggleCount >= -1)
      && high <= (if interrupts then {driven} else {})
    }

    ghost predicate Valid()
      reads this
    {
      Consistent() && enabled == interrupts
    }

    constructor (fCpu: nat, pins: set<byte>)
      requires fCpu in {12_000_000, 16_000_000, 20_000_000, 24_000_000} && NOT_A_PIN !in pins
      ensures Valid() && !enabled && high == {} && this.pins == pins
    {
      this.fCpu, this.pins := fCpu, pins;
      pin, driven, toggleCount, perTgl, count := NOT_A_PIN, NOT_A_PIN, 0, 0, 0;
      high, outputs, halfClock, enabled, interrupts, ccmp, cnt := {}, {}, false, false, false, 0, 0;
      toggles := 0;
    }

    /** disableTimer: the pin ends low. */
    method DisableTimer()
      modifies this`enabled, this`halfClock, this`interrupts, this`pin, this`high
      ensures Now() == Disabled(old(Now())) && !enabled && !interrupts && !halfClock
    {
      enabled, halfClock, interrupts := false, false, false;
      pin := NOT_A_PIN;
      high := high - {driven};
    }

    /** The TCB interrupt. If it ends the tone it also takes the timer's clock
        selection with it. */
    method TimerInterrupt()
      requires Consistent() && interrupts
      modifies this`enabled, this`halfClock, this`interrupts, this`pin, this`high, this`count, this`toggleCount, `toggles
      ensures Consistent() && Now() == Tick(old(Now()))
      ensures enabled == (old(enabled) && interrupts) && halfClock == (old(halfClock) && interrupts)
    {
      count := (count + 255) % 256;
      if count == 0 {
        count := perTgl;
        high := if driven in high then high - {driven} else high + {driven};
        toggles := toggles + 1;
        if toggleCount > 0 {
          toggleCount := toggleCount - 1;
        } else if toggleCount == 0 {
          DisableTimer();
        }
      }
    }

    /** noTone, whose body runs with interrupts off. */
    method NoTone(pin: byte)
      requires Valid()
      modifies this
      ensures Valid() && Now() == NoToneOf(old(Now()), pin)
    {
      if pin == this.pin {
        toggleCount := 0;
        this.pin := NOT_A_PIN;
        DisableTimer();
      }
    }

    /** tone's change of pins: the old one is left low, the new one starts low. */
    method TakePin(pin: byte)
      modifies this`driven, this`high, this`outputs
      ensures if pin == this.pin then unchanged(this) else driven == pin && outputs == old(outputs) + {pin}
      ensures this.pin != pin ==> high == old(high) - {pin} - if this.pin != NOT_A_PIN then {old(driven)} else {}
    {
      if this.pin != pin {
        if this.pin != NOT_A_PIN { high := high - {driven}; }
        driven := pin;
        high := high - {pin};
        outputs := outputs + {pin};
      }
    }

    /** The second half of tone: the variables, and the timer with the clock it has. */
    method Start(pin: byte, toggleCount: int, division: nat, ccmp: nat)
      requires toggleCount >= -1 && division <= 6
      modifies this
      ensures Started(Now()) && this.pin == pin && this.toggleCount == toggleCount && perTgl == Pow2(division)
      ensures halfClock == old(halfClock) && this.ccmp == ccmp && cnt == 0 && enabled && toggles == old(toggles)
      ensures driven == (if pin == old(this.pin) then old(driven) else pin)
      ensures outputs == if pin == old(this.pin) then old(outputs) else old(outputs) + {pin}
      ensures high == if pin == old(this.pin) then old(high)
                      else old(high) - {pin} - if old(this.pin) != NOT_A_PIN then {old(driven)} else {}
    {
      Powers();
      Pow2Grows(division, 6);
      hide Pow2;
      TakePin(pin);
      this.toggleCount := toggleCount;
      perTgl := Pow2(division);
      count := perTgl;
      this.ccmp, cnt := ccmp, 0;
      this.pin := pin;
      interrupts := true;
      enabled := true;
    }

    /** tone: silence for frequency 0, nothing for a pin without a bit mask, and
        otherwise a started tone. Stopping the timer selects its clock; an interrupt
        raised by then (`late`) is served just after. The half period fits the
        frequency if and only if that interrupt does not end the old tone while the
        new one needs the halved clock. */
    method Play(pin: byte, frequency: word, duration: nat, late: bool)
      requires Valid() && duration < U32
      modifies this
      ensures Valid()
      ensures frequency == 0 ==> Now() == NoToneOf(old(Now()), pin)
      ensures frequency != 0 && pin !in pins ==> Now() == old(Now())
      ensures frequency != 0 && pin in pins && duration == 0 ==> toggleCount == -1
      ensures frequency != 0 && pin in pins ==>
        var was := if late then Tick(old(Now())) else old(Now());
        && Started(Now()) && this.pin == pin && toggleCount == ToggleCount(frequency, duration) && cnt == 0
        && high == (if pin == was.pin then was.high else {}) && toggles == was.toggles
      ensures frequency != 0 && pin in pins && fCpu / frequency / 2 < 0x10000 ==>
        !halfClock && perTgl == 1 && ccmp + 1 == fCpu / frequency / 2
      ensures frequency != 0 && pin in pins ==>
        var c, lost := fCpu / frequency / 2, late && LastInterrupt(old(Now()));
        exists d | 0 <= d <= 6 :: perTgl == Pow2(d) && Chosen(c, halfClock, d, ccmp, lost)
    {
      if frequency == 0 {
        NoTone(pin);
        return;
      }
      if pin !in pins { return; }
      var toggleCount := if duration > 0 then (frequency * duration) % U32 / 500 else -1;
      var compareVal := fCpu / frequency / 2;
      EveryFrequencyHasASetting(fCpu, frequency);
      enabled, halfClock := false, compareVal >= 0x10000;
      if late && interrupts { TimerInterrupt(); }
      var s := Search(compareVal);
      ClockMatters(compareVal, s);
      assert Pow2(0) == 1;
      hide BestFit, Pow2;
      Start(pin, toggleCount, s.division, s.ccmp);
    }
  }
}
