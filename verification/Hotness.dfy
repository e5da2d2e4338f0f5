/** Hotness levels and lazy cooling.

    A page carries one access counter per tier and the value each cooling clock had
    when the counter was last brought up to date.  A cooling request only advances a
    process clock; whoever needs the counter shifts it right by the number of ticks
    it has missed.  The hotness level is the bit length of the summed counters,
    clamped to the last level. */
module Hotness {
  import opened Arithmetic

  /** COLD, HOT1, ..., HOT11. */
  const NUM_HOTNESS_LEVELS: nat := 12
  const COLD: nat := 0
  const WORD: nat := 0x1_0000_0000_0000_0000

  /** 64 - clz(num) for a non-zero word, 0 for zero. */
  function BitLength(num: nat): nat {
    if num == 0 then 0 else 1 + BitLength(num / 2)
  }

  /** The level of a counter value. */
  function LevelOf(num: nat): (level: nat)
    ensures level < NUM_HOTNESS_LEVELS
  {
    var ret := BitLength(num);
    if ret > NUM_HOTNESS_LEVELS - 1 then NUM_HOTNESS_LEVELS - 1 else ret
  }

  /** access_to_index.  `period` is the PEBS sample period when device telemetry is
      compiled in and 1 otherwise; the sum is taken in 64 bits. */
  function AccessToIndex(dram: nat, cxl: nat, period: nat): (level: nat)
    requires period >= 1
    ensures level < NUM_HOTNESS_LEVELS
  {
    LevelOf((dram + cxl / period) % WORD)
  }

  /** The counter a page would have if it were up to date with cooling. */
  function Cooled(accesses: nat, lag: nat): nat {
    DivMod(accesses, Pow2(lag));
    accesses / Pow2(lag)
  }

  /** Halving the counter at every one of `ticks` ticks. */
  function HalvedEachTick(accesses: nat, ticks: nat): nat {
    if ticks == 0 then accesses else HalvedEachTick(accesses / 2, ticks - 1)
  }

  // ---------------------------------------------------------------------------
  // Arithmetic of levels

  /** A value has bit length at most k exactly when it is below 2^k. */
  lemma {:induction false} BitLengthBound(num: nat, k: nat)
    ensures BitLength(num) <= k <==> num < Pow2(k)
  {
    if num > 0 && k > 0 { BitLengthBound(num / 2, k - 1); }
  }

  /** A level at most k, for k below the last level, means a value below 2^k. */
  lemma LevelBound(num: nat, k: nat)
    requires k < NUM_HOTNESS_LEVELS - 1
    ensures LevelOf(num) <= k <==> num < Pow2(k)
  {
    BitLengthBound(num, k);
  }

  lemma LevelMonotone(a: nat, b: nat)
    requires a <= b
    ensures LevelOf(a) <= LevelOf(b)
  {
    BitLengthBound(b, BitLength(b));
    BitLengthBound(a, BitLength(b));
  }

  lemma TopLevel(num: nat)
    ensures LevelOf(num) == NUM_HOTNESS_LEVELS - 1 <==> num >= 1024
  {
    LevelBound(num, NUM_HOTNESS_LEVELS - 2);
    assert Pow2(10) == 1024 by { assert Pow2(5) == 32; assert Pow2(8) == 256; }
  }

  /** Level 0 is no access at all, level k from 1 to 10 is 2^(k-1) to 2^k - 1 accesses, and level
      11 is 1024 or more, of the sum in 64 bits. */
  lemma AccessLevel(dram: nat, cxl: nat, period: nat, k: nat)
    requires period >= 1
    ensures var sum := (dram + cxl / period) % 0x1_0000_0000_0000_0000; var level := AccessToIndex(dram, cxl, period);
      && (level == 0 <==> sum == 0)
      && (1 <= k <= 10 ==> (level == k <==> Pow2(k - 1) <= sum < Pow2(k)))
      && (level == 11 <==> sum >= 1024)
  {
    var sum := (dram + cxl / period) % WORD;
    TopLevel(sum);
    LevelBound(sum, 0);
    if 1 <= k <= 10 {
      LevelBound(sum, k - 1);
      LevelBound(sum, k);
    }
  }

  // ---------------------------------------------------------------------------
  // Lazy cooling equals eager cooling

  /** One shift by the clock difference is the same as one halving per tick. */
  lemma {:induction false} LazyCoolingIsEager(accesses: nat, ticks: nat)
    ensures Cooled(accesses, ticks) == HalvedEachTick(accesses, ticks)
  {
    if ticks > 0 {
      LazyCoolingIsEager(accesses / 2, ticks - 1);
      DivDiv(accesses, 2, Pow2(ticks - 1));
    }
  }

  lemma CooledTwice(accesses: nat, a: nat, b: nat)
    ensures Cooled(Cooled(accesses, a), b) == Cooled(accesses, a + b)
    decreases a
  {
    if a == 0 {
      assert Cooled(accesses, 0) == accesses;
    } else {
      DivDiv(accesses, 2, Pow2(a - 1));
      DivDiv(accesses, 2, Pow2(a + b - 1));
      CooledTwice(accesses / 2, a - 1, b);
    }
  }

  // ---------------------------------------------------------------------------
  // One tick of both clocks

  /** Halving both counters, each rounded down, loses at most one from half the sum. */
  lemma HalvedSum(a: nat, b: nat)
    ensures a / 2 + b / 2 <= (a + b) / 2 <= a / 2 + b / 2 + 1
  {}

  lemma LevelDropsAtMostTwo(s: nat, h: nat)
    requires s / 2 <= h + 1
    ensures LevelOf(s) <= LevelOf(h) + 2
  {
    var k := LevelOf(h);
    if k + 2 < NUM_HOTNESS_LEVELS - 1 {
      LevelBound(h, k);
      LevelBound(s, k + 2);
      assert Pow2(k + 2) == 4 * Pow2(k) by { assert Pow2(k + 2) == 2 * Pow2(k + 1); }
    }
  }

  lemma HalvingCommutesWithPeriod(cxl: nat, period: nat)
    requires period >= 1
    ensures cxl / 2 / period == cxl / period / 2
    ensures cxl / period <= cxl
  {
    DivDiv(cxl, 2, period);
    DivDiv(cxl, period, 2);
    DivAtMost(cxl, period);
  }

  lemma WrappedOnce(s: nat)
    requires s < 2 * WORD
    ensures s % WORD == if s < WORD then s else s - WORD
  {}

  lemma TickOfSum(a: nat, b: nat)
    requires a < WORD && b < WORD
    ensures LevelOf((a / 2 + b / 2) % WORD) > LevelOf((a + b) % WORD) <==> WORD <= a + b < WORD + 1024
    ensures LevelOf((a + b) % WORD) <= LevelOf((a / 2 + b / 2) % WORD) + 2
  {
    HalvedSum(a, b);
    var s, h := a + b, a / 2 + b / 2;
    WrappedOnce(h);
    WrappedOnce(s);
    if s < WORD {
      LevelMonotone(h, s);
      LevelDropsAtMostTwo(s, h);
    } else {
      TopLevel(h);
      TopLevel(s - WORD);
    }
  }

  /** What one tick of both clocks does to a page's level.  The level rises exactly
      when the 64-bit sum had wrapped around to a value below the last level's
      threshold; otherwise it stays or falls, and it never falls by more than two. */
  lemma TickOfBothClocks(dram: nat, cxl: nat, period: nat)
    requires dram < WORD && cxl < WORD && period >= 1
    ensures AccessToIndex(dram / 2, cxl / 2, period) > AccessToIndex(dram, cxl, period)
            <==> WORD <= dram + cxl / period < WORD + 1024
    ensures AccessToIndex(dram, cxl, period) <= AccessToIndex(dram / 2, cxl / 2, period) + 2
  {
    HalvingCommutesWithPeriod(cxl, period);
    TickOfSum(dram, cxl / period);
  }

  lemma DivAtMost(x: nat, d: nat)
    requires d >= 1
    ensures x / d <= x
  {
    assert x == d * (x / d) + x % d;
    var q := x / d;
    assert d * q == q + (d - 1) * q;
  }

  /** The wrap-around is real: both counters at 2^63 give level 0, and one tick
      gives the hottest level. */
  lemma WrapRaisesLevel()
    ensures AccessToIndex(WORD / 2, WORD / 2, 1) == COLD
    ensures AccessToIndex(WORD / 4, WORD / 4, 1) == NUM_HOTNESS_LEVELS - 1
  {
    TopLevel(WORD / 2);
  }

  // ---------------------------------------------------------------------------
  // Whole runs of ticks and samples

  /** A tick advances the process clock; a sample increments the page's counter and
      only then brings it up to date with the clock. */
  datatype Event = Tick | Sample

  datatype Counter = Counter(accesses: nat, lag: nat)

  function LazyStep(c: Counter, e: Event): Counter {
    match e
    case Tick => Counter(c.accesses, c.lag + 1)
    case Sample => Counter(Cooled(c.accesses + 1, c.lag), 0)
  }

  function EagerStep(v: nat, e: Event): nat {
    match e
    case Tick => v / 2
    case Sample => v + 1
  }

  function LazyRun(c: Counter, run: seq<Event>): Counter {
    if run == [] then c else LazyStep(LazyRun(c, run[..|run| - 1]), run[|run| - 1])
  }

  function EagerRun(v: nat, run: seq<Event>): nat {
    if run == [] then v else EagerStep(EagerRun(v, run[..|run| - 1]), run[|run| - 1])
  }

  function Effective(c: Counter): nat { Cooled(c.accesses, c.lag) }

  /** Adding one before the shift counts for one after it exactly when the sum is a
      multiple of the shift, and for nothing otherwise. */
  lemma SampleWhileStale(accesses: nat, lag: nat)
    ensures Cooled(accesses + 1, lag) == Cooled(accesses, lag) + 1
            <==> (accesses + 1) % Pow2(lag) == 0
    ensures (accesses + 1) % Pow2(lag) != 0 ==> Cooled(accesses + 1, lag) == Cooled(accesses, lag)
  {
    var d := Pow2(lag);
    DivMod(accesses, d);
    var q: nat, r: nat := accesses / d, accesses % d;
    if r + 1 == d {
      assert accesses + 1 == d * (q + 1) + 0 by { assert d * (q + 1) == d * q + d; }
      QuotientIs(accesses + 1, d, q + 1, 0);
    } else {
      QuotientIs(accesses + 1, d, q, r + 1);
    }
  }

  /** The step that decides whether lazy and eager cooling stay equal: a sample is
      lost exactly when the page lags and the incremented counter does not divide. */
  lemma SampleIsLostExactlyWhen(c: Counter)
    ensures Effective(LazyStep(c, Sample)) == EagerStep(Effective(c), Sample)
            <==> (c.accesses + 1) % Pow2(c.lag) == 0
  {
    SampleWhileStale(c.accesses, c.lag);
    assert Pow2(0) == 1;
  }

  lemma TickHalves(c: Counter)
    ensures Effective(LazyStep(c, Tick)) == Effective(c) / 2
  {
    CooledTwice(c.accesses, c.lag, 1);
    assert Pow2(1) == 2;
  }

  lemma SampleAddsAtMostOne(c: Counter)
    ensures Effective(LazyStep(c, Sample)) <= Effective(c) + 1
  {
    SampleWhileStale(c.accesses, c.lag);
    assert Pow2(0) == 1;
  }

  /** Over any run the lazily cooled counter never exceeds the eagerly cooled one. */
  lemma {:induction false} LazyNeverExceedsEager(c: Counter, run: seq<Event>)
    ensures Effective(LazyRun(c, run)) <= EagerRun(Effective(c), run)
  {
    if run != [] {
      var prefix, e := run[..|run| - 1], run[|run| - 1];
      LazyNeverExceedsEager(c, prefix);
      var before := LazyRun(c, prefix);
      TickHalves(before);
      SampleAddsAtMostOne(before);
    }
  }

  /** Every sample of the run finds the page up to date or hits a multiple. */
  ghost predicate NoSampleLost(c: Counter, run: seq<Event>) {
    forall i | 0 <= i < |run| && run[i] == Sample ::
      var before := LazyRun(c, run[..i]);
      (before.accesses + 1) % Pow2(before.lag) == 0
  }

  /** Runs that lose no sample cool lazily exactly as they would eagerly. */
  lemma {:induction false} LazyRunIsEager(c: Counter, run: seq<Event>)
    requires NoSampleLost(c, run)
    ensures Effective(LazyRun(c, run)) == EagerRun(Effective(c), run)
  {
    if run != [] {
      var prefix, e := run[..|run| - 1], run[|run| - 1];
      assert forall i | 0 <= i < |prefix| :: prefix[..i] == run[..i];
      LazyRunIsEager(c, prefix);
      var before := LazyRun(c, prefix);
      if e == Tick {
        TickHalves(before);
      } else {
        assert run[..|run| - 1] == prefix;
        SampleIsLostExactlyWhen(before);
      }
    }
  }
}
