/** Milliseconds and ticks: what the clock has to do with the ticks of the manager. */
module TimerTime {
  import opened TimerSpec

  const S31 := 0x8000_0000
  const U32 := 0x1_0000_0000

  // ----- delays and intervals

  /** A delay of no time is no tick, one of less than a tick is one, and any other is cut down to whole ticks. */
  lemma DelayInTicks(delay: int, n: int)
    requires delay >= 0
    ensures delay == 0 ==> DelayTicks(delay) == 0
    ensures 0 < delay < 10 ==> DelayTicks(delay) == 1
    ensures 10 <= delay ==> (DelayTicks(delay) == n <==> 10 * n <= delay < 10 * (n + 1))
  {
  }

  /** An interval of less than a tick is one, and any other is cut down to whole ticks. */
  lemma IntervalInTicks(interval: int, n: int)
    requires interval > 0
    ensures interval < 10 ==> IntervalTicks(interval) == 1
    ensures 10 <= interval ==> (IntervalTicks(interval) == n <==> 10 * n <= interval < 10 * (n + 1))
  {
  }

  /** What may be started: delays and intervals of less than 2^32 ticks, which is 497 days. */
  lemma StartableRange(delay: int, interval: int)
    ensures Startable(delay, interval) <==> 0 <= delay < 42949672960 && 0 < interval < 42949672960
  {
  }

  // ----- the clock

  /** What a cast to 32 bits with sign keeps. */
  function Cut32(n: int): (e: int)
    ensures -S31 <= e < S31 && (n - e) % U32 == 0
    ensures -S31 <= n < S31 ==> e == n
  {
    (n + S31) % U32 - S31
  }

  /** The time since the last update, cut down to 32 bits and counted in whole ticks, rounding to zero. */
  function ElapsedTicks(last: int, tick: int): int {
    var elapsed := Cut32(tick - last);
    if elapsed >= 0 then elapsed / JIFFIES_INTERVAL else -(-elapsed / JIFFIES_INTERVAL)
  }

  /** What an update at the time `tick` makes of the time up to which ticks are counted, and of their number: it
      counts on to less than a tick before the present. If the clock went back it counts nothing and goes back too,
      to less than a tick after the present. */
  ghost predicate ClockStep(last: int, ticks: int, tick: int, last': int, ticks': int) {
    && (0 <= tick - last < 0x8000_0000 ==>
         last' <= tick < last' + 10 && (ticks' - ticks) * 10 == last' - last)
    && (-0x8000_0000 <= tick - last < 0 ==>
         tick <= last' < tick + 10 && ticks' == ticks && (last - last') % 10 == 0)
  }

  /** So does the code; of a longer time it sees what a cast to 32 bits keeps. */
  lemma UpdateClock(last: int, ticks: int, tick: int)
    ensures var n := ElapsedTicks(last, tick);
      var last', ticks' := last + n * JIFFIES_INTERVAL, ticks + if n < 0 then 0 else n;
      && ClockStep(last, ticks, tick, last', ticks')
      && ClockStep(last, ticks, last + Cut32(tick - last), last', ticks')
  {
  }

  // ----- any number of updates

  /** Updates at the times `clocks`, one after the other. */
  ghost predicate ClockRun(clocks: seq<int>, lasts: seq<int>, ticks: seq<int>) {
    && |lasts| == |ticks| == |clocks| + 1
    && forall i :: 0 <= i < |clocks| ==> ClockStep(lasts[i], ticks[i], clocks[i], lasts[i + 1], ticks[i + 1])
  }

  /** The clock starts at or after `last`, does not go back, and no update comes later than 2^31 - 10 milliseconds
      after the one before. */
  ghost predicate Steadily(clocks: seq<int>, last: int) {
    && (clocks != [] ==> 0 <= clocks[0] - last < 0x7FFF_FFF6)
    && forall i :: 0 <= i < |clocks| - 1 ==> 0 <= clocks[i + 1] - clocks[i] < 0x7FFF_FFF6
  }

  /** However often updates come, no time is lost and none is counted twice. */
  lemma {:induction false} NoTimeLost(clocks: seq<int>, lasts: seq<int>, ticks: seq<int>, n: nat)
    requires ClockRun(clocks, lasts, ticks) && n <= |clocks| && Steadily(clocks, lasts[0])
    ensures (ticks[n] - ticks[0]) * 10 == lasts[n] - lasts[0]
    ensures n > 0 ==>
      lasts[n] <= clocks[n - 1] < lasts[n] + 10 && ticks[n] - ticks[0] == (clocks[n - 1] - lasts[0]) / 10
    decreases n
  {
    if n > 0 {
      NoTimeLost(clocks, lasts, ticks, n - 1);
      assert ClockStep(lasts[n - 1], ticks[n - 1], clocks[n - 1], lasts[n], ticks[n]);
      if n > 1 { assert 0 <= clocks[n - 2 + 1] - clocks[n - 2] < 0x7FFF_FFF6; }
    }
  }

  /** A clock that is set back is counted twice: what it went back by in whole ticks comes again. */
  lemma SetBack(clocks: seq<int>, lasts: seq<int>, ticks: seq<int>)
    requires ClockRun(clocks, lasts, ticks) && |clocks| == 2
    requires -0x7FFF_FFF6 < clocks[0] - lasts[0] < 0 && 0 <= clocks[1] - lasts[1] < 0x7FFF_FFF6
    ensures (ticks[2] - ticks[0]) * 10 == (lasts[2] - lasts[0]) + (lasts[0] - lasts[1])
    ensures ticks[2] - ticks[0] == (clocks[1] - lasts[0]) / 10 + (lasts[0] - lasts[1]) / 10
  {
    assert ClockStep(lasts[0], ticks[0], clocks[0], lasts[1], ticks[1]);
    assert ClockStep(lasts[1], ticks[1], clocks[1], lasts[1 + 1], ticks[1 + 1]);
  }
}
