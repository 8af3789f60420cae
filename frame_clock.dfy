/** The frame clock of `gameLoop` (src/main.cpp:425-429, 443-449): the loop
    polls as fast as it can, and the simulation advances only when a whole
    tick interval has passed since the last advance. Times are integer
    milliseconds of a monotonic clock. */
module FrameClock {

  /** The shortest tick interval. */
  const MinInterval := 20

  /** The tick interval for a difficulty level: 120 ms less 20 ms per level,
      but never below the minimum. */
  function TickInterval(level: int): (ms: int)
    ensures ms >= MinInterval && ms >= 120 - 20 * level
    ensures ms == MinInterval || ms == 120 - 20 * level
  {
    var ms := 120 - level * 20;
    if ms < MinInterval then MinInterval else ms
  }

  /** The five levels the game offers run at 100, 80, 60, 40 and 20 ms. */
  lemma IntervalByLevel()
    ensures TickInterval(1) == 100 && TickInterval(2) == 80 && TickInterval(3) == 60
    ensures TickInterval(4) == 40 && TickInterval(5) == 20
  {
  }

  /** A higher level never ticks more slowly. */
  lemma IntervalNonIncreasing(a: int, b: int)
    requires a <= b
    ensures TickInterval(b) <= TickInterval(a)
  {
  }

  /** The simulation advances when at least `interval` ms have passed since
      the reference time `last`. */
  predicate ShouldAdvance(last: int, now: int, interval: int)
  {
    now - last >= interval
  }

  /** The reference time after a poll at `now`: reset to `now` exactly when
      the simulation advanced. */
  function NextReference(last: int, now: int, interval: int): (r: int)
    ensures r == now || r == last
    ensures r == now <== ShouldAdvance(last, now, interval)
    ensures r == last <== !ShouldAdvance(last, now, interval)
  {
    if ShouldAdvance(last, now, interval) then now else last
  }

  /** The reference time after polls at each of `times` in turn. */
  function ClockAfter(last: int, interval: int, times: seq<int>): int
    decreases |times|
  {
    if times == [] then last
    else NextReference(ClockAfter(last, interval, times[..|times| - 1]), times[|times| - 1], interval)
  }

  /** The poll times at which the simulation advanced. */
  function TickTimes(last: int, interval: int, times: seq<int>): seq<int>
    decreases |times|
  {
    if times == [] then []
    else
      var earlier := times[..|times| - 1];
      var now := times[|times| - 1];
      TickTimes(last, interval, earlier)
        + (if ShouldAdvance(ClockAfter(last, interval, earlier), now, interval) then [now] else [])
  }

  /** The reference time is always the time of the last tick, or the start
      time before the first. */
  lemma {:induction false} ClockIsLastTick(last: int, interval: int, times: seq<int>)
    ensures var ticks := TickTimes(last, interval, times);
            ClockAfter(last, interval, times) == if ticks == [] then last else ticks[|ticks| - 1]
    decreases |times|
  {
    if times != [] {
      ClockIsLastTick(last, interval, times[..|times| - 1]);
    }
  }

  /** Ticks happen only at poll times, the first one at least an interval after
      the start and each later one at least an interval after the one before:
      the simulation never advances twice within one interval, however often
      the loop polls. */
  lemma {:induction false} TicksAreSpaced(last: int, interval: int, times: seq<int>)
    ensures var ticks := TickTimes(last, interval, times);
            (forall t :: t in ticks ==> t in times) &&
            (ticks != [] ==> ticks[0] - last >= interval) &&
            (forall i :: 0 <= i < |ticks| - 1 ==> ticks[i + 1] - ticks[i] >= interval)
    decreases |times|
  {
    if times != [] {
      var earlier := times[..|times| - 1];
      var now := times[|times| - 1];
      TicksAreSpaced(last, interval, earlier);
      ClockIsLastTick(last, interval, earlier);
      var before := TickTimes(last, interval, earlier);
      var ticks := TickTimes(last, interval, times);
      assert forall t :: t in earlier ==> t in times;
      if ShouldAdvance(ClockAfter(last, interval, earlier), now, interval) {
        assert ticks == before + [now];
        forall i | 0 <= i < |ticks| - 1 ensures ticks[i + 1] - ticks[i] >= interval {
          if i < |before| - 1 {
            assert ticks[i] == before[i] && ticks[i + 1] == before[i + 1];
          }
        }
      } else {
        assert ticks == before;
      }
    }
  }
}
