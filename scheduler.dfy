/**
 * The timing of `TaskScheduler.run` in tvfamily/core.py: after each round of tasks the next
 * execution time moves on by exactly one interval from the previous one, not from the time
 * the round ended, and the scheduler sleeps until then. Times are whole clock units (the
 * `datetime` resolution); the clock readings are inputs.
 */
module Scheduling {

  /** The next execution time after `k` rounds that started from `start`. */
  function Scheduled(start: int, interval: int, k: nat): int
  {
    start + k * interval
  }

  /** The next execution time after the rounds, one interval per round. */
  function NextAfter(next: int, interval: int, rounds: nat): int
    decreases rounds
  {
    if rounds == 0 then next else NextAfter(next + interval, interval, rounds - 1)
  }

  /** The sleep after each round: the new next execution time less the clock at the end of the round. */
  function Sleeps(next: int, interval: int, nows: seq<int>): (r: seq<int>)
    ensures |r| == |nows|
    decreases |nows|
  {
    if nows == [] then [] else [next + interval - nows[0]] + Sleeps(next + interval, interval, nows[1..])
  }

  /** No drift: after `k` rounds the next execution is `k` intervals after the start, however long the rounds took. */
  lemma {:induction false} NoDrift(next: int, interval: int, rounds: nat)
    ensures NextAfter(next, interval, rounds) == Scheduled(next, interval, rounds)
    decreases rounds
  {
    if rounds > 0 {
      NoDrift(next + interval, interval, rounds - 1);
    }
  }

  /**
   * Each round's sleep ends at its scheduled time: the clock reading plus the sleep is the
   * start plus one more interval than rounds before it. A negative sleep (an overrun round)
   * means the next round is already due.
   */
  lemma {:induction false} SleepsReachSchedule(next: int, interval: int, nows: seq<int>)
    ensures forall k :: 0 <= k < |nows| ==> nows[k] + Sleeps(next, interval, nows)[k] == Scheduled(next, interval, k + 1)
    ensures forall k :: 0 <= k < |nows| ==> (Sleeps(next, interval, nows)[k] < 0 <==> nows[k] > Scheduled(next, interval, k + 1))
    decreases |nows|
  {
    if nows != [] {
      SleepsReachSchedule(next + interval, interval, nows[1..]);
      var r := Sleeps(next, interval, nows);
      forall k | 0 < k < |nows|
        ensures nows[k] + r[k] == Scheduled(next, interval, k + 1)
      {
        assert nows[k] == nows[1..][k - 1] && r[k] == Sleeps(next + interval, interval, nows[1..])[k - 1];
        assert Scheduled(next + interval, interval, k) == Scheduled(next, interval, k + 1) by {
          assert (k + 1) * interval == k * interval + interval;
        }
      }
    }
  }

  /** The scheduler object: the interval and the next execution time it advances. */
  class TaskScheduler {
    const interval: int
    var nextExecution: int

    /** `__init__`: the first execution is now. */
    constructor(interval: int, now: int)
      ensures this.interval == interval && nextExecution == now
    {
      this.interval := interval;
      nextExecution := now;
    }

    /** The end of one round of `run`: advance by one interval and return how long to sleep. */
    method Tick(now: int) returns (sleep: int)
      modifies this
      ensures nextExecution == old(nextExecution) + interval
      ensures sleep == nextExecution - now
    {
      nextExecution := nextExecution + interval;
      sleep := nextExecution - now;
    }

    /** `run` for as many rounds as there are clock readings, one reading at the end of each round. */
    method Run(nows: seq<int>) returns (sleeps: seq<int>)
      modifies this
      ensures nextExecution == NextAfter(old(nextExecution), interval, |nows|)
      ensures sleeps == Sleeps(old(nextExecution), interval, nows)
    {
      sleeps := [];
      var i := 0;
      while i < |nows|
        invariant 0 <= i <= |nows|
        invariant NextAfter(old(nextExecution), interval, |nows|) == NextAfter(nextExecution, interval, |nows| - i)
        invariant Sleeps(old(nextExecution), interval, nows) == sleeps + Sleeps(nextExecution, interval, nows[i..])
      {
        assert nows[i..][0] == nows[i] && nows[i..][1..] == nows[i + 1..];
        var sleep := Tick(nows[i]);
        sleeps := sleeps + [sleep];
        i := i + 1;
      }
    }
  }
}
