/**
  A value paired with a stopwatch (src/timedvalue.h). The stopwatch is modelled by
  `stamp`, the instant of the last assignment on a monotonic clock whose reading
  is passed in as `now`.
 */
module Timed {

  class TimedValue<T> {
    var value: T
    /** When the stopwatch was last started: at construction or at the last assignment. */
    var stamp: nat
    /** Every value assigned since construction, oldest first. */
    ghost var history: seq<T>

    /** Stores the initial value and starts the stopwatch. */
    constructor (value: T, now: nat)
      ensures this.value == value && stamp == now && history == []
      ensures Elapsed(now) == 0
    {
      this.value := value;
      stamp := now;
      history := [];
    }

    /** Replaces the value and restarts the stopwatch; returns the new value. */
    method Assign(v: T, now: nat) returns (r: T)
      requires stamp <= now
      modifies this
      ensures value == v && r == v
      ensures stamp == now && Elapsed(now) == 0
      ensures history == old(history) + [v]
    {
      stamp := now;
      history := history + [v];
      value := v;
      r := value;
    }

    /** The implicit read: the stored value; being a function it touches neither value nor stopwatch. */
    function Get(): (v: T)
      reads this
      ensures v == value
    {
      value
    }

    /** Time since the last assignment, or since construction if there was none. */
    function Elapsed(now: nat): (d: nat)
      reads this
      requires stamp <= now
      ensures stamp + d == now
    {
      now - stamp
    }
  }
}
