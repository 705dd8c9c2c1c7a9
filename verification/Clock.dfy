/** The clocks of the daemon (clock.hpp). */
module Clocks {
  import opened Types

  /** The steady clock and the wall clock; the steady one never runs backwards. The wall
      clock may, and `wallReadings` are its readings so far. */
  class Clock {
    var now: int
    ghost var wallReadings: seq<nat>

    constructor ()
      ensures wallReadings == []
    {
      now := *;
      wallReadings := [];
    }

    method SteadyNow() returns (t: int)
      modifies this`now
      ensures old(now) <= t == now
    {
      var reading: int := *;
      if reading > now {
        now := reading;
      }
      t := now;
    }

    /** Sleeping takes at least the time asked for. */
    method SleepFor(milliseconds: nat)
      modifies this`now
      ensures now >= old(now) + milliseconds * NS_PER_MS
    {
      var late: int := *;
      now := now + milliseconds * NS_PER_MS + if late > 0 then late else 0;
    }

    method WallNow() returns (t: nat)
      modifies this`wallReadings
      ensures wallReadings == old(wallReadings) + [t]
    {
      t := *;
      wallReadings := wallReadings + [t];
    }
  }
}
