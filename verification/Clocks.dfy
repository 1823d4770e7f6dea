/** The clock that tracks media time (MediaClock.java). Real time is a parameter of every call. */
module Clocks {

  class MediaClock {
    var started: bool
    var timeUs: int
    var deltaUs: int

    /** The time last set, and how often a time has been set. */
    ghost var lastSetUs: int
    ghost var sets: nat

    constructor ()
      ensures !started && lastSetUs == 0 && sets == 0
      ensures forall nowUs :: Reading(nowUs) == 0
    {
      started, timeUs, deltaUs := false, 0, 0;
      lastSetUs, sets := 0, 0;
    }

    function Reading(nowUs: int): int
      reads this
    {
      if started then nowUs - deltaUs else timeUs
    }

    method Start(nowUs: int)
      modifies this
      ensures started && Reading(nowUs) == old(Reading(nowUs)) && lastSetUs == old(lastSetUs) && sets == old(sets)
    {
      if !started {
        started := true;
        deltaUs := nowUs - timeUs;
      }
    }

    method Stop(nowUs: int)
      modifies this
      ensures !started && Reading(nowUs) == old(Reading(nowUs)) && lastSetUs == old(lastSetUs) && sets == old(sets)
    {
      if started {
        timeUs := nowUs - deltaUs;
        started := false;
      }
    }

    method SetTimeUs(timeUs: int, nowUs: int)
      modifies this
      ensures started == old(started) && Reading(nowUs) == lastSetUs == timeUs && sets == old(sets) + 1
    {
      this.timeUs := timeUs;
      deltaUs := nowUs - timeUs;
      lastSetUs, sets := timeUs, sets + 1;
    }

    /** A running clock advances with real time, a stopped one stands still. */
    lemma Advances(nowUs: int, elapsedUs: int)
      ensures Reading(nowUs + elapsedUs) == Reading(nowUs) + if started then elapsedUs else 0
    {
    }
  }
}
