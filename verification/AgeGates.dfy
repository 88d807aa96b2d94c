/**
 The two age gates of the agent.  Both subtract unsigned slot or epoch numbers, so both
 wrap when the event is ahead of the clock.
 */
module AgeGates {
  import opened Arithmetic
  import opened Uint64

  /** ShouldIgnoreEventFromSlot with a working wall clock. */
  predicate ShouldIgnore(current: uint64, slot: uint64, tolerance: uint64) {
    Sub(current, slot) > tolerance
  }

  /** The worker's test for a state that is too old to fetch. */
  predicate TooOld(nowEpoch: uint64, targetEpoch: uint64, threshold: uint64) {
    Sub(nowEpoch, targetEpoch) > threshold
  }

  /** The accepted slots, for every clock: the intended window and what wraps into it. */
  lemma GateAccepts(current: uint64, slot: uint64, tolerance: uint64)
    ensures !ShouldIgnore(current, slot, tolerance) <==>
            current - tolerance <= slot <= current || current + TWO_64 - tolerance <= slot
  {
    assert Sub(current, slot) == if slot <= current then current - slot else current - slot + TWO_64;
  }

  /**
   The gate is the window [current - tolerance, current] exactly when the clock has passed
   `tolerance`.  Before that, near genesis, slots at the top of the range get in.
   */
  lemma GateIsAWindowIff(current: uint64, tolerance: uint64)
    ensures (forall slot: uint64 :: !ShouldIgnore(current, slot, tolerance) <==> current - tolerance <= slot <= current)
            <==> tolerance <= current
  {
    if current < tolerance {
      GateAccepts(current, TWO_64 - 1, tolerance);
    } else {
      forall slot: uint64 ensures !ShouldIgnore(current, slot, tolerance) <==> current - tolerance <= slot <= current {
        GateAccepts(current, slot, tolerance);
      }
    }
  }

  /** The worker's subtraction is the true age exactly when the target is not in the future. */
  lemma TooOldIff(nowSlot: uint64, slot: uint64, slotsPerEpoch: uint64, threshold: uint64)
    requires slotsPerEpoch > 0 && slot <= nowSlot
    ensures 0 <= slot / slotsPerEpoch <= nowSlot / slotsPerEpoch < TWO_64
    ensures TooOld(nowSlot / slotsPerEpoch, slot / slotsPerEpoch, threshold) <==>
            nowSlot / slotsPerEpoch - slot / slotsPerEpoch > threshold
  {
    QuotientMonotone(slot, nowSlot, slotsPerEpoch);
    QuotientBound(nowSlot, slotsPerEpoch);
  }
}
