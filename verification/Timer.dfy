/** The tick counter and deadlines, across wraparound of the 32-bit clock. */
module Timer {
  import opened Common
  const HZ := 100
  const HALF_RANGE := 0x8000_0000
  const CLOCK := 0x1_0000_0000
  const SLEEP_MAX := 86_400_000

  /** Modular subtraction: the deadline is at most half a cycle behind. */
  function Reached(now: nat, deadline: nat): bool {
    (now - deadline) % CLOCK < HALF_RANGE
  }

  /** Ticks that cover a sleep, one more for the tick already under way. */
  function DurationTicks(milliseconds: nat): (r: Option<nat>)
    ensures r.Some? <==> milliseconds <= SLEEP_MAX
    // Never shorter than asked for, and never more than two ticks longer.
    ensures r.Some? && milliseconds > 0 ==> milliseconds * HZ <= (r.value - 1) * 1000 < milliseconds * HZ + 1000
    ensures r.Some? ==> r.value < HALF_RANGE && (r.value == 0 <==> milliseconds == 0)
  {
    if milliseconds > SLEEP_MAX then None
    else if milliseconds == 0 then Some(0)
    else Some((milliseconds * HZ + 999) / 1000 + 1)
  }

  /** A deadline `left` ticks ahead of the clock. */
  ghost predicate Due(now: nat, deadline: nat, left: nat) {
    now < CLOCK && left < HALF_RANGE && deadline == (now + left) % CLOCK
  }

  /** It is reached exactly when no tick is left, wherever the clock wraps. */
  lemma ReachedExactly(now: nat, deadline: nat, left: nat)
    requires Due(now, deadline, left)
    ensures Reached(now, deadline) <==> left == 0
  {
    if now + left < CLOCK {
      assert deadline == now + left;
      assert left > 0 ==> (now - deadline) % CLOCK == CLOCK - left;
    } else {
      assert deadline == now + left - CLOCK;
      assert now - deadline == CLOCK - left;
    }
  }

  lemma TickNearer(now: nat, deadline: nat, left: nat)
    requires Due(now, deadline, left) && left > 0
    ensures Due((now + 1) % CLOCK, deadline, left - 1)
  {
    if now + 1 == CLOCK {
      assert (now + left) % CLOCK == (left - 1) % CLOCK;
    }
  }

  /** Over a whole wait: not reached after any earlier tick, reached at the last. */
  lemma {:induction false} WakesOnTime(start: nat, duration: nat, elapsed: nat)
    requires start < CLOCK && 0 < duration < HALF_RANGE && elapsed <= duration
    ensures Reached((start + elapsed) % CLOCK, (start + duration) % CLOCK) <==> elapsed == duration
    decreases elapsed
  {
    DueAfter(start, duration, elapsed);
    ReachedExactly((start + elapsed) % CLOCK, (start + duration) % CLOCK, duration - elapsed);
  }

  lemma {:induction false} DueAfter(start: nat, duration: nat, elapsed: nat)
    requires start < CLOCK && 0 < duration < HALF_RANGE && elapsed <= duration
    ensures Due((start + elapsed) % CLOCK, (start + duration) % CLOCK, duration - elapsed)
    decreases elapsed
  {
    if elapsed > 0 {
      DueAfter(start, duration, elapsed - 1);
      TickNearer((start + elapsed - 1) % CLOCK, (start + duration) % CLOCK, duration - (elapsed - 1));
      NextTick(start + elapsed - 1);
    }
  }

  lemma NextTick(x: nat)
    requires x < 2 * CLOCK
    ensures (x + 1) % CLOCK == (x % CLOCK + 1) % CLOCK
  {
    assert x % CLOCK == if x < CLOCK then x else x - CLOCK;
  }
}
