/** Heartbeat slots: beats fall on wall-clock instants congruent to a collector's
    own phase, the same slots after any restart (internal/app/heartbeat.go). */
module Heartbeat {
  import opened Prelude
  import opened Arithmetic

  /** Go's `%`: the remainder takes the sign of the dividend. */
  function GoRem(a: int, b: int): int
    requires b > 0
  {
    if a >= 0 then a % b else -((-a) % b)
  }

  predicate IsSlot(t: Time, interval: Time, phase: Time)
    requires interval > 0
  {
    (t - phase) % interval == 0
  }

  /** `phaseFor`, given the identity's 64-bit hash. */
  function PhaseFor(hash: nat, interval: Time): (phase: Time)
    requires interval > 0
    ensures 0 <= phase < interval && IsSlot(hash, interval, phase)
  {
    DivIs(hash - hash % interval, hash / interval, 0, interval);
    hash % interval
  }

  /** The first slot strictly after an instant. */
  function NextSlot(now: Time, interval: Time, phase: Time): Time
    requires interval > 0
  {
    now + interval - (now - phase) % interval
  }

  lemma SlotIsMultiple(t: Time, q: int, interval: Time, phase: Time)
    requires interval > 0 && t - phase == q * interval
    ensures IsSlot(t, interval, phase)
  {
    DivIs(t - phase, q, 0, interval);
  }

  /** Two slots less than an interval apart are one. */
  lemma SlotsAreSpaced(t1: Time, t2: Time, interval: Time, phase: Time)
    requires interval > 0 && IsSlot(t1, interval, phase) && IsSlot(t2, interval, phase)
    requires t1 <= t2 < t1 + interval
    ensures t1 == t2
  {
    var q1, q2 := (t1 - phase) / interval, (t2 - phase) / interval;
    assert t1 - phase == q1 * interval && t2 - phase == q2 * interval;
    MulOrder(q1, q2, interval);
    MulOrder(q2, q1, interval);
  }

  /** `NextSlot` is a slot, strictly later, at most one interval away, and least. */
  lemma {:induction false} NextSlotIsLeast(now: Time, interval: Time, phase: Time)
    requires interval > 0
    ensures var next := NextSlot(now, interval, phase);
            IsSlot(next, interval, phase) && now < next <= now + interval &&
            forall t :: now < t && IsSlot(t, interval, phase) ==> next <= t
  {
    var next := NextSlot(now, interval, phase);
    var q := (now - phase) / interval;
    assert next - phase == q * interval + interval == (q + 1) * interval;
    SlotIsMultiple(next, q + 1, interval, phase);
    forall t | now < t && IsSlot(t, interval, phase) ensures next <= t {
      if t < next {
        SlotsAreSpaced(t, next, interval, phase);
      }
    }
  }

  lemma GoRemIsCongruent(a: int, b: int)
    requires b > 0
    ensures exists q :: a - GoRem(a, b) == q * b
    ensures -b < GoRem(a, b) < b && (a >= 0 ==> GoRem(a, b) >= 0) && (a <= 0 ==> GoRem(a, b) <= 0)
  {
    if a >= 0 {
      assert a - GoRem(a, b) == a / b * b;
    } else {
      assert a - GoRem(a, b) == -((-a) / b) * b;
    }
  }

  /** `nextBeat`, before and after the epoch alike: its loop runs at most once. */
  method NextBeat(now: Time, interval: Time, phase: Time) returns (next: Time, ghost turns: nat)
    requires interval > 0
    ensures next == NextSlot(now, interval, phase)
    ensures turns <= 1
  {
    var since := now - phase;
    GoRemIsCongruent(since, interval);
    ghost var q :| since - GoRem(since, interval) == q * interval;
    var slot := since - GoRem(since, interval) + phase;
    SlotIsMultiple(slot, q, interval, phase);
    next, turns := slot, 0;
    while next <= now
      invariant IsSlot(next, interval, phase)
      invariant now - interval < next <= now + interval
      invariant turns == 0 || (turns == 1 && next > now)
      invariant next == slot + turns * interval
      decreases now - next
    {
      assert (q + 1) * interval == q * interval + interval;
      SlotIsMultiple(next + interval, q + 1, interval, phase);
      next := next + interval;
      turns := turns + 1;
    }
    NextSlotIsLeast(now, interval, phase);
    if next > NextSlot(now, interval, phase) {
      SlotsAreSpaced(NextSlot(now, interval, phase), next, interval, phase);
    }
  }

  /** The beats after an instant. */
  function Beat(now: Time, interval: Time, phase: Time, n: nat): Time
    requires interval > 0
  {
    if n == 0 then NextSlot(now, interval, phase) else NextSlot(Beat(now, interval, phase, n - 1), interval, phase)
  }

  /** Each beat follows the last by exactly one interval. */
  lemma {:induction false} BeatsAreSpaced(now: Time, interval: Time, phase: Time, n: nat)
    requires interval > 0
    ensures IsSlot(Beat(now, interval, phase, n), interval, phase)
    ensures Beat(now, interval, phase, n) == NextSlot(now, interval, phase) + n * interval
  {
    if n == 0 {
      NextSlotIsLeast(now, interval, phase);
    } else {
      BeatsAreSpaced(now, interval, phase, n - 1);
      var b := Beat(now, interval, phase, n - 1);
      NextSlotIsLeast(b, interval, phase);
      assert n * interval == (n - 1) * interval + interval;
    }
  }

  /** A restart does not move the cadence: whenever a collector boots, its first
      beat is one its earlier life would have made. */
  lemma {:induction false} SameCadenceFromAnyBoot(boot: Time, later: Time, interval: Time, phase: Time)
    requires interval > 0 && boot <= later
    ensures exists n: nat :: NextSlot(later, interval, phase) == Beat(boot, interval, phase, n)
  {
    NextSlotIsLeast(boot, interval, phase);
    NextSlotIsLeast(later, interval, phase);
    var first, target := NextSlot(boot, interval, phase), NextSlot(later, interval, phase);
    assert first <= target;
    var q1, q2 := (first - phase) / interval, (target - phase) / interval;
    assert first - phase == q1 * interval && target - phase == q2 * interval;
    assert target - first == (q2 - q1) * interval;
    MulOrder(q2, q1, interval);
    var n: nat := q2 - q1;
    BeatsAreSpaced(boot, interval, phase, n);
    assert target == Beat(boot, interval, phase, n);
  }
}
