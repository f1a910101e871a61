/** The two exponential backoffs: the validator's Backoff (internal/registry/registry.go) and the
    agent's Reconnect loop (internal/agent/stream.go). Durations are int64 nanoseconds, so
    doubling wraps around. */
module Backoffs {
  import opened Common

  const TWO_62: int := 0x4000_0000_0000_0000
  const TWO_63: int := 0x8000_0000_0000_0000
  const TWO_64: int := 0x1_0000_0000_0000_0000

  type Int64 = x: int | -TWO_63 <= x < TWO_63

  /** The int64 that Go's arithmetic leaves for an integer. */
  function Wrap(x: int): (r: Int64)
    ensures -TWO_63 <= x < TWO_63 ==> r == x
  {
    (x + TWO_63) % TWO_64 - TWO_63
  }

  function Pow2(k: nat): (p: nat)
    ensures p >= 1
  {
    if k == 0 then 1 else 2 * Pow2(k - 1)
  }

  /** Bounds both loops are meant to use: min, 2 min, 4 min, ..., never above max. */
  function Capped(min: int, max: int, k: nat): int {
    if min * Pow2(k) <= max then min * Pow2(k) else max
  }

  predicate Durations(min: Int64, max: Int64) {
    0 < min <= max
  }

  // ---- Backoff.Next ----

  /** The limit Next computes from the previous one; 0 means "reset". */
  function NextLimit(min: Int64, max: Int64, current: Int64): Int64 {
    if current == 0 then min
    else
      var doubled := Wrap(current * 2);
      if doubled > max then max else doubled
  }

  /** The limit after k + 1 consecutive calls to Next on a reset Backoff. */
  function NthLimit(min: Int64, max: Int64, k: nat): Int64 {
    NextLimit(min, max, if k == 0 then 0 else NthLimit(min, max, k - 1))
  }

  lemma RemainderBelow(n: nat, m: int)
    requires m > 0
    ensures 0 <= n % m < m && (n < m ==> n % m == n)
  {}

  class Backoff {
    const min: Int64
    const max: Int64
    var current: Int64
    ghost var streak: nat  // calls to Next since construction or the last Reset

    ghost predicate Valid()
      reads this
    {
      current == if streak == 0 then 0 else NthLimit(min, max, streak - 1)
    }

    constructor (min: Int64, max: Int64)
      ensures Valid() && streak == 0 && this.min == min && this.max == max
    {
      this.min, this.max, current, streak := min, max, 0, 0;
    }

    /** `draw` is the raw random number; None is the panic of Int63n on a non-positive bound. */
    method Next(draw: nat) returns (delay: Option<int>)
      requires Valid()
      modifies this
      ensures Valid() && streak == old(streak) + 1
      ensures current == NthLimit(min, max, old(streak))
      ensures delay.None? <==> current == TWO_63 - 1
      ensures delay.Some? ==>
        0 <= delay.value && (current > 0 ==> delay.value <= current) && (current <= 0 ==> delay.value == 0)
      ensures delay.Some? && draw <= current ==> delay.value == draw
    {
      var limit := current;
      if limit == 0 {
        limit := min;
      } else {
        limit := Wrap(limit * 2);
        if limit > max {
          limit := max;
        }
      }
      current := limit;
      streak := streak + 1;
      if limit <= 0 {
        return Some(0);
      }
      if Wrap(limit + 1) <= 0 {
        return None;
      }
      RemainderBelow(draw, limit + 1);
      return Some(draw % (limit + 1));
    }

    method Reset()
      modifies this
      ensures Valid() && streak == 0 && current == 0
    {
      current, streak := 0, 0;
    }
  }

  // ---- Reconnect ----

  function NextDelay(max: Int64, delay: Int64): Int64 {
    if delay < max then
      var doubled := Wrap(delay * 2);
      if doubled > max then max else doubled
    else delay
  }

  /** The bound of the wait after k + 1 failed attempts in a row. */
  function NthDelay(min: Int64, max: Int64, k: nat): Int64 {
    if k == 0 then min else NextDelay(max, NthDelay(min, max, k - 1))
  }

  /** Failed attempts in a row before attempt i, counting back to the last success or the start;
      0 when attempt i itself succeeds. */
  function Streak(succeeded: seq<bool>, i: nat): nat
    requires i < |succeeded|
  {
    if succeeded[i] || i == 0 then 0 else Streak(succeeded, i - 1) + 1
  }

  /** The attempts counted have all failed, and before them came a success or the start. */
  lemma {:induction false} StreakExactly(succeeded: seq<bool>, i: nat)
    requires i < |succeeded|
    ensures Streak(succeeded, i) <= i && (Streak(succeeded, i) == i || succeeded[i - Streak(succeeded, i)])
    ensures forall j :: i - Streak(succeeded, i) < j <= i ==> !succeeded[j]
  {
    if succeeded[i] || i == 0 {
    } else {
      StreakExactly(succeeded, i - 1);
    }
  }

  /** Int63n(int64(delay) + 1) panics: its argument is not positive. */
  predicate Panics(delay: Int64) {
    Wrap(delay + 1) <= 0
  }

  /** The bound of the wait after attempt i. */
  function BoundAfter(min: Int64, max: Int64, succeeded: seq<bool>, i: nat): Int64
    requires i < |succeeded|
  {
    NthDelay(min, max, Streak(succeeded, i))
  }

  /** The reconnect loop over the outcomes of its attempts; the context ends after the last one.
      Returns the bound of every wait up to a panic, or None when the bounds are rejected. */
  method Reconnect(min: Int64, max: Int64, succeeded: seq<bool>) returns (bounds: Option<seq<Int64>>, panicked: bool)
    ensures bounds.None? <==> min <= 0 || max < min
    ensures bounds.Some? ==> |bounds.value| <= |succeeded|
    ensures bounds.Some? ==> forall i :: 0 <= i < |bounds.value| ==>
      bounds.value[i] == BoundAfter(min, max, succeeded, i)
    ensures bounds.Some? ==> forall i :: 0 <= i < |bounds.value| ==>
      bounds.value[i] == if i == 0 || succeeded[i] then min else NextDelay(max, bounds.value[i - 1])
    ensures bounds.Some? ==> forall i :: 0 <= i < |bounds.value| ==> !Panics(bounds.value[i])
    ensures panicked <==> bounds.Some? && |bounds.value| < |succeeded|
    ensures panicked ==> Panics(BoundAfter(min, max, succeeded, |bounds.value|))
  {
    if min <= 0 || max < min {
      return None, false;
    }
    var delay: Int64 := min;
    var waits: seq<Int64> := [];
    ghost var failures: nat := 0;  // in a row, before this attempt
    for i := 0 to |succeeded|
      invariant |waits| == i
      invariant forall j :: 0 <= j < i ==> waits[j] == BoundAfter(min, max, succeeded, j)
      invariant forall j :: 0 <= j < i ==> !Panics(waits[j])
      invariant failures == if i == 0 then 0 else Streak(succeeded, i - 1) + 1
      invariant delay == NthDelay(min, max, failures)
    {
      if succeeded[i] {
        delay := min;
        failures := 0;
      }
      assert delay == BoundAfter(min, max, succeeded, i);
      if Wrap(delay + 1) <= 0 {
        return Some(waits), true;
      }
      waits := waits + [delay];
      if delay < max {
        delay := Wrap(delay * 2);
        if delay > max {
          delay := max;
        }
      }
      failures := failures + 1;
    }
    return Some(waits), false;
  }

  // ---- Closed forms and exactly when they hold ----

  lemma CappedStep(min: int, max: int, k: nat)
    requires 0 < min <= max
    ensures min <= Capped(min, max, k) <= max
    ensures Capped(min, max, k + 1) == if 2 * Capped(min, max, k) > max then max else 2 * Capped(min, max, k)
  {
    var p := Pow2(k);
    assert p >= 1;
    assert min * p >= min by { MulAtLeast(min, p); }
    assert min * (2 * p) == 2 * (min * p);
  }

  lemma MulAtLeast(a: int, b: int)
    requires a > 0 && b >= 1
    ensures a * b >= a
    ensures a * b >= b
  {}

  /** Next doubles even at the cap, so the closed form holds for every k exactly when max < 2^62. */
  lemma {:induction false} NextClosedForm(min: Int64, max: Int64, k: nat)
    requires Durations(min, max) && max < TWO_62
    ensures NthLimit(min, max, k) == Capped(min, max, k)
  {
    if k > 0 {
      NextClosedForm(min, max, k - 1);
      CappedStep(min, max, k - 1);
    } else {
      assert min * Pow2(0) == min;
    }
  }

  lemma Pow2Of63()
    ensures Pow2(63) == TWO_63
  {
    assert Pow2(8) == 0x100;
    assert Pow2(16) == 0x1_0000 by { Pow2Sum(8, 8); }
    assert Pow2(32) == 0x1_0000_0000 by { Pow2Sum(16, 16); }
    assert Pow2(64) == TWO_64 by { Pow2Sum(32, 32); }
  }

  lemma {:induction false} Pow2Sum(a: nat, b: nat)
    ensures Pow2(a + b) == Pow2(a) * Pow2(b)
  {
    if a == 0 {
    } else {
      Pow2Sum(a - 1, b);
      assert Pow2(a + b) == 2 * Pow2(a - 1 + b);
    }
  }

  lemma {:induction false} NextClosedFormExactly(min: Int64, max: Int64)
    requires Durations(min, max)
    ensures (forall k: nat :: NthLimit(min, max, k) == Capped(min, max, k)) <==> max < TWO_62
  {
    if max < TWO_62 {
      forall k: nat ensures NthLimit(min, max, k) == Capped(min, max, k) {
        NextClosedForm(min, max, k);
      }
    } else {
      Pow2Of63();
      MulAtLeast(min, TWO_63);
      assert Capped(min, max, 63) == max;
      CappedStep(min, max, 63);
      assert Capped(min, max, 64) == max;
      if NthLimit(min, max, 63) == max {
        assert NthLimit(min, max, 64) == Wrap(max * 2) < 0;
      }
    }
  }

  /** No bound below max is 2^62 or more. */
  ghost predicate NeverDoublesPast(min: int, max: int) {
    forall j: nat :: min * Pow2(j) < max ==> min * Pow2(j) < TWO_62
  }

  /** Reconnect stops doubling at the cap; a doubling overflows only from a bound in [2^62, max). */
  lemma {:induction false} DelayClosedForm(min: Int64, max: Int64, k: nat)
    requires Durations(min, max)
    requires NeverDoublesPast(min, max)
    ensures NthDelay(min, max, k) == Capped(min, max, k)
  {
    if k > 0 {
      DelayClosedForm(min, max, k - 1);
      CappedStep(min, max, k - 1);
    } else {
      assert min * Pow2(0) == min;
    }
  }

  lemma {:induction false} DelayClosedFormExactly(min: Int64, max: Int64)
    requires Durations(min, max)
    ensures (forall k: nat :: NthDelay(min, max, k) == Capped(min, max, k))
       <==> NeverDoublesPast(min, max)
  {
    if NeverDoublesPast(min, max) {
      forall k: nat ensures NthDelay(min, max, k) == Capped(min, max, k) {
        DelayClosedForm(min, max, k);
      }
    } else {
      var j: nat :| min * Pow2(j) < max && min * Pow2(j) >= TWO_62;
      CappedStep(min, max, j);
      assert Capped(min, max, j) == min * Pow2(j);
      assert NthDelay(min, max, j + 1) == NextDelay(max, NthDelay(min, max, j));
      assert NextDelay(max, min * Pow2(j)) < 0 by { DoublesPast(max, min * Pow2(j)); }
    }
  }

  lemma DoublesPast(max: Int64, delay: Int64)
    requires TWO_62 <= delay < max
    ensures NextDelay(max, delay) < 0
  {}

  lemma PowerDoubles(min: int, k: nat)
    requires min > 0 && k > 0
    ensures min * Pow2(k) == 2 * (min * Pow2(k - 1)) && min * Pow2(k - 1) > 0
  {
    var p := Pow2(k - 1);
    assert min * (2 * p) == 2 * (min * p);
    MulAtLeast(min, p);
  }

  lemma DoublesBelow(max: Int64, delay: int)
    requires 0 < delay && 2 * delay < max
    ensures NextDelay(max, delay) == 2 * delay
  {}

  lemma {:induction false} PowersGrow(min: int, i: nat, j: nat)
    requires min > 0 && i <= j
    ensures min * Pow2(i) <= min * Pow2(j)
  {
    if i == j {
    } else {
      PowersGrow(min, i, j - 1);
      PowerDoubles(min, j);
    }
  }

  /** While the powers stay below max the loop doubles. */
  lemma {:induction false} DelayDoubles(min: Int64, max: Int64, i: nat, j: nat)
    requires Durations(min, max) && i <= j && min * Pow2(j) < max
    ensures NthDelay(min, max, i) == min * Pow2(i)
  {
    if i == 0 {
      assert min * Pow2(0) == min;
    } else {
      DelayDoubles(min, max, i - 1, j);
      PowersGrow(min, i, j);
      PowerDoubles(min, i);
      DoublesBelow(max, min * Pow2(i - 1));
    }
  }

  /** However many attempts fail in a row, the loop never panics exactly when no doubling below max
      overflows and max itself leaves room for the added one. */
  lemma {:induction false} ReconnectNeverPanicsExactly(min: Int64, max: Int64)
    requires Durations(min, max)
    ensures (forall k: nat :: !Panics(NthDelay(min, max, k))) <==> NeverDoublesPast(min, max) && max < TWO_63 - 1
  {
    if NeverDoublesPast(min, max) {
      forall k: nat ensures NthDelay(min, max, k) == Capped(min, max, k) && NthDelay(min, max, k) > 0 {
        DelayClosedForm(min, max, k);
        PowersGrow(min, 0, k);
      }
      Pow2Of63();
      MulAtLeast(min, TWO_63);
      assert NthDelay(min, max, 63) == max;
    } else {
      var j: nat :| min * Pow2(j) < max && min * Pow2(j) >= TWO_62;
      DelayDoubles(min, max, j, j);
      DoublesPast(max, min * Pow2(j));
      assert NthDelay(min, max, j + 1) == NextDelay(max, min * Pow2(j)) < 0;
      assert Panics(NthDelay(min, max, j + 1));
    }
  }

  /** Both loops compute the same bounds step by step when max < 2^62. */
  lemma {:induction false} LoopsAgree(min: Int64, max: Int64, k: nat)
    requires Durations(min, max) && max < TWO_62
    ensures NthLimit(min, max, k) == NthDelay(min, max, k) == Capped(min, max, k)
  {
    NextClosedForm(min, max, k);
    DelayClosedForm(min, max, k);
  }

  /** At max == 2^62 they part: Reconnect stays at the cap while Next goes negative. */
  lemma {:induction false} LoopsPartAtTwo62()
    ensures NthDelay(TWO_62, TWO_62, 1) == TWO_62
    ensures NthLimit(TWO_62, TWO_62, 1) == -TWO_63
  {
    assert NthLimit(TWO_62, TWO_62, 0) == TWO_62;
    assert NthDelay(TWO_62, TWO_62, 0) == TWO_62;
  }
}
