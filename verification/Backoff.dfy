/** Exponential back-off with injected time, in seconds. */
module Backoff {
  import opened Arithmetic

  /** `delay` 0 means no failure since the last success. */
  datatype Schedule = Schedule(delay: nat, next: nat)

  const FRESH := Schedule(0, 0)

  function Min(a: nat, b: nat): nat {
    if a <= b then a else b
  }

  function AfterFailure(s: Schedule, base: nat, max: nat, now: nat): Schedule {
    var delay := if s.delay == 0 then base else Min(max, s.delay * 2);
    Schedule(delay, now + delay)
  }

  class Backoff {
    const base: nat
    const max: nat
    var delay: nat
    var next: nat

    function View(): Schedule
      reads this
    {
      Schedule(delay, next)
    }

    constructor (base: nat, max: nat)
      ensures View() == FRESH && this.base == base && this.max == max
    {
      this.base, this.max, delay, next := base, max, 0, 0;
    }

    predicate Due(now: nat)
      reads this
    {
      now >= next
    }

    method Failed(now: nat)
      modifies this
      ensures View() == AfterFailure(old(View()), base, max, now)
    {
      if delay == 0 {
        delay := base;
      } else {
        delay := Min(max, delay * 2);
      }
      next := now + delay;
    }

    method Succeeded()
      modifies this
      ensures View() == FRESH
    {
      delay := 0;
      next := 0;
    }
  }

  /** The wait after the k-th failure in a row: base doubled k-1 times, capped. */
  function Wait(base: nat, max: nat, k: nat): nat {
    if k == 0 then 0 else Min(max, base * Pow2(k - 1))
  }

  /** One more failure turns the k-th wait into the next. */
  lemma WaitDoubles(base: nat, max: nat, k: nat, now: nat, next: nat)
    requires 0 < base <= max
    ensures AfterFailure(Schedule(Wait(base, max, k), next), base, max, now)
            == Schedule(Wait(base, max, k + 1), now + Wait(base, max, k + 1))
    ensures k > 0 ==> Wait(base, max, k) > 0
  {
    if k > 0 {
      var p := Pow2(k - 1);
      assert Pow2(k) == 2 * p;
      assert base * Pow2(k) == 2 * (base * p);
      assert base * p >= 1 by { Grows(base, p); }
    }
  }

  lemma Grows(a: nat, b: nat)
    requires a >= 1 && b >= 1
    ensures a * b >= 1
  {
  }
}
