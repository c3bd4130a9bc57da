/** The retry delay shared by the outbox worker and the consumer. */
module Backoff {
  import opened Domain

  /** A time.Duration that is not negative: every intermediate value of this
      type is free of int64 overflow. */
  type Duration = x: int | 0 <= x <= MAX_INT64

  function Pow2(n: nat): nat {
    if n == 0 then 1 else 2 * Pow2(n - 1)
  }

  /** Exponential growth from base, capped at max. */
  function Capped(base: nat, max: nat, attempt: int): nat {
    var steps := if attempt < 1 then 0 else attempt - 1;
    if base * Pow2(steps) > max then max else base * Pow2(steps)
  }

  lemma {:induction false} Pow2Monotone(m: nat, n: nat)
    requires m <= n
    ensures 1 <= Pow2(m) <= Pow2(n)
    decreases n
  {
    if m < n {
      Pow2Monotone(m, n - 1);
    } else if m > 0 {
      Pow2Monotone(m - 1, n - 1);
    }
  }

  lemma {:induction false} DoublingStep(base: nat, step: nat)
    requires step >= 1
    ensures base * Pow2(step) == 2 * (base * Pow2(step - 1))
  {
  }

  lemma {:induction false} GrowthMonotone(base: nat, m: nat, n: nat)
    requires m <= n
    ensures base * Pow2(m) <= base * Pow2(n)
    decreases n
  {
    Pow2Monotone(m, n);
    var p, q := Pow2(m), Pow2(n);
    assert base * q - base * p == base * (q - p) >= 0;
  }

  /** The first delay is the base; each later one is twice the one before, or the
      maximum once that would exceed it. */
  lemma {:induction false} DelayDoubles(base: nat, max: nat, attempt: int)
    requires base <= max
    ensures attempt <= 1 ==> Capped(base, max, attempt) == base
    ensures attempt >= 1 ==>
              var delay := Capped(base, max, attempt);
              Capped(base, max, attempt + 1) == if 2 * delay > max then max else 2 * delay
  {
    if attempt >= 1 {
      DoublingStep(base, attempt);
    }
  }

  /** The doubling loop, with its early exits, is the capped exponential. */
  method Delay(base: Duration, max: Duration, attempt: int) returns (delay: Duration)
    requires 0 < base <= max
    ensures delay == Capped(base, max, attempt)
    ensures base <= delay <= max
  {
    var last := if attempt < 1 then 1 else attempt;
    delay := base;
    var step := 1;
    GrowthMonotone(base, 0, last - 1);
    while step < last && delay < max
      invariant 1 <= step <= last
      invariant base <= delay <= max
      invariant delay == base * Pow2(step - 1) || (delay == max && max <= base * Pow2(step - 1))
      decreases last - step
    {
      DoublingStep(base, step);
      GrowthMonotone(base, step, last - 1);
      if delay > max / 2 {
        delay := max;
        break;
      }
      delay := delay * 2;
      step := step + 1;
    }
    GrowthMonotone(base, step - 1, last - 1);
  }

  lemma Halved(delay: real, factor: real)
    requires delay >= 0.0 && factor >= 0.5
    ensures delay * factor >= delay * 0.5
  {
    assert delay * factor == delay * 0.5 + delay * (factor - 0.5);
  }

  lemma FloorAtLeast(x: real, n: int)
    requires n as real <= x
    ensures n <= x.Floor
  {
    assert x < x.Floor as real + 1.0;
    assert (n - x.Floor) as real < 1.0;
  }

  /** The jittered delay for a random factor in [0.5, 1.5), over real numbers. */
  method RetryDelay(base: Duration, max: Duration, attempt: int, factor: real) returns (result: Duration)
    requires 0 < base <= max && 0.5 <= factor < 1.5
    ensures base / 2 <= result <= max
    ensures var exact := (Capped(base, max, attempt) as real * factor).Floor;
            result == if exact > max then max else exact
  {
    var delay := Delay(base, max, attempt);
    var scaled := (delay as real * factor).Floor;
    Halved(delay as real, factor);
    var half := delay / 2;
    assert half as real <= delay as real * 0.5;
    FloorAtLeast(delay as real * factor, half);
    result := if scaled > max then max else scaled;
  }
}
