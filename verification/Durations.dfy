/** std::time::Duration in nanoseconds, with its saturating arithmetic. */
module Durations {
  const SECOND: nat := 1_000_000_000
  const MAX_DURATION: nat := 0xFFFF_FFFF_FFFF_FFFF * SECOND + 999_999_999

  function SaturatingAdd(a: nat, b: nat): (sum: nat)
    ensures sum <= a + b && sum <= MAX_DURATION && (sum == a + b || sum == MAX_DURATION)
  {
    if a + b <= MAX_DURATION then a + b else MAX_DURATION
  }

  function SaturatingSub(a: nat, b: nat): (difference: nat)
    ensures difference > 0 ==> difference + b == a
    ensures difference == 0 ==> a <= b
  {
    if a >= b then a - b else 0
  }

  // src/monitor.rs
  const INITIAL_DELAY: nat := SECOND
  const MAX_DELAY: nat := 30 * SECOND
  const EVENT_RESET: nat := 60 * SECOND

  /** next_delay: doubling up to the cap. */
  function NextDelay(delay: nat): nat {
    if delay * 2 <= MAX_DELAY then delay * 2 else MAX_DELAY
  }

  function Pow2(k: nat): nat {
    if k == 0 then 1 else 2 * Pow2(k - 1)
  }

  /** min(2^k, 30) seconds. */
  function Backoff(k: nat): (delay: nat)
    ensures delay <= MAX_DELAY
  {
    if Pow2(k) <= 30 then Pow2(k) * SECOND else MAX_DELAY
  }

  /** One, two, four, eight, sixteen and then thirty seconds. */
  lemma {:induction false} BackoffLadder(k: nat)
    ensures Backoff(k) == if k == 0 then 1 * SECOND
                          else if k == 1 then 2 * SECOND
                          else if k == 2 then 4 * SECOND
                          else if k == 3 then 8 * SECOND
                          else if k == 4 then 16 * SECOND
                          else 30 * SECOND
  {
    if k > 0 {
      BackoffLadder(k - 1);
    }
  }

  lemma {:induction false} BackoffDoubles(k: nat)
    ensures Backoff(0) == INITIAL_DELAY
    ensures NextDelay(Backoff(k)) == Backoff(k + 1)
    ensures Backoff(k) >= INITIAL_DELAY
  {
    if k > 0 {
      BackoffDoubles(k - 1);
    }
  }
}
