/** The delay between two attempts to reopen the socket. */
module Backoff {
  import opened Outcomes

  /** The program's `int`. */
  type int32 = n: int | -0x8000_0000 <= n < 0x8000_0000

  function Pow2(k: nat): (p: nat)
    ensures p > 0
  {
    if k == 0 then 1 else 2 * Pow2(k - 1)
  }

  /** The two settings after clamping. */
  function FirstDelay(initial: int32): (d: int32)
    ensures d >= 1
  {
    Max(1, initial)
  }

  function LongestDelay(initial: int32, longest: int32): (d: int32)
    ensures d >= FirstDelay(initial)
  {
    Max(FirstDelay(initial), longest)
  }

  /** The delay before reopen attempt `k`, counted from 0, in closed form. */
  function Delay(initial: int32, longest: int32, k: nat): (d: int)
    ensures 1 <= d <= LongestDelay(initial, longest)
  {
    var doubled := FirstDelay(initial) * Pow2(k);
    assert doubled >= 1 by {
      Grows(FirstDelay(initial), Pow2(k));
    }
    Min(doubled, LongestDelay(initial, longest))
  }

  lemma {:induction false} Grows(a: nat, b: nat)
    requires a >= 1 && b >= 1
    ensures a * b >= a
  {
  }

  /** The program's update of the delay is the step from `k` to `k + 1` of the closed form. */
  lemma {:induction false} DelayStep(initial: int32, longest: int32, k: nat)
    ensures var d := Delay(initial, longest, k);
            d + Min(d, LongestDelay(initial, longest) - d) == Delay(initial, longest, k + 1)
  {
    assert FirstDelay(initial) * Pow2(k + 1) == 2 * (FirstDelay(initial) * Pow2(k));
  }

  /**
   The delays without the closed form: the first is the initial one, at least 1 ms; each later one is
   twice the one before, but never more than the longest, which is at least the first.
   */
  lemma {:induction false} DelayMeans(initial: int32, longest: int32, k: nat)
    ensures Delay(initial, longest, 0) == if initial < 1 then 1 else initial
    ensures var first := if initial < 1 then 1 else initial as int;
            var most := if longest < first then first else longest as int;
            var d := Delay(initial, longest, k);
            Delay(initial, longest, k + 1) == if 2 * d < most then 2 * d else most
  {
    DelayStep(initial, longest, k);
  }

  /** How many slices of at most 100 ms a delay is slept in. */
  function Slices(delay: int): (n: nat)
    ensures delay > 0 ==> 100 * (n - 1) < delay <= 100 * n
    ensures delay <= 0 ==> n == 0
  {
    if delay <= 0 then 0 else (delay + 99) / 100
  }
}
