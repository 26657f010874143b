/**
 * Timers: the delay and sound counters, each decremented once per cycle by
 * the driver loop and never taken below zero.
 */
module Timers {
  import opened Bytes

  /** One decrement, as `if t > 0: t -= 1`. */
  function Tick(t: byte): (r: byte)
    ensures r <= t
    ensures t > 0 ==> r == t - 1
  {
    if t > 0 then t - 1 else t
  }

  /** `n` decrements in a row. */
  function TickN(t: byte, n: nat): byte
    decreases n
  {
    if n == 0 then t else TickN(Tick(t), n - 1)
  }

  /** After `n` ticks with no writes the timer reads max(0, t - n). */
  lemma {:induction false} TickNFloor(t: byte, n: nat)
    ensures TickN(t, n) == if t >= n then t - n else 0
    decreases n
  {
    if n > 0 {
      TickNFloor(Tick(t), n - 1);
    }
  }
}
