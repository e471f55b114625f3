/** The kernel's 32-bit unsigned tick arithmetic, shared by co-routines and event loop timers. */
module Tick32 {
  const TICKS: nat := 0x1_0000_0000

  type Tick = n: nat | n < TICKS

  function Plus(m: Tick, n: Tick): Tick
  {
    if m + n < TICKS then m + n else m + n - TICKS
  }

  function Minus(m: Tick, n: Tick): Tick
  {
    if m >= n then m - n else m + TICKS - n
  }

  /** Both are the operation modulo 2^32. */
  lemma Modular(m: Tick, n: Tick)
    ensures Plus(m, n) == (m + n) % TICKS && Minus(m, n) == (m - n) % TICKS && Minus(Plus(m, n), n) == m
  {
  }
}
