/** The PRU's free-running 32-bit timer, 200 ticks to the microsecond. */
module PruTimer {

  const WRAP: nat := 0x1_0000_0000

  type Tick = t: int | 0 <= t < WRAP

  function Us(us: nat): nat { 200 * us }

  /** The unsigned difference of two timer values. */
  function Elapsed(now: Tick, t0: Tick): Tick { (now - t0) % WRAP }

  /** What a timer that started `offset` ticks early shows at time t. */
  function At(t: int, offset: int): Tick { (t + offset) % WRAP }

  /** Differences of timer values are true durations, across any number of wraps, as
      long as the duration itself is below one wrap. */
  lemma ElapsedIsDuration(t: int, t0: int, offset: int)
    requires 0 <= t - t0 < WRAP
    ensures Elapsed(At(t, offset), At(t0, offset)) == t - t0
  {
  }

  /** In general only what is left over after whole wraps is seen. */
  lemma ElapsedModulo(t: int, t0: int, offset: int)
    ensures Elapsed(At(t, offset), At(t0, offset)) == (t - t0) % WRAP
  {
    var a, b := (t + offset) / WRAP, (t0 + offset) / WRAP;
    var x: int, y: int := At(t, offset), At(t0, offset);
    assert t + offset == a * WRAP + x && t0 + offset == b * WRAP + y;
    Residue(t - t0, a - b, x - y);
  }

  lemma Residue(d: int, q: int, r: int)
    requires d == q * WRAP + r && 0 < r + WRAP && r < WRAP
    ensures d % WRAP == r % WRAP == if r < 0 then r + WRAP else r
  {
    var m, s := if r < 0 then q - 1 else q, if r < 0 then r + WRAP else r;
    assert d == m * WRAP + s && 0 <= s < WRAP;
  }

  /** Setting a timer value back. */
  lemma AtMinus(t: int, offset: int, d: nat)
    ensures (At(t, offset) - d) % WRAP == At(t - d, offset)
  {
  }
}
