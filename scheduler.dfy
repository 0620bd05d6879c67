/** The arithmetic of the aligned ticker. */
module Scheduler {
  import opened JsNumber

  const TickPeriodMs: int := 1000

  /** `1000 - (nowCorrectedMs() % 1000)`, with JavaScript's remainder: the
      wait before the first tick, which then lands on a second boundary of
      corrected time. Before the epoch the remainder is negative and the wait
      exceeds one second. */
  function FirstTickDelay(now: int): (d: int)
    ensures (now + d) % TickPeriodMs == 0
    ensures 0 < d < 2 * TickPeriodMs
    ensures now >= 0 ==> d <= TickPeriodMs
  {
    TickPeriodMs - Rem(now, TickPeriodMs)
  }

  /** No shorter positive wait reaches a boundary when `now` is not before the
      epoch: the first tick comes at the next boundary (a full second later when
      `now` is itself on one). */
  lemma FirstTickIsNextBoundary(now: int, d: int)
    requires now >= 0 && d > 0 && (now + d) % TickPeriodMs == 0
    ensures FirstTickDelay(now) <= d
  {
  }
}
