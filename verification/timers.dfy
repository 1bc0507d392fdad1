/**
 * The update interval of config.js and the way Node.js timers treat the
 * delay they are given.
 */
module Timers {
  import opened Wrappers

  /** The largest delay a Node.js timer accepts, 2^31 - 1 milliseconds. */
  const MaxDelay := 0x7FFF_FFFF

  /**
   * The delay `setTimeout`/`setInterval` actually use: a delay above the
   * maximum, or below one millisecond, becomes one millisecond.
   */
  function EffectiveDelay(ms: int): (d: int)
    ensures 1 <= d <= MaxDelay
    ensures 1 <= ms <= MaxDelay ==> d == ms
    ensures !(1 <= ms <= MaxDelay) ==> d == 1
  {
    if ms > MaxDelay || ms < 1 then 1 else ms
  }

  /** `parseInt(process.env.UPDATE_INTERVAL) || 60`, with `None` for NaN: the seconds between updates. */
  function IntervalSeconds(parsed: Option<int>): (s: int)
    ensures s != 0
    ensures parsed.Some? && parsed.value != 0 ==> s == parsed.value
  {
    if parsed.Some? && parsed.value != 0 then parsed.value else 60
  }
}
