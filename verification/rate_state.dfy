/**
 * The counters every rate law keeps per destination: the current index
 * into the destination's supported-rate list, consecutive successes and
 * failures, and a timer counting reports since the last rate change.
 */
module RateState {
  import opened U32

  /** A destination, as the managers key their per-station records. */
  type StationId = nat

  datatype Counters = Counters(rate: u32, success: u32, failed: u32, timer: u32)

  /** A station starts at the lowest rate with every counter cleared. */
  function NewCounters(): (c: Counters)
    ensures c.rate == 0 && c.success == 0 && c.failed == 0 && c.timer == 0
  {
    Counters(0, 0, 0, 0)
  }

  /** The rate index points into a list of `n` supported rates. */
  predicate ValidRate(c: Counters, n: u32) {
    c.rate < n
  }

  /** One step down the rate list, never below index 0. */
  function Lower(rate: u32): u32 {
    if rate != 0 then rate - 1 else rate
  }

  /**
   * One step up the rate list, never past `n - 1`; the bound is computed in
   * `uint32_t`, so with `n == 0` it wraps to the maximum.
   */
  function Raise(rate: u32, n: u32): u32 {
    if rate < Dec(n) then rate + 1 else rate
  }

  /** `Raise` keeps a valid index valid and moves it by at most one. */
  lemma RaiseStaysValid(rate: u32, n: u32)
    requires rate < n
    ensures Raise(rate, n) < n
    ensures rate <= Raise(rate, n) <= rate + 1
    ensures Raise(rate, n) == rate + 1 <==> rate + 1 < n
  {
  }

  /**
   * The index of the RTS rate, the same in every manager: the lowest of the
   * `n` supported rates, whatever the station's data rate.
   */
  function RtsRate(n: u32): (r: u32)
    requires 1 <= n
    ensures r == 0 && r < n
  {
    0
  }
}
