/**
 * The per-station record of the hybrid manager and the AARF law it runs
 * in mode 1. The record holds the counters both laws share (rate, success,
 * failure, timer) plus AARF's own recovery flag, retry count and adaptive
 * thresholds, which the CARA law leaves untouched.
 */
module AarfLaw {
  import opened U32
  import opened RateState

  datatype AarfParams = AarfParams(
    minTimerThreshold: u32,
    minSuccessThreshold: u32,
    successK: nat,             // growth factor of the success threshold
    maxSuccessThreshold: u32,
    timerK: nat                // growth factor of the timer threshold
  )

  /** The attribute defaults. */
  const DefaultParams: AarfParams := AarfParams(15, 10, 2, 60, 2)

  datatype Station = Station(
    counters: Counters,
    recovery: bool,          // the last rate change was an increase not yet confirmed
    retry: u32,              // failures since the last success
    timerTimeout: nat,
    successThreshold: u32
  )

  function Min(a: nat, b: nat): nat { if a < b then a else b }
  function Max(a: nat, b: nat): nat { if a > b then a else b }

  /** A new station: cleared counters, not in recovery, minimum thresholds. */
  function NewStation(p: AarfParams): (s: Station)
    ensures s.counters == NewCounters()
    ensures !s.recovery && s.retry == 0
    ensures s.successThreshold == p.minSuccessThreshold
    ensures s.timerTimeout == p.minTimerThreshold as nat
  {
    Station(NewCounters(), false, 0, p.minTimerThreshold, p.minSuccessThreshold)
  }

  /**
   * A data-failure report. In recovery only the first failure after the
   * increase falls back, and it makes the next increase harder to earn;
   * outside recovery every second failure falls back and resets both
   * thresholds to their minimums.
   */
  function OnFailure(s: Station, p: AarfParams): (r: Station)
    ensures r.counters.success == 0
    ensures r.counters.failed == Inc(s.counters.failed) && r.retry == Inc(s.retry)
    ensures r.recovery == s.recovery
    ensures r.counters.rate <= s.counters.rate <= r.counters.rate + 1
    // a failed probe: the rate falls back and the thresholds grow
    ensures s.recovery && r.retry == 1 ==>
              && r.counters.rate == Lower(s.counters.rate)
              && r.successThreshold == Min(s.successThreshold * p.successK, p.maxSuccessThreshold)
              && r.timerTimeout == Max(s.timerTimeout * p.timerK, p.minSuccessThreshold)
    ensures s.recovery && r.retry != 1 ==>
              && r.counters.rate == s.counters.rate
              && r.successThreshold == s.successThreshold
              && r.timerTimeout == s.timerTimeout
    ensures s.recovery ==> r.counters.timer == 0
    // plain fallback on every even retry count
    ensures !s.recovery ==>
              (r.counters.rate < s.counters.rate <==> s.counters.rate > 0 && r.retry % 2 == 0)
    ensures !s.recovery && r.retry % 2 == 0 ==>
              && r.successThreshold == p.minSuccessThreshold
              && r.timerTimeout == p.minTimerThreshold as nat
    ensures !s.recovery && r.retry % 2 == 1 ==>
              && r.successThreshold == s.successThreshold
              && r.timerTimeout == s.timerTimeout
    ensures !s.recovery ==>
              r.counters.timer == if r.retry >= 2 then 0 else Inc(s.counters.timer)
  {
    var c := s.counters;
    var bumped := s.(counters := c.(timer := Inc(c.timer), failed := Inc(c.failed), success := 0),
                     retry := Inc(s.retry));
    if s.recovery then
      var fallen :=
        if bumped.retry == 1 then
          bumped.(successThreshold := Min(s.successThreshold * p.successK, p.maxSuccessThreshold),
                  timerTimeout := Max(s.timerTimeout * p.timerK, p.minSuccessThreshold),
                  counters := bumped.counters.(rate := Lower(c.rate)))
        else
          bumped;
      fallen.(counters := fallen.counters.(timer := 0))
    else
      DecOddIffEven(bumped.retry);
      var fallen :=
        if Dec(bumped.retry) % 2 == 1 then
          bumped.(timerTimeout := p.minTimerThreshold, successThreshold := p.minSuccessThreshold,
                  counters := bumped.counters.(rate := Lower(c.rate)))
        else
          bumped;
      if bumped.retry >= 2 then fallen.(counters := fallen.counters.(timer := 0)) else fallen
  }

  /** The success that earns a rate increase, if the rate is not yet at the top. */
  predicate StepsUp(s: Station) {
    Inc(s.counters.success) == s.successThreshold || Inc(s.counters.timer) == s.timerTimeout
  }

  /**
   * A data-success report: it ends recovery; an increase, when earned and
   * possible, starts a new recovery period.
   */
  function OnSuccess(s: Station, p: AarfParams, n: u32): (r: Station)
    ensures r.counters.failed == 0 && r.retry == 0
    ensures s.counters.rate <= r.counters.rate <= s.counters.rate + 1
    ensures 1 <= n && s.counters.rate < n ==> r.counters.rate < n
    ensures r.counters.rate > s.counters.rate <==> StepsUp(s) && s.counters.rate < Dec(n)
    ensures r.recovery <==> r.counters.rate > s.counters.rate
    ensures r.counters.rate > s.counters.rate ==> r.counters.success == 0 && r.counters.timer == 0
    ensures r.counters.rate == s.counters.rate ==>
              r.counters.success == Inc(s.counters.success) && r.counters.timer == Inc(s.counters.timer)
    ensures r.successThreshold == s.successThreshold && r.timerTimeout == s.timerTimeout
  {
    var c := s.counters;
    var bumped := s.(counters := c.(timer := Inc(c.timer), success := Inc(c.success), failed := 0),
                     recovery := false, retry := 0);
    if (bumped.counters.success == s.successThreshold || bumped.counters.timer == s.timerTimeout)
       && c.rate < Dec(n)
    then
      bumped.(counters := bumped.counters.(rate := c.rate + 1, timer := 0, success := 0),
              recovery := true)
    else
      bumped
  }

  /**
   * A rate increase that fails at once is undone by that first failure,
   * and the success threshold grows by `successK` up to its cap.
   */
  lemma FailedIncreaseFallsBack(s: Station, p: AarfParams, n: u32)
    requires OnSuccess(s, p, n).counters.rate > s.counters.rate
    ensures OnFailure(OnSuccess(s, p, n), p).counters.rate == s.counters.rate
    ensures OnFailure(OnSuccess(s, p, n), p).successThreshold
            == Min(s.successThreshold * p.successK, p.maxSuccessThreshold)
    ensures OnFailure(OnSuccess(s, p, n), p).timerTimeout
            == Max(s.timerTimeout * p.timerK, p.minSuccessThreshold)
  {
  }

  /** `k` consecutive failure reports. */
  function FailureRun(s: Station, p: AarfParams, k: nat): Station {
    if k == 0 then s else OnFailure(FailureRun(s, p, k - 1), p)
  }

  /**
   * Once the first failure after an increase has been handled, further
   * failures in recovery never lower the rate again.
   */
  lemma {:induction false} RecoveryHoldsRate(s: Station, p: AarfParams, k: nat)
    requires s.recovery && s.retry >= 1 && s.retry + k < LIMIT
    ensures FailureRun(s, p, k).counters.rate == s.counters.rate
    ensures FailureRun(s, p, k).recovery
    ensures FailureRun(s, p, k).retry == s.retry + k
  {
    if k > 0 {
      RecoveryHoldsRate(s, p, k - 1);
    }
  }

  function Floor0(x: int): nat { if x < 0 then 0 else x }

  /**
   * Outside recovery, starting from a success, `k` failures lower the rate
   * by one step for every two of them, down to index 0.
   */
  lemma {:induction false} FailuresHalveIntoFallbacks(s: Station, p: AarfParams, k: nat)
    requires !s.recovery && s.retry == 0 && k < LIMIT
    ensures FailureRun(s, p, k).counters.rate == Floor0(s.counters.rate - k / 2)
    ensures FailureRun(s, p, k).retry == k
    ensures !FailureRun(s, p, k).recovery
  {
    if k > 0 {
      FailuresHalveIntoFallbacks(s, p, k - 1);
    }
  }

  /** The rate index stays within the `n` supported rates under any report. */
  lemma ReportsKeepRateValid(s: Station, p: AarfParams, n: u32)
    requires 1 <= n && ValidRate(s.counters, n)
    ensures ValidRate(OnFailure(s, p).counters, n)
    ensures ValidRate(OnSuccess(s, p, n).counters, n)
  {
  }
}
