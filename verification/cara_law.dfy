/**
 * The CARA law (Kim, Kim, Choi and Qiao, "CARA: Collision-Aware Rate
 * Adaptation for IEEE 802.11 WLANs") as both rate managers apply it to a
 * station's counters. The collision gate is a parameter: the CCA variant
 * passes "the channel was not busy", the hybrid manager, whose gate is
 * commented out, always passes `true`.
 */
module CaraLaw {
  import opened U32
  import opened RateState

  datatype CaraParams = CaraParams(
    probeThreshold: u32,     // consecutive failures that force an RTS probe
    failureThreshold: u32,   // consecutive failures that lower the rate
    successThreshold: u32,   // consecutive successes that raise the rate
    timerTimeout: u32        // reports since the last change that raise the rate
  )

  /** The attribute defaults. */
  const DefaultParams: CaraParams := CaraParams(1, 2, 10, 15)

  /** The failure that triggers a fallback: enough failures on a free channel. */
  predicate FallsBack(c: Counters, p: CaraParams, channelFree: bool) {
    Inc(c.failed) >= p.failureThreshold && channelFree
  }

  /** A data-failure report. */
  function OnFailure(c: Counters, p: CaraParams, channelFree: bool): (r: Counters)
    ensures r.success == 0
    ensures r.rate <= c.rate <= r.rate + 1
    ensures r.rate < c.rate <==> c.rate > 0 && FallsBack(c, p, channelFree)
    ensures FallsBack(c, p, channelFree) ==> r.failed == 0 && r.timer == 0
    ensures !FallsBack(c, p, channelFree) ==>
              r.rate == c.rate && r.failed == Inc(c.failed) && r.timer == Inc(c.timer)
  {
    var bumped := c.(timer := Inc(c.timer), failed := Inc(c.failed), success := 0);
    if bumped.failed >= p.failureThreshold && channelFree then
      bumped.(rate := Lower(c.rate), failed := 0, timer := 0)
    else
      bumped
  }

  /** The success that triggers a rate increase attempt. */
  predicate StepsUp(c: Counters, p: CaraParams) {
    Inc(c.success) == p.successThreshold || Inc(c.timer) >= p.timerTimeout
  }

  /**
   * A data-success report. The counters are reset when the trigger fires
   * even if the station already runs at its highest rate.
   */
  function OnSuccess(c: Counters, p: CaraParams, n: u32): (r: Counters)
    ensures r.failed == 0
    ensures c.rate <= r.rate <= c.rate + 1
    ensures 1 <= n && c.rate < n ==> r.rate < n
    ensures r.rate > c.rate <==> StepsUp(c, p) && c.rate < Dec(n)
    ensures StepsUp(c, p) ==> r.success == 0 && r.timer == 0
    ensures !StepsUp(c, p) ==> r.success == Inc(c.success) && r.timer == Inc(c.timer)
  {
    var bumped := c.(timer := Inc(c.timer), success := Inc(c.success), failed := 0);
    if bumped.success == p.successThreshold || bumped.timer >= p.timerTimeout then
      bumped.(rate := Raise(c.rate, n), timer := 0, success := 0)
    else
      bumped
  }

  /** RTS precedes the data frame when it normally would or after enough failures. */
  function NeedRts(c: Counters, p: CaraParams, normally: bool): bool {
    normally || c.failed >= p.probeThreshold
  }

  /** After a success RTS is only sent when it would be anyway. */
  lemma NoProbeAfterSuccess(c: Counters, p: CaraParams, n: u32, normally: bool)
    requires p.probeThreshold >= 1
    ensures NeedRts(OnSuccess(c, p, n), p, normally) == normally
  {
  }

  /** A run of failure reports, one per gate value. */
  function FailureRun(c: Counters, p: CaraParams, gates: seq<bool>): Counters
    decreases |gates|
  {
    if |gates| == 0 then c else FailureRun(OnFailure(c, p, gates[0]), p, gates[1..])
  }

  /** Failures never raise the rate. */
  lemma {:induction false} FailuresNeverRaise(c: Counters, p: CaraParams, gates: seq<bool>)
    ensures FailureRun(c, p, gates).rate <= c.rate
    decreases |gates|
  {
    if |gates| > 0 {
      FailuresNeverRaise(OnFailure(c, p, gates[0]), p, gates[1..]);
    }
  }

  /**
   * On a free channel, as many failures as are still missing to reach the
   * failure threshold (at least one) lower the rate at least once.
   */
  lemma {:induction false} FreeFailuresLowerRate(c: Counters, p: CaraParams, gates: seq<bool>)
    requires forall i :: 0 <= i < |gates| ==> gates[i]
    requires c.rate > 0 && c.failed + 1 < LIMIT
    requires |gates| >= 1 && c.failed + |gates| >= p.failureThreshold
    ensures FailureRun(c, p, gates).rate < c.rate
    decreases |gates|
  {
    var next := OnFailure(c, p, gates[0]);
    if FallsBack(c, p, true) {
      FailuresNeverRaise(next, p, gates[1..]);
    } else {
      FreeFailuresLowerRate(next, p, gates[1..]);
    }
  }

  /**
   * On a busy channel no number of failures lowers the rate; the failure
   * count and the timer keep growing instead.
   */
  lemma {:induction false} BusyFailuresKeepRate(c: Counters, p: CaraParams, gates: seq<bool>)
    requires forall i :: 0 <= i < |gates| ==> !gates[i]
    requires c.failed + |gates| < LIMIT && c.timer + |gates| < LIMIT
    ensures FailureRun(c, p, gates).rate == c.rate
    ensures FailureRun(c, p, gates).failed == c.failed + |gates|
    ensures FailureRun(c, p, gates).timer == c.timer + |gates|
    decreases |gates|
  {
    if |gates| > 0 {
      BusyFailuresKeepRate(OnFailure(c, p, gates[0]), p, gates[1..]);
    }
  }

  /** `k` consecutive success reports. */
  function SuccessRun(c: Counters, p: CaraParams, n: u32, k: nat): Counters {
    if k == 0 then c else OnSuccess(SuccessRun(c, p, n, k - 1), p, n)
  }

  /** Below both triggers successes only count. */
  lemma {:induction false} SuccessesBelowTrigger(c: Counters, p: CaraParams, n: u32, k: nat)
    requires c.success + k < p.successThreshold && c.timer + k < p.timerTimeout
    ensures SuccessRun(c, p, n, k).rate == c.rate
    ensures SuccessRun(c, p, n, k).success == c.success + k
    ensures SuccessRun(c, p, n, k).timer == c.timer + k
  {
    if k > 0 {
      SuccessesBelowTrigger(c, p, n, k - 1);
    }
  }

  /**
   * Starting from freshly reset counters below the top rate, exactly
   * `successThreshold` successes raise the rate by exactly one step, provided
   * the timer does not fire first.
   */
  lemma SuccessThresholdRaisesOnce(c: Counters, p: CaraParams, n: u32)
    requires c.success == 0 && c.timer == 0
    requires 1 <= p.successThreshold <= p.timerTimeout
    requires c.rate + 1 < n
    ensures SuccessRun(c, p, n, p.successThreshold as nat).rate == c.rate + 1
  {
    var k: nat := p.successThreshold as nat - 1;
    SuccessesBelowTrigger(c, p, n, k);
  }

  /**
   * The rate index stays within the `n` supported rates under any report,
   * whatever the gate.
   */
  lemma ReportsKeepRateValid(c: Counters, p: CaraParams, n: u32, gate: bool)
    requires 1 <= n && ValidRate(c, n)
    ensures ValidRate(OnFailure(c, p, gate), n)
    ensures ValidRate(OnSuccess(c, p, n), n)
  {
  }
}
