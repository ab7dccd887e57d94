# Rate adaptation in the CARA-CCA and hybrid Wi-Fi rate managers

This project models, in Dafny, the per-destination rate-adaptation logic of two
ns-3 Wi-Fi remote-station managers and proves properties of that model.

- **CaraCcaWifiManager** runs CARA (Kim, Kim, Choi and Qiao, "CARA:
  Collision-Aware Rate Adaptation for IEEE 802.11 WLANs") on each destination.
  It adds a collision gate: a failure lowers the rate only if the channel was
  not CCA-busy at the last transmission.
- **HybridWifiManager** keeps one record per destination. In `mode` 0 it runs
  CARA with the gate disabled, and in `mode` 1 it runs AARF. A regime detector
  shared by all destinations folds success and failure counts into a history
  of at most ten success ratios. A 3-sigma jump of the newest ratio starts a
  probe. The probe hands the next reports first to CARA, then to AARF, and
  keeps whichever law collected more successes.

Each report handler is a pure step function over immutable records:

| file | module | contents |
|---|---|---|
| `u32.dfy` | `U32` | `uint32_t` increment and decrement with wrap-around |
| `rate_state.dfy` | `RateState` | the counters both laws share (rate, success, failed, timer), station identifiers, and the RTS rate both managers use |
| `cara_law.dfy` | `CaraLaw` | the CARA law with the collision gate as a parameter |
| `aarf_law.dfy` | `AarfLaw` | the hybrid per-station record and the AARF law |
| `regime_detector.dfy` | `RegimeDetector` | the window fold, the ratio history and the jump test |
| `cara_cca_manager.dfy` | `CaraCcaManager` | the CARA-CCA manager |
| `hybrid_manager.dfy` | `HybridManager` | the hybrid manager, its probe state machine and its event reducer |
| `hybrid_properties.dfy` | `HybridProperties` | the invariant, and the probe's start, schedule and end |

Modelling choices:

- Integers:
  - `uint32_t` fields are the subset type `u32`. Their `++` wraps explicitly.
  - `m_retry - 1` and `GetNSupported () - 1` are computed with `uint32_t`
    underflow.
  - Thresholds are unsigned, as declared. The multipliers `successK` and
    `timerK` are doubles in the source; here they are natural numbers
    (default 2).
- `mode` is an `int`, as in the source: 0 is CARA and 1 is AARF.
  `HybridProperties.ReachableStatesAreBounded` proves that no other value is
  ever assigned.
- Ratios in the history are exact `real`s. The jump test
  `|last - mean| > 3 * sqrt(variance)` is stated as
  `(last - mean)^2 > 9 * variance`. `RegimeDetector.JumpIsThreeSigma` proves
  the two forms agree for any non-negative square root of the variance.
- The number of supported rates `n` is a parameter of every call that needs
  it, because it comes from the base class (`GetNSupported`). Lemmas over runs
  hold `n` fixed.

Where the code and the usual description of the algorithm differ, the model
follows the code:

- The window folds when **either** counter reaches 1000, not when their sum
  does.
- No probe runs at start-up, because `onlyStarted` is cleared in the
  constructor.
- The report that starts a probe is handled, and tallied, under CARA.
  Because `TryDoProbe` runs before the tally and the station update, CARA then
  gets the next 500 reports and AARF the 499 after them. The 1000th report
  after the start ends the probe, is handled by the winner and is not
  tallied. So the split is 501/499, not 500/500 (`HybridProperties.ProbeStart` with
  `HybridProperties.FullProbe`).
- AARF raises the rate when the timer *equals* its threshold. CARA raises it
  when the timer *reaches or exceeds* its threshold.

## Model

| member | source | states |
|---|---|---|
| `U32.DecOddIffEven` | src/wifi/model/hybrid-wifi-manager.cc:354 | the fallback test `(retry - 1) % 2 == 1` in `uint32_t` holds exactly when `retry` is even, the wrapped `retry == 0` included |
| `RateState.NewCounters` | src/wifi/model/cara-cca-wifi-manager.cc:88-98 | a new CARA-CCA station has rate, success, failed and timer all 0 |
| `RateState.RaiseStaysValid` | src/wifi/model/cara-cca-wifi-manager.cc:163-166 | raising a valid rate index never leaves `[0, n-1]`; it goes up by one exactly when the index is below `n - 1` |
| `CaraLaw.OnFailure` | src/wifi/model/cara-cca-wifi-manager.cc:106-131 | a failure clears `success`. Fallback happens exactly when the incremented failure count reaches the threshold and the channel is free. A fallback resets `failed` and `timer` and lowers the rate by one, unless the rate is already 0. Without a fallback, the rate is kept and `failed` and `timer` each grow by one. The rate drops exactly when it is above 0 and fallback happens |
| `CaraLaw.OnSuccess` | src/wifi/model/cara-cca-wifi-manager.cc:148-173 | a success clears `failed` and raises the rate by at most one, never past `n - 1`; it raises exactly when `success` hits the threshold or `timer` reaches the timeout and the rate is below the top; the trigger resets `success` and `timer` even at the top rate |
| `CaraLaw.NoProbeAfterSuccess` | src/wifi/model/cara-cca-wifi-manager.cc:202-209 | with a probe threshold of at least 1, right after a success RTS is sent only when normally required |
| `CaraLaw.FailuresNeverRaise` | src/wifi/model/cara-cca-wifi-manager.cc:106-131 | no run of failure reports, under any gate values, ends at a higher rate |
| `CaraLaw.FreeFailuresLowerRate` | src/wifi/model/cara-cca-wifi-manager.cc:120-130 | on a free channel, at least one failure and enough to reach the failure threshold lower a non-zero rate at least once |
| `CaraLaw.BusyFailuresKeepRate` | src/wifi/model/cara-cca-wifi-manager.cc:111-131 | on a busy channel any number of failures keeps the rate, and `failed` and `timer` each grow by the number of failures |
| `CaraLaw.SuccessesBelowTrigger` | src/wifi/model/cara-cca-wifi-manager.cc:153-170 | successes that reach neither the success threshold nor the timeout only count, leaving the rate alone |
| `CaraLaw.SuccessThresholdRaisesOnce` | src/wifi/model/cara-cca-wifi-manager.cc:153-170 | from reset counters below the top rate, exactly `successThreshold` successes raise the rate by exactly one when the timeout is not shorter |
| `CaraLaw.ReportsKeepRateValid` | src/wifi/model/cara-cca-wifi-manager.cc:120-166 | with `n >= 1`, neither report takes the rate index out of `[0, n-1]` |
| `AarfLaw.NewStation` | src/wifi/model/hybrid-wifi-manager.cc:134-150 | a new hybrid station has rate, success, failed, timer and retry 0, is not in recovery, and starts with the minimum success and timer thresholds |
| `AarfLaw.OnFailure` | src/wifi/model/hybrid-wifi-manager.cc:325-371 | an AARF failure grows `failed` and `retry`, clears `success`, leaves `recovery` as it was, and lowers the rate by at most one. In recovery, the first failure lowers the rate (floored at 0), caps the success threshold at `min(st * successK, max)` and floors the timer threshold at `max(tt * timerK, minSuccess)`. Later failures in recovery change neither rate nor thresholds, and every failure in recovery resets the timer. Outside recovery, fallback happens exactly on even retry counts: it lowers the rate by one unless the rate is already 0, and resets both thresholds to their minimums. The timer resets once `retry >= 2` |
| `AarfLaw.OnSuccess` | src/wifi/model/hybrid-wifi-manager.cc:428-446 | an AARF success clears `failed`, `retry` and `recovery`. It raises the rate by one, never past `n - 1`, exactly when `success` hits the threshold or `timer` equals the timeout and the rate is below the top. Recovery is set exactly when the rate was raised. The thresholds never change |
| `AarfLaw.FailedIncreaseFallsBack` | src/wifi/model/hybrid-wifi-manager.cc:332-350 | a rate increase followed at once by a failure returns to the old rate, with the success threshold grown by `successK` up to its cap |
| `AarfLaw.RecoveryHoldsRate` | src/wifi/model/hybrid-wifi-manager.cc:332-350 | once in recovery with `retry >= 1`, any number of further failures keeps the rate and recovery |
| `AarfLaw.FailuresHalveIntoFallbacks` | src/wifi/model/hybrid-wifi-manager.cc:351-370 | outside recovery after a success, `k` failures lower the rate by `k / 2` steps, floored at 0 |
| `AarfLaw.ReportsKeepRateValid` | src/wifi/model/hybrid-wifi-manager.cc:325-446 | with `n >= 1`, neither AARF report takes the rate index out of `[0, n-1]` |
| `RegimeDetector.Ratio` | src/wifi/model/hybrid-wifi-manager.cc:167 | the success ratio lies in [0, 1]; it is 1 exactly when there were no failures and 0 exactly when there were no successes |
| `RegimeDetector.Fold` | src/wifi/model/hybrid-wifi-manager.cc:152-176 | the window folds exactly when either counter reaches 1000; otherwise nothing changes. A fold zeroes both counters. It appends the ratio after dropping the oldest entry if ten are held (FIFO), so at most ten entries remain, all in [0, 1] |
| `RegimeDetector.RepeatedBelowThreshold` | src/wifi/model/hybrid-wifi-manager.cc:155-160 | fewer than 1000 identical reports into an empty window only count and never fold |
| `RegimeDetector.RepeatedFoldsOnce` | src/wifi/model/hybrid-wifi-manager.cc:155-172 | 1000 identical reports into an empty window fold exactly once, appending 1.0 for successes and 0.0 for failures |
| `RegimeDetector.ThousandEachScenario` | src/wifi/model/hybrid-wifi-manager.cc:152-176 | 1000 successes then 1000 failures leave the history `[1.0, 0.0]` |
| `RegimeDetector.SquaredDeviationNonNegative` | src/wifi/model/hybrid-wifi-manager.cc:205-213 | the accumulated squared deviations, hence the variance, are never negative |
| `RegimeDetector.JumpIsThreeSigma` | src/wifi/model/hybrid-wifi-manager.cc:213-214 | the squared jump test agrees with `|last - mean| > 3 * sigma` for every non-negative `sigma` whose square is the population variance of the older ratios |
| `RegimeDetector.ShortHistoryNeverJumps` | src/wifi/model/hybrid-wifi-manager.cc:186-189 | with fewer than five ratios the jump test is false |
| `RegimeDetector.ConstantHistoryJump` | src/wifi/model/hybrid-wifi-manager.cc:191-214 | when all older ratios are equal, the test fires exactly when the newest ratio differs from them |
| `RegimeDetector.SharpDropScenario` | src/wifi/model/hybrid-wifi-manager.cc:183-226 | the history `[0.9, 0.91, 0.89, 0.90, 0.10]` jumps |
| `RegimeDetector.DoesSuccessRatioJump` | src/wifi/model/hybrid-wifi-manager.cc:183-226 | the two-pass loop (sum for the mean, then squared deviations) computes exactly the jump test: at least five ratios, newest versus mean and population variance of the rest |
| `CaraCcaManager.Init` | src/wifi/model/cara-cca-wifi-manager.cc:75-82 | a new manager keeps the given thresholds, has the CCA flag clear, and every destination starts from the new-station counters |
| `CaraCcaManager.Lookup` | src/wifi/model/cara-cca-wifi-manager.cc:88-98 | a station seen for the first time starts from the new-station counters |
| `CaraCcaManager.ReportSifsAfterTx` | src/wifi/model/hybrid-wifi-manager.h:104-107 | the CCA sample hook overwrites only the busy flag |
| `CaraCcaManager.ReportDataFailed` | src/wifi/model/cara-cca-wifi-manager.cc:106-133 | a failure applies CARA to that station only, gated on the channel having been free; a busy sample keeps its rate; the busy flag is false afterwards |
| `CaraCcaManager.ReportDataOk` | src/wifi/model/cara-cca-wifi-manager.cc:148-173 | a success applies CARA to that station only; the busy flag is false afterwards |
| `CaraCcaManager.NeedRts` | src/wifi/model/cara-cca-wifi-manager.cc:202-209 | RTS is sent if and only if it is normally required or the station's failure count has reached the probe threshold |
| `CaraCcaManager.DataRate` | src/wifi/model/cara-cca-wifi-manager.cc:185-192 | the data rate index is the station's current rate index, and a valid index into the `n` supported rates |
| `CaraCcaManager.FailureDataRate` | src/wifi/model/cara-cca-wifi-manager.cc:111-131 | a failure never raises the data rate, and a failure sampled as CCA-busy keeps it exactly |
| `RateState.RtsRate` | src/wifi/model/cara-cca-wifi-manager.cc:193-200 | RTS always goes at index 0, the lowest supported rate, valid for `n >= 1`; the hybrid manager does the same (`hybrid-wifi-manager.cc`, lines 467-474) |
| `CaraCcaManager.ReportsKeepRatesValid` | src/wifi/model/cara-cca-wifi-manager.cc:106-173 | with `n >= 1`, no report or sample takes any station's rate out of `[0, n-1]` |
| `CaraCcaManager.NoForcedRtsAfterSuccess` | src/wifi/model/cara-cca-wifi-manager.cc:148-209 | with a probe threshold of at least 1, after a success RTS follows `normally` exactly |
| `CaraCcaManager.CollisionsNeverLowerRate` | src/wifi/model/cara-cca-wifi-manager.cc:115-132 | failures each preceded by a busy sample never lower the rate. `failed` grows by their number, other stations are untouched and the busy flag ends clear |
| `CaraCcaManager.FreeFailureAfterCollisionsLowers` | src/wifi/model/cara-cca-wifi-manager.cc:120-132 | after busy failures have pushed `failed` to the threshold, the next failure on a free channel lowers a non-zero rate by one |
| `CaraCcaManager.TwoFreeFailuresScenario` | src/wifi/model/cara-cca-wifi-manager.cc:106-131 | failure threshold 2, rate 3: two free failures give rate 2 and `failed` 0 |
| `CaraCcaManager.TenSuccessesScenario` | src/wifi/model/cara-cca-wifi-manager.cc:148-173 | success threshold 10, five rates: ten successes from rate 0 give rate 1 |
| `HybridManager.Init` | src/wifi/model/hybrid-wifi-manager.cc:119-128 | the manager starts in CARA, not probing, with no start-up probe requested |
| `HybridManager.Winner` | src/wifi/model/hybrid-wifi-manager.cc:272-279 | a finished probe picks CARA exactly when AARF's tally is smaller; ties go to AARF |
| `HybridManager.TryDoProbe` | src/wifi/model/hybrid-wifi-manager.cc:228-286 | the window is folded on every report. When idle, a probe starts exactly on the start-up flag or a fresh fold whose history jumps; starting sets CARA, countdown 1000 and zero tallies; otherwise nothing else changes. When probing, the countdown drops by one whatever the history, the mode turns AARF at 500, and at 0 the probe ends with the winner |
| `HybridManager.ReportDataFailed` | src/wifi/model/hybrid-wifi-manager.cc:294-373 | a failure is counted and the probe advanced before the station update, which uses the mode left in force. Under CARA the AARF fields stay stale; other stations are untouched |
| `HybridManager.ReportDataOk` | src/wifi/model/hybrid-wifi-manager.cc:387-447 | a success is counted and the probe advanced, then tallied for the law in force if still probing, then applied to the station under that law. Under CARA the AARF fields stay stale |
| `HybridManager.ReportSifsAfterTx` | src/wifi/model/hybrid-wifi-manager.h:104-107 | the CCA sample hook overwrites only the busy flag |
| `HybridManager.NeedRts` | src/wifi/model/hybrid-wifi-manager.cc:476-488 | RTS is forced beyond `normally` only in mode 0, and exactly when the station's failures reach the probe threshold |
| `HybridManager.DataRate` | src/wifi/model/hybrid-wifi-manager.cc:459-466 | the data rate index is the station's current rate index, and a valid index into the `n` supported rates, whichever law set it |
| `HybridProperties.FailureNeverRaisesDataRate` | src/wifi/model/hybrid-wifi-manager.cc:294-373 | a failure never raises the station's data rate under whichever law the probe leaves in force |
| `HybridProperties.InitSatisfiesInv` | src/wifi/model/hybrid-wifi-manager.cc:119-128 | the initial manager satisfies the invariant |
| `HybridProperties.ProbedKeepsInv` | src/wifi/model/hybrid-wifi-manager.cc:228-286 | counting a report and advancing the probe keeps the history within ten ratios in [0, 1] and the window below 1000. It keeps the countdown in [1, 1000] while probing, and leaves room in the tallies for the report's own success |
| `HybridProperties.StepKeepsInv` | src/wifi/model/hybrid-wifi-manager.cc:294-447 | every report and every CCA sample keeps the invariant, station rates in `[0, n-1]` included |
| `HybridProperties.RunKeepsInv` | src/wifi/model/hybrid-wifi-manager.cc:294-447 | every run of events keeps the invariant |
| `HybridProperties.ReachableStatesAreBounded` | src/wifi/model/hybrid-wifi-manager.h:83-101 | in every state reachable from the start, rates are in range, the history holds at most ten ratios, and `mode` is 0 or 1 |
| `HybridProperties.NoStartupProbe` | src/wifi/model/hybrid-wifi-manager.cc:243-244 | the first event after start-up never starts a probe |
| `HybridProperties.ProbeStart` | src/wifi/model/hybrid-wifi-manager.cc:228-259 | an idle manager starts a probe exactly on a data report whose fold appended a ratio that jumps. That report is handled under CARA with countdown 1000, and its success is tallied for CARA |
| `HybridProperties.ProbeIsShared` | src/wifi/model/hybrid-wifi-manager.h:83-101 | reports for different stations advance the single probe and window identically |
| `HybridProperties.CcaSampleIgnored` | src/wifi/model/hybrid-wifi-manager.cc:311 | with the collision gate commented out, a report's effect does not depend on the last CCA sample |
| `HybridProperties.ProbeTick` | src/wifi/model/hybrid-wifi-manager.cc:261-266 | a report of a running probe with more than one to go decrements the countdown. Its law is CARA above 500 and AARF from 500 down, and a success is tallied for that law |
| `HybridProperties.ProbeEnd` | src/wifi/model/hybrid-wifi-manager.cc:268-285 | the last probe report ends the probe with the winner in force and untallied; the deciding tallies are at most 501 for CARA and 499 for AARF |
| `HybridProperties.StepKeepsProbeInv` | src/wifi/model/hybrid-wifi-manager.cc:228-286 | every event keeps the manager-wide part of the invariant, for any `n` |
| `HybridProperties.ProbeSchedule` | src/wifi/model/hybrid-wifi-manager.cc:261-285 | while a probe runs, the report at countdown `t` is handled by CARA when `t > 500` and by AARF otherwise; the countdown falls by one per report, never by a jump |
| `HybridProperties.FullProbe` | src/wifi/model/hybrid-wifi-manager.cc:261-285 | a whole probe from the state its starting report leaves (which `ProbeStart` shows is handled by CARA): the next 500 reports go to CARA and the following 499 to AARF. The 1000th report after the start ends the probe with the winner, decided on tallies of at most 501 and 499 |

## Left out

- The simulation programs under `scratch/` only wire up nodes, channels, mobility, routing, flow monitoring and plots. They contain no rate-control logic.
- `WifiTxVector` fields other than the rate index are base-class look-ups and are not modelled: transmit power, retry count, guard interval, antennas and STBC. The model returns only the chosen rate index.
- Logging is not modelled: `NS_LOG_*` and `Simulator::Now`. Neither are `totalPackets` and `rateDecreased`, which are written but never read by a decision.
- The no-op hooks `DoReportRtsFailed`, `DoReportRtsOk`, `DoReportRxOk`, `DoReportFinalRtsFailed` and `DoReportFinalDataFailed` are not modelled. Neither is `IsLowLatency`, which always returns true.
- `GetTypeId` attribute registration is not modelled; its defaults appear as `DefaultParams` and `DefaultConfig`.
- Floating point: ratios and the jump test use exact reals, and IEEE rounding is not claimed. `successK` and `timerK` are natural-number multipliers.
- AarfLaw.OnFailure: `timerTimeout` is an unbounded natural, because `(int)(timerTimeout * timerK)` can leave the `int` range, which is undefined behaviour in C++. For the same reason the `(int)` cast of the capped success threshold is assumed to fit.
- AarfLaw.OnFailure: `NS_ASSERT (m_retry >= 1)` is not modelled; it could only fail after `m_retry` wraps at 2^32 consecutive failures.
- CaraCcaManager.Init: the constructor never initialises `isCcaBusy`; the model assumes it starts false, so a failure before the first CCA sample is gated as on a free channel.
- HybridManager.Init: the window counters, probe tallies, probe countdown and `isCcaBusy` are not initialised by the constructor; they are assumed to start at 0 / false.
- HybridManager.ReportDataOk: the probe tallies are signed `int`s in the source but naturals here; the invariant bounds them by 501, so the width never matters.
- The number of supported rates is a per-call parameter. Run lemmas fix it, so a supported-rate set that grows during a run is not modelled. Bounds need `n >= 1`, since `n - 1` underflows otherwise.
- Stations are created on their first report, as the base class does on first contact. Removing a station is not modelled.
- `cara-cca-wifi-manager.h` is not part of this model. Its `isCcaBusy` is taken to be one flag per manager, and its SIFS sampling hook is taken to match the one in `hybrid-wifi-manager.h`.
- The managers run on the single simulator thread, so no concurrency is modelled.
