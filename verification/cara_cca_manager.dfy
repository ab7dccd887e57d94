/**
 * The CARA-CCA rate manager: plain CARA per destination, with a collision
 * gate. A CCA-busy sample taken right after the last transmission keeps a
 * failure from lowering the rate, since the failure is then blamed on a
 * collision rather than on a rate too high for the link.
 */
module CaraCcaManager {
  import opened U32
  import opened RateState
  import opened CaraLaw

  datatype Manager = Manager(
    params: CaraParams,
    isCcaBusy: bool,                      // CCA sample of the last transmission
    stations: map<StationId, Counters>
  )

  /**
   * A manager before any station was seen: every destination starts from
   * the new-station counters. The CCA flag is taken to start clear.
   */
  function Init(p: CaraParams): (m: Manager)
    ensures m.params == p && !m.isCcaBusy
    ensures forall id :: Lookup(m, id) == NewCounters()
  {
    Manager(p, false, map[])
  }

  /** The station's state; a station is created on first contact. */
  function Lookup(m: Manager, id: StationId): (c: Counters)
    ensures id !in m.stations ==> c == NewCounters()
  {
    if id in m.stations then m.stations[id] else NewCounters()
  }

  /** The CCA sample hook after a transmission: only the flag changes. */
  function ReportSifsAfterTx(m: Manager, busy: bool): (r: Manager)
    ensures r.isCcaBusy == busy
    ensures r.params == m.params && r.stations == m.stations
  {
    m.(isCcaBusy := busy)
  }

  /** A data failure, gated by the CCA sample, which it then consumes. */
  function ReportDataFailed(m: Manager, id: StationId): (r: Manager)
    ensures !r.isCcaBusy && r.params == m.params
    ensures r.stations.Keys == m.stations.Keys + {id}
    ensures r.stations[id] == OnFailure(Lookup(m, id), m.params, !m.isCcaBusy)
    ensures m.isCcaBusy ==> r.stations[id].rate == Lookup(m, id).rate
    ensures forall other :: other in m.stations && other != id ==>
              r.stations[other] == m.stations[other]
  {
    var st := OnFailure(Lookup(m, id), m.params, !m.isCcaBusy);
    m.(stations := m.stations[id := st], isCcaBusy := false)
  }

  /** A data success for a station with `n` supported rates; consumes the CCA sample. */
  function ReportDataOk(m: Manager, id: StationId, n: u32): (r: Manager)
    ensures !r.isCcaBusy && r.params == m.params
    ensures r.stations.Keys == m.stations.Keys + {id}
    ensures r.stations[id] == OnSuccess(Lookup(m, id), m.params, n)
    ensures forall other :: other in m.stations && other != id ==>
              r.stations[other] == m.stations[other]
  {
    var st := OnSuccess(Lookup(m, id), m.params, n);
    m.(stations := m.stations[id := st], isCcaBusy := false)
  }

  /** Whether RTS precedes the next data frame. */
  function NeedRts(m: Manager, id: StationId, normally: bool): (r: bool)
    ensures r <==> normally || Lookup(m, id).failed >= m.params.probeThreshold
  {
    CaraLaw.NeedRts(Lookup(m, id), m.params, normally)
  }

  /** The index of the data rate: the station's current rate. */
  function DataRate(m: Manager, id: StationId, n: u32): (r: u32)
    requires 1 <= n && ValidRate(Lookup(m, id), n)
    ensures r < n
    ensures r == Lookup(m, id).rate
  {
    Lookup(m, id).rate
  }

  /**
   * A failure never raises the data rate, and one sampled as CCA-busy keeps
   * it exactly.
   */
  lemma FailureDataRate(m: Manager, id: StationId, n: u32)
    requires 1 <= n && ValidRate(Lookup(m, id), n)
    ensures ValidRate(Lookup(ReportDataFailed(m, id), id), n)
    ensures DataRate(ReportDataFailed(m, id), id, n) <= DataRate(m, id, n)
    ensures m.isCcaBusy ==> DataRate(ReportDataFailed(m, id), id, n) == DataRate(m, id, n)
  {
  }

  /** Every known station runs at one of its `n` supported rates. */
  predicate RatesValid(m: Manager, n: u32) {
    forall id :: id in m.stations ==> ValidRate(m.stations[id], n)
  }

  /** No report takes a station's rate out of range. */
  lemma ReportsKeepRatesValid(m: Manager, id: StationId, n: u32, busy: bool)
    requires 1 <= n && RatesValid(m, n)
    ensures RatesValid(ReportDataFailed(m, id), n)
    ensures RatesValid(ReportDataOk(m, id, n), n)
    ensures RatesValid(ReportSifsAfterTx(m, busy), n)
  {
    CaraLaw.ReportsKeepRateValid(Lookup(m, id), m.params, n, !m.isCcaBusy);
  }

  /** A success clears the failure count, so RTS is then sent only when normally required. */
  lemma NoForcedRtsAfterSuccess(m: Manager, id: StationId, n: u32, normally: bool)
    requires m.params.probeThreshold >= 1
    ensures NeedRts(ReportDataOk(m, id, n), id, normally) == normally
  {
  }

  /** `k` failures of one station, each preceded by a busy CCA sample. */
  function BusyFailures(m: Manager, id: StationId, k: nat): Manager {
    if k == 0 then m else ReportDataFailed(ReportSifsAfterTx(BusyFailures(m, id, k - 1), true), id)
  }

  /**
   * Failures on a busy channel never lower the rate, however many; the
   * failure count keeps growing instead.
   */
  lemma {:induction false} CollisionsNeverLowerRate(m: Manager, id: StationId, k: nat)
    requires Lookup(m, id).failed + k < LIMIT && Lookup(m, id).timer + k < LIMIT
    ensures BusyFailures(m, id, k).params == m.params
    ensures k > 0 ==> !BusyFailures(m, id, k).isCcaBusy
    ensures Lookup(BusyFailures(m, id, k), id).rate == Lookup(m, id).rate
    ensures Lookup(BusyFailures(m, id, k), id).failed == Lookup(m, id).failed + k
    ensures forall other :: other in m.stations && other != id ==>
              other in BusyFailures(m, id, k).stations &&
              BusyFailures(m, id, k).stations[other] == m.stations[other]
  {
    if k > 0 {
      CollisionsNeverLowerRate(m, id, k - 1);
    }
  }

  /**
   * Once collisions have pushed the failure count to the threshold, the
   * next failure on a free channel lowers the rate.
   */
  lemma FreeFailureAfterCollisionsLowers(m: Manager, id: StationId, k: nat)
    requires !m.isCcaBusy || k > 0
    requires Lookup(m, id).failed + k + 1 < LIMIT && Lookup(m, id).timer + k < LIMIT
    requires Lookup(m, id).failed + k + 1 >= m.params.failureThreshold
    requires Lookup(m, id).rate > 0
    ensures Lookup(ReportDataFailed(BusyFailures(m, id, k), id), id).rate
            == Lookup(m, id).rate - 1
  {
    CollisionsNeverLowerRate(m, id, k);
  }

  /** Two failures on a free channel with threshold 2 take rate 3 down to 2. */
  lemma TwoFreeFailuresScenario()
    ensures var m := Manager(CaraParams(1, 2, 10, 15), false, map[7 := Counters(3, 0, 0, 0)]);
            var r := ReportDataFailed(ReportDataFailed(m, 7), 7);
            r.stations[7].rate == 2 && r.stations[7].failed == 0
  {
  }

  /** Ten successes from rate 0 of 5 with threshold 10 reach rate 1. */
  lemma TenSuccessesScenario()
    ensures SuccessRun(NewCounters(), CaraParams(1, 2, 10, 15), 5, 10).rate == 1
  {
    SuccessThresholdRaisesOnce(NewCounters(), CaraParams(1, 2, 10, 15), 5);
  }
}
