/**
 * Properties of the hybrid manager over runs of reports: the invariant
 * every reachable state keeps, how a probe starts, its fixed schedule, and
 * how it ends.
 */
module HybridProperties {
  import opened U32
  import opened RateState
  import CaraLaw
  import AarfLaw
  import opened RegimeDetector
  import opened HybridManager

  /** Every known station runs at one of its `n` supported rates. */
  predicate RatesValid(c: Controller, n: u32) {
    forall id :: id in c.stations ==> ValidRate(c.stations[id].counters, n)
  }

  /**
   * What holds in every state reached from `Init`: the mode is one of the
   * two laws; the history holds at most ten ratios in [0, 1]; the window
   * never reaches the fold threshold between reports; a running probe has
   * between 1 and 1000 reports to go, runs CARA until the countdown passes
   * 500 and AARF after, and its tallies are bounded by the reports each law
   * has had.
   */
  predicate Inv(c: Controller, n: u32) {
    ProbeInv(c) && RatesValid(c, n)
  }

  /** The part of the invariant about the manager-wide state. */
  predicate ProbeInv(c: Controller) {
    && !c.onlyStarted
    && (c.mode == CARA || c.mode == AARF)
    && |c.window.history| <= HISTORY_CAPACITY
    && InUnit(c.window.history)
    && c.window.successes < FOLD_THRESHOLD && c.window.failures < FOLD_THRESHOLD
    && (c.doProbe ==> 1 <= c.packetsToSwitch <= PROBE_LENGTH)
    && (c.doProbe ==> (c.mode == CARA <==> c.packetsToSwitch >= PROBE_SWITCH))
    && (c.doProbe && c.packetsToSwitch >= PROBE_SWITCH ==>
          c.probeAarfTally == 0 && c.probeCaraTally <= PROBE_LENGTH + 1 - c.packetsToSwitch)
    && (c.doProbe && c.packetsToSwitch < PROBE_SWITCH ==>
          c.probeCaraTally <= PROBE_SWITCH + 1 && c.probeAarfTally <= PROBE_SWITCH - c.packetsToSwitch)
  }

  lemma InitSatisfiesInv(cfg: Config, n: u32)
    ensures Inv(Init(cfg), n)
  {
  }

  /** The probe step alone keeps the window, history and countdown parts of the invariant. */
  lemma ProbedKeepsInv(c: Controller, ok: bool)
    requires ProbeInv(c)
    ensures var p := Probed(c, ok);
            && !p.onlyStarted && (p.mode == CARA || p.mode == AARF)
            && |p.window.history| <= HISTORY_CAPACITY && InUnit(p.window.history)
            && p.window.successes < FOLD_THRESHOLD && p.window.failures < FOLD_THRESHOLD
            && (p.doProbe ==> 1 <= p.packetsToSwitch <= PROBE_LENGTH)
            && (p.doProbe ==> (p.mode == CARA <==> p.packetsToSwitch >= PROBE_SWITCH))
            && (p.doProbe && p.packetsToSwitch >= PROBE_SWITCH ==>
                  p.probeAarfTally == 0 && p.probeCaraTally + 1 <= PROBE_LENGTH + 1 - p.packetsToSwitch)
            && (p.doProbe && p.packetsToSwitch < PROBE_SWITCH ==>
                  p.probeCaraTally <= PROBE_SWITCH + 1 && p.probeAarfTally + 1 <= PROBE_SWITCH - p.packetsToSwitch)
            && p.stations == c.stations
  {
  }

  /** Every event keeps the invariant, for stations with at least one rate. */
  lemma StepKeepsInv(c: Controller, e: Event, n: u32)
    requires 1 <= n && Inv(c, n)
    ensures Inv(Step(c, e, n), n)
  {
    StepKeepsProbeInv(c, e, n);
    match e
    case DataOk(id) =>
      ProbedKeepsInv(c, true);
      var s := Lookup(c, id);
      var mode := Probed(c, true).mode;
      AarfLaw.ReportsKeepRateValid(s, c.config.aarf, n);
      CaraLaw.ReportsKeepRateValid(s.counters, c.config.cara, n, true);
      assert ValidRate(StationOnSuccess(s, mode, c.config, n).counters, n);
    case DataFailed(id) =>
      ProbedKeepsInv(c, false);
      var s := Lookup(c, id);
      var mode := Probed(c, false).mode;
      AarfLaw.ReportsKeepRateValid(s, c.config.aarf, n);
      CaraLaw.ReportsKeepRateValid(s.counters, c.config.cara, n, true);
      assert ValidRate(StationOnFailure(s, mode, c.config).counters, n);
    case SifsAfterTx(busy) =>
  }

  lemma {:induction false} RunKeepsInv(c: Controller, events: seq<Event>, n: u32)
    requires 1 <= n && Inv(c, n)
    ensures Inv(Run(c, events, n), n)
    decreases |events|
  {
    if |events| > 0 {
      StepKeepsInv(c, events[0], n);
      RunKeepsInv(Step(c, events[0], n), events[1..], n);
    }
  }

  /**
   * Every state reached from the start keeps its rates in range, its
   * history within ten entries and its mode among the two laws.
   */
  lemma ReachableStatesAreBounded(cfg: Config, events: seq<Event>, n: u32)
    requires 1 <= n
    ensures var c := Run(Init(cfg), events, n);
            && RatesValid(c, n)
            && |c.window.history| <= HISTORY_CAPACITY
            && (c.mode == CARA || c.mode == AARF)
  {
    InitSatisfiesInv(cfg, n);
    RunKeepsInv(Init(cfg), events, n);
  }

  /** No probe runs at start-up: the first report leaves the manager idle. */
  lemma NoStartupProbe(cfg: Config, e: Event, n: u32)
    ensures !Step(Init(cfg), e, n).doProbe
  {
  }

  /**
   * An idle manager starts a probe only on a data report whose fold
   * appended a ratio that jumps; the report itself is handled by CARA and
   * a success is tallied for CARA.
   */
  lemma ProbeStart(c: Controller, e: Event, n: u32)
    requires ProbeInv(c) && !c.doProbe
    ensures var r := Step(c, e, n);
            r.doProbe <==>
              && !e.SifsAfterTx?
              && var w := Record(c.window, e.DataOk?);
                 Fold(w).1 && Jumps(Fold(w).0.history)
    ensures var r := Step(c, e, n);
            r.doProbe ==>
              && r.mode == CARA && r.packetsToSwitch == PROBE_LENGTH
              && r.probeCaraTally == (if e.DataOk? then 1 else 0) && r.probeAarfTally == 0
  {
  }

  /** Reports of any station advance the one shared probe alike. */
  lemma ProbeIsShared(c: Controller, id1: StationId, id2: StationId, n: u32)
    ensures var a := ReportDataOk(c, id1, n);
            var b := ReportDataOk(c, id2, n);
            a.mode == b.mode && a.doProbe == b.doProbe && a.packetsToSwitch == b.packetsToSwitch
            && a.probeCaraTally == b.probeCaraTally && a.probeAarfTally == b.probeAarfTally
            && a.window == b.window
    ensures var a := ReportDataFailed(c, id1);
            var b := ReportDataFailed(c, id2);
            a.mode == b.mode && a.doProbe == b.doProbe && a.packetsToSwitch == b.packetsToSwitch
            && a.window == b.window
  {
  }

  /**
   * The CCA sample never influences the hybrid manager: with the collision
   * gate disabled, a report does the same whatever the last sample was.
   */
  lemma CcaSampleIgnored(c: Controller, e: Event, n: u32, busy: bool)
    requires !e.SifsAfterTx?
    ensures Step(c.(isCcaBusy := busy), e, n) == Step(c, e, n).(isCcaBusy := busy)
  {
    var ok := e.DataOk?;
    assert Probed(c.(isCcaBusy := busy), ok) == Probed(c, ok).(isCcaBusy := busy);
    assert Lookup(c.(isCcaBusy := busy), e.id) == Lookup(c, e.id);
  }

  /**
   * Whichever law the probe leaves in force, a failure never raises the
   * station's data rate.
   */
  lemma FailureNeverRaisesDataRate(c: Controller, id: StationId, n: u32)
    requires 1 <= n && ValidRate(Lookup(c, id).counters, n)
    ensures ValidRate(Lookup(ReportDataFailed(c, id), id).counters, n)
    ensures DataRate(ReportDataFailed(c, id), id, n) <= DataRate(c, id, n)
  {
  }

  /** One report of a running probe that does not end it. */
  lemma ProbeTick(c: Controller, e: Event, n: u32)
    requires ProbeInv(c) && c.doProbe && c.packetsToSwitch > 1 && !e.SifsAfterTx?
    ensures var r := Step(c, e, n);
            && r.doProbe
            && r.packetsToSwitch == c.packetsToSwitch - 1
            && r.mode == (if c.packetsToSwitch > PROBE_SWITCH then CARA else AARF)
            && r.probeCaraTally == c.probeCaraTally + (if e.DataOk? && r.mode == CARA then 1 else 0)
            && r.probeAarfTally == c.probeAarfTally + (if e.DataOk? && r.mode == AARF then 1 else 0)
  {
  }

  /**
   * The last report of a probe: the law with more successes wins, a tie
   * goes to AARF, the report is handled by the winner and not tallied.
   */
  lemma ProbeEnd(c: Controller, e: Event, n: u32)
    requires ProbeInv(c) && c.doProbe && c.packetsToSwitch == 1 && !e.SifsAfterTx?
    ensures var r := Step(c, e, n);
            && !r.doProbe
            && r.mode == Winner(c.probeCaraTally, c.probeAarfTally)
            && r.probeCaraTally == c.probeCaraTally && r.probeAarfTally == c.probeAarfTally
    ensures c.probeCaraTally <= PROBE_SWITCH + 1 && c.probeAarfTally <= PROBE_SWITCH - 1
  {
  }

  predicate AllReports(events: seq<Event>) {
    forall i :: 0 <= i < |events| ==> !events[i].SifsAfterTx?
  }

  /**
   * The schedule of a running probe: the report at countdown value `t`
   * is handled by CARA while `t > 500` and by AARF after, and the probe is
   * still running with one report to go after all but the last.
   */
  lemma {:induction false} ProbeSchedule(c: Controller, events: seq<Event>, n: u32)
    requires ProbeInv(c) && c.doProbe && AllReports(events)
    requires |events| < c.packetsToSwitch
    ensures forall i :: 0 <= i < |events| ==>
              ModesUsed(c, events, n)[i] == if c.packetsToSwitch - i > PROBE_SWITCH then CARA else AARF
    ensures Run(c, events, n).doProbe
    ensures Run(c, events, n).packetsToSwitch == c.packetsToSwitch - |events|
    ensures ProbeInv(Run(c, events, n))
    decreases |events|
  {
    if |events| > 0 {
      var next := Step(c, events[0], n);
      ProbeTick(c, events[0], n);
      StepKeepsProbeInv(c, events[0], n);
      ProbeSchedule(next, events[1..], n);
      var rest := ModesUsed(next, events[1..], n);
      assert ModesUsed(c, events, n) == [next.mode] + rest;
      forall i | 1 <= i < |events|
        ensures ModesUsed(c, events, n)[i] == if c.packetsToSwitch - i > PROBE_SWITCH then CARA else AARF
      {
        assert ModesUsed(c, events, n)[i] == rest[i - 1];
      }
    }
  }

  /** The manager-wide part of the invariant holds whatever `n` is. */
  lemma StepKeepsProbeInv(c: Controller, e: Event, n: u32)
    requires ProbeInv(c)
    ensures ProbeInv(Step(c, e, n))
  {
    if !e.SifsAfterTx? {
      ProbedKeepsInv(c, e.DataOk?);
    }
  }

  /**
   * A whole probe, from the state the starting report leaves (see
   * `ProbeStart`, which handles that report under CARA): the next 500
   * reports are handled by CARA, the 499 after them by AARF, and the 1000th
   * report after the start ends the probe, is handled by the winner and is
   * not tallied. So CARA is tried on 501 reports and AARF on 499.
   */
  lemma FullProbe(started: Controller, middle: seq<Event>, last: Event, n: u32)
    requires ProbeInv(started) && started.doProbe && started.packetsToSwitch == PROBE_LENGTH
    requires AllReports(middle) && |middle| == PROBE_LENGTH - 1 && !last.SifsAfterTx?
    ensures forall i :: 0 <= i < |middle| ==>
              ModesUsed(started, middle, n)[i] == if i <= PROBE_SWITCH - 1 then CARA else AARF
    ensures var before := Run(started, middle, n);
            var after := Step(before, last, n);
            && before.doProbe && !after.doProbe
            && after.mode == Winner(before.probeCaraTally, before.probeAarfTally)
            && before.probeCaraTally <= PROBE_SWITCH + 1
            && before.probeAarfTally <= PROBE_SWITCH - 1
  {
    ProbeSchedule(started, middle, n);
    var before := Run(started, middle, n);
    ProbeEnd(before, last, n);
  }
}
