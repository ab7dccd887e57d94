/**
 * The hybrid rate manager: one record per destination, driven by CARA
 * (mode 0) or AARF (mode 1). A regime detector shared by all destinations
 * watches the success ratio; when the newest ratio jumps, a probe hands the
 * next reports to CARA, then to AARF, and keeps the law that collected more
 * successes.
 */
module HybridManager {
  import opened U32
  import opened RateState
  import CaraLaw
  import AarfLaw
  import opened RegimeDetector

  /** Values of `mode`. */
  const CARA: int := 0
  const AARF: int := 1

  /** Reports a probe counts down from. */
  const PROBE_LENGTH: u32 := 1000
  /** Countdown value at which the probe hands over from CARA to AARF. */
  const PROBE_SWITCH: u32 := 500

  datatype Config = Config(cara: CaraLaw.CaraParams, aarf: AarfLaw.AarfParams)

  /** The attribute defaults. */
  const DefaultConfig: Config := Config(CaraLaw.DefaultParams, AarfLaw.DefaultParams)

  /** The manager-wide state; everything but `stations` is shared by all destinations. */
  datatype Controller = Controller(
    config: Config,
    mode: int,
    doProbe: bool,
    packetsToSwitch: u32,      // probe countdown
    probeCaraTally: nat,       // successes while CARA governed the probe
    probeAarfTally: nat,       // successes while AARF governed the probe
    onlyStarted: bool,         // request for a probe at start-up
    isCcaBusy: bool,           // CCA sample of the last transmission
    window: Window,
    stations: map<StationId, AarfLaw.Station>
  )

  /**
   * A manager before any report: CARA, idle, no start-up probe. The window,
   * the tallies, the countdown and the CCA flag are taken to start at zero.
   */
  function Init(cfg: Config): (c: Controller)
    ensures c.mode == CARA && !c.doProbe && !c.onlyStarted
    ensures c.window == EmptyWindow && c.stations == map[]
  {
    Controller(cfg, CARA, false, 0, 0, 0, false, false, EmptyWindow, map[])
  }

  /** The station's record; a station is created on first contact. */
  function Lookup(c: Controller, id: StationId): AarfLaw.Station {
    if id in c.stations then c.stations[id] else AarfLaw.NewStation(c.config.aarf)
  }

  /** The winner of a finished probe; a tie goes to AARF. */
  function Winner(caraTally: nat, aarfTally: nat): (mode: int)
    ensures mode == CARA <==> aarfTally < caraTally
    ensures mode == AARF <==> caraTally <= aarfTally
  {
    if aarfTally < caraTally then CARA else AARF
  }

  /**
   * Runs once per data report, after the report has been counted into the
   * window: folds the window, starts a probe when idle and the fresh
   * history jumps, or advances a running probe by one report.
   */
  function TryDoProbe(c: Controller): (r: Controller)
    ensures r.config == c.config && r.stations == c.stations && r.isCcaBusy == c.isCcaBusy
    ensures r.window == Fold(c.window).0
    ensures !c.doProbe ==>
              (r.doProbe <==> c.onlyStarted || (Fold(c.window).1 && Jumps(r.window.history)))
    ensures !c.doProbe && r.doProbe ==>
              && r.mode == CARA && r.packetsToSwitch == PROBE_LENGTH && !r.onlyStarted
              && r.probeCaraTally == 0 && r.probeAarfTally == 0
    ensures !c.doProbe && !r.doProbe ==> r == c.(window := r.window)
    // a running probe counts down whatever the history says
    ensures c.doProbe ==>
              && r.packetsToSwitch == Dec(c.packetsToSwitch)
              && (r.doProbe <==> c.packetsToSwitch != 1)
              && r.onlyStarted == c.onlyStarted
              && r.probeCaraTally == c.probeCaraTally && r.probeAarfTally == c.probeAarfTally
    ensures c.doProbe && r.doProbe ==>
              r.mode == if c.packetsToSwitch == PROBE_SWITCH then AARF else c.mode
    ensures c.doProbe && !r.doProbe ==> r.mode == Winner(c.probeCaraTally, c.probeAarfTally)
  {
    var (w, folded) := Fold(c.window);
    var c1 := c.(window := w);
    if !c.doProbe then
      if c.onlyStarted || (folded && Jumps(w.history)) then
        c1.(mode := CARA, probeCaraTally := 0, probeAarfTally := 0,
            packetsToSwitch := PROBE_LENGTH, onlyStarted := false, doProbe := true)
      else
        c1
    else
      var mode := if c.packetsToSwitch == PROBE_SWITCH then AARF else c.mode;
      var left := Dec(c.packetsToSwitch);
      if left == 0 then
        c1.(packetsToSwitch := left, mode := Winner(c.probeCaraTally, c.probeAarfTally),
            doProbe := false)
      else
        c1.(packetsToSwitch := left, mode := mode)
  }

  /**
   * The station update of a failure under `mode`. CARA's collision gate is
   * disabled here: the failure always counts.
   */
  function StationOnFailure(s: AarfLaw.Station, mode: int, cfg: Config): AarfLaw.Station {
    if mode == CARA then s.(counters := CaraLaw.OnFailure(s.counters, cfg.cara, true))
    else if mode == AARF then AarfLaw.OnFailure(s, cfg.aarf)
    else s
  }

  /** The station update of a success under `mode`. */
  function StationOnSuccess(s: AarfLaw.Station, mode: int, cfg: Config, n: u32): AarfLaw.Station {
    if mode == CARA then s.(counters := CaraLaw.OnSuccess(s.counters, cfg.cara, n))
    else if mode == AARF then AarfLaw.OnSuccess(s, cfg.aarf, n)
    else s
  }

  /** The report counted into the window and the probe advanced. */
  function Probed(c: Controller, ok: bool): Controller {
    TryDoProbe(c.(window := Record(c.window, ok)))
  }

  /**
   * A data failure: counted, then the probe step, then the station update
   * under the mode the probe step left in force.
   */
  function ReportDataFailed(c: Controller, id: StationId): (r: Controller)
    ensures r == Probed(c, false).(stations := r.stations)
    ensures r.stations == c.stations[id := StationOnFailure(Lookup(c, id), r.mode, c.config)]
    // CARA leaves AARF's own fields as they were
    ensures r.mode == CARA ==>
              && r.stations[id].recovery == Lookup(c, id).recovery
              && r.stations[id].retry == Lookup(c, id).retry
              && r.stations[id].successThreshold == Lookup(c, id).successThreshold
              && r.stations[id].timerTimeout == Lookup(c, id).timerTimeout
  {
    var p := Probed(c, false);
    p.(stations := c.stations[id := StationOnFailure(Lookup(c, id), p.mode, c.config)])
  }

  /**
   * A data success for a station with `n` supported rates: counted, then the
   * probe step, then tallied for the law in force if a probe is running,
   * then the station update under that law.
   */
  function ReportDataOk(c: Controller, id: StationId, n: u32): (r: Controller)
    ensures var p := Probed(c, true);
            && r.mode == p.mode && r.doProbe == p.doProbe && r.packetsToSwitch == p.packetsToSwitch
            && r.window == p.window && r.onlyStarted == p.onlyStarted
            && r.config == c.config && r.isCcaBusy == c.isCcaBusy
            && r.probeCaraTally == p.probeCaraTally + (if p.doProbe && p.mode == CARA then 1 else 0)
            && r.probeAarfTally == p.probeAarfTally + (if p.doProbe && p.mode == AARF then 1 else 0)
    ensures r.stations == c.stations[id := StationOnSuccess(Lookup(c, id), r.mode, c.config, n)]
    ensures r.mode == CARA ==>
              && r.stations[id].recovery == Lookup(c, id).recovery
              && r.stations[id].retry == Lookup(c, id).retry
              && r.stations[id].successThreshold == Lookup(c, id).successThreshold
              && r.stations[id].timerTimeout == Lookup(c, id).timerTimeout
  {
    var p := Probed(c, true);
    var tallied := p.(probeCaraTally := if p.doProbe && p.mode == CARA then p.probeCaraTally + 1 else p.probeCaraTally,
                      probeAarfTally := if p.doProbe && p.mode == AARF then p.probeAarfTally + 1 else p.probeAarfTally);
    tallied.(stations := c.stations[id := StationOnSuccess(Lookup(c, id), tallied.mode, c.config, n)])
  }

  /** The CCA sample hook after a transmission: only the flag changes. */
  function ReportSifsAfterTx(c: Controller, busy: bool): (r: Controller)
    ensures r.isCcaBusy == busy && r == c.(isCcaBusy := r.isCcaBusy)
  {
    c.(isCcaBusy := busy)
  }

  /** RTS is forced only under CARA, once enough failures have accumulated. */
  function NeedRts(c: Controller, id: StationId, normally: bool): (r: bool)
    ensures normally ==> r
    ensures c.mode != CARA ==> r == normally
    ensures c.mode == CARA ==> (r <==> normally || Lookup(c, id).counters.failed >= c.config.cara.probeThreshold)
  {
    if c.mode == CARA then CaraLaw.NeedRts(Lookup(c, id).counters, c.config.cara, normally)
    else normally
  }

  /** The index of the data rate: the station's current rate. */
  function DataRate(c: Controller, id: StationId, n: u32): (r: u32)
    requires 1 <= n && ValidRate(Lookup(c, id).counters, n)
    ensures r < n
    ensures r == Lookup(c, id).counters.rate
  {
    Lookup(c, id).counters.rate
  }

  /** Everything the manager is told. */
  datatype Event =
    | DataOk(id: StationId)
    | DataFailed(id: StationId)
    | SifsAfterTx(busy: bool)

  /** One event, for stations with `n` supported rates. */
  function Step(c: Controller, e: Event, n: u32): Controller {
    match e
    case DataOk(id) => ReportDataOk(c, id, n)
    case DataFailed(id) => ReportDataFailed(c, id)
    case SifsAfterTx(busy) => ReportSifsAfterTx(c, busy)
  }

  function Run(c: Controller, events: seq<Event>, n: u32): Controller
    decreases |events|
  {
    if |events| == 0 then c else Run(Step(c, events[0], n), events[1..], n)
  }

  /** The mode in force for each event of a run, as seen right after it. */
  function ModesUsed(c: Controller, events: seq<Event>, n: u32): (modes: seq<int>)
    ensures |modes| == |events|
    decreases |events|
  {
    if |events| == 0 then []
    else
      var next := Step(c, events[0], n);
      [next.mode] + ModesUsed(next, events[1..], n)
  }
}
