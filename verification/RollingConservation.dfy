/** Signed conservation over every run of live samples, stored pairs and restored states. */
module RollingConservation {
  import opened Wrappers
  import opened Rounding
  import opened TimeSeries
  import opened EnergyFlows
  import opened RollingLedger
  import opened RollingRuns
  import opened EnergyBackfill
  import opened EnergyIntegration

  /** Two consecutive stored values of a key, in ms, that a pass integrates into one tier. */
  datatype Pair = Pair(site: Site, key: string, from: int, vFrom: real, until: int, vUntil: real, tier: Tier) {
    function Deposited(): Deposit {
      PairDeposit(site, key, TsPoint(from, Some(vFrom)), TsPoint(until, Some(vUntil)), tier).deposit
    }
  }

  datatype Input = Sampled(ts: int, reading: Reading) | Stored(pair: Pair) | Restored(env: Envelope)

  function StepOf(x: Input): Step {
    match x
    case Sampled(ts, reading) => Sample(ts, reading)
    case Stored(pair) => Add(pair.Deposited())
    case Restored(env) => Load(env)
  }

  function Steps(inputs: seq<Input>): (r: seq<Step>)
    ensures |r| == |inputs| && forall i :: 0 <= i < |r| ==> r[i] == StepOf(inputs[i])
  {
    if inputs == [] then [] else Steps(inputs[..|inputs| - 1]) + [StepOf(inputs[|inputs| - 1])]
  }

  /** What a pass looks at takes time. */
  predicate Forward(inputs: seq<Input>) {
    forall i :: 0 <= i < |inputs| && inputs[i].Stored? ==> inputs[i].pair.from < inputs[i].pair.until
  }

  // ---- The reference: no buckets, no directions, no pruning ----

  /** The latest sample; a restored state does not replace it. */
  function LatestSample(inputs: seq<Input>): Option<(int, Reading)> {
    if inputs == [] then None
    else
      match inputs[|inputs| - 1]
      case Sampled(ts, reading) => Some((ts, reading))
      case _ => LatestSample(inputs[..|inputs| - 1])
  }

  /** What a stored pair says about a meter. */
  function PairCourse(m: Meter, p: Pair): real {
    var hours := MsToHours(p.until - p.from);
    if p.key == p.site.gridKey then
      if m == Grid then
        SignedTrapezoid(Normalize(p.vFrom, p.site.invertGrid), Normalize(p.vUntil, p.site.invertGrid), hours)
      else 0.0
    else if p.key == p.site.pvKey then
      if m == Pv then
        Positive(SignedTrapezoid(Normalize(p.vFrom, p.site.invertPv), Normalize(p.vUntil, p.site.invertPv), hours))
      else 0.0
    else if p.key == p.site.batteryKey then
      if m == Battery then
        SignedTrapezoid(Normalize(p.vFrom, p.site.invertBattery), Normalize(p.vUntil, p.site.invertBattery), hours)
      else 0.0
    else if m.ConsumerPower? && ConsumerOf(p.site.consumers, p.key) == Some(m.id) then
      Trapezoid(p.vFrom, p.vUntil, hours)
    else 0.0
  }

  /** What one input does to the energy of a meter so far; `last` is the sample before it. */
  function FlowNext(sofar: real, last: Option<(int, Reading)>, x: Input, t: Tier, lo: int, hi: int, m: Meter): real {
    match x
    case Sampled(ts, reading) =>
      if last.Some? && MIN_STEP < ts - last.value.0 <= MAX_STEP && lo <= TierKey(t, MinuteOf(ts)) <= hi
      then sofar + Course(m, last.value.1, reading, HoursBetween(last.value.0, ts)) else sofar
    case Stored(p) =>
      if p.tier == t && lo <= TierKey(t, TruncDiv(p.until, 60_000)) <= hi then sofar + PairCourse(m, p) else sofar
    case Restored(env) => if env.version < CURRENT_STATE_VERSION then sofar else 0.0
  }

  /** The energy of a meter over the accepted steps and stored pairs since the last restored state. */
  function Flow(inputs: seq<Input>, t: Tier, lo: int, hi: int, m: Meter): real {
    if inputs == [] then 0.0
    else
      var before := inputs[..|inputs| - 1];
      FlowNext(Flow(before, t, lo, hi, m), LatestSample(before), inputs[|inputs| - 1], t, lo, hi, m)
  }

  /** The state restored last. */
  function LastRestored(inputs: seq<Input>): Ledger {
    if inputs == [] then EMPTY_LEDGER
    else
      var x := inputs[|inputs| - 1];
      if x.Restored? && x.env.version >= CURRENT_STATE_VERSION then Restore(EMPTY_LEDGER, x.env)
      else LastRestored(inputs[..|inputs| - 1])
  }

  // ---- The log of a run against it ----

  lemma StepsAppend(inputs: seq<Input>)
    requires inputs != []
    ensures var n := |inputs| - 1; Steps(inputs)[..n] == Steps(inputs[..n]) && Steps(inputs)[n] == StepOf(inputs[n])
  {
  }

  lemma {:induction false} LastIsLatestSample(inputs: seq<Input>)
    ensures Run(Steps(inputs)).last == LatestSample(inputs)
  {
    if inputs != [] {
      StepsAppend(inputs);
      LastIsLatestSample(inputs[..|inputs| - 1]);
    }
  }

  /** The energy of a meter, its two directions netted. */
  function NetEnergy(e: Energy, m: Meter): real {
    match m
    case Grid => e.gridImport - e.gridExport
    case Battery => e.discharge - e.charge
    case Pv => e.pv
    case Loads => e.uncontrollable
    case Excess => e.surplus
    case ConsumerPower(id) => Entry(e.consumers, id)
  }

  lemma NetAppend(log: seq<Deposit>, d: Deposit, t: Tier, lo: int, hi: int, m: Meter)
    ensures Net(log + [d], t, lo, hi, m) == Net(log, t, lo, hi, m) +
      if t in d.tiers && lo <= TierKey(t, d.minute) <= hi then NetEnergy(d.energy, m) else 0.0
  {
    match m
    case Grid =>
      LogTotalAppend(log, d, t, lo, hi, GridImport);
      LogTotalAppend(log, d, t, lo, hi, GridExport);
    case Battery =>
      LogTotalAppend(log, d, t, lo, hi, BatteryDischarge);
      LogTotalAppend(log, d, t, lo, hi, BatteryCharge);
    case Pv => LogTotalAppend(log, d, t, lo, hi, PvGeneration);
    case Loads => LogTotalAppend(log, d, t, lo, hi, Uncontrollable);
    case Excess => LogTotalAppend(log, d, t, lo, hi, Surplus);
    case ConsumerPower(id) => LogTotalAppend(log, d, t, lo, hi, Consumer(id));
  }

  /** Stored pairs are split into directions like live steps, and their net is the signed course. */
  lemma PairNets(p: Pair, m: Meter)
    requires p.from < p.until
    ensures NetEnergy(p.Deposited().energy, m) == PairCourse(m, p)
  {
    var hours := MsToHours(p.until - p.from);
    assert hours >= 0.0;
    if p.key == p.site.gridKey {
      ClampedDirections(Normalize(p.vFrom, p.site.invertGrid), Normalize(p.vUntil, p.site.invertGrid), hours);
    } else if p.key == p.site.batteryKey && p.key != p.site.pvKey {
      ClampedDirections(Normalize(p.vFrom, p.site.invertBattery), Normalize(p.vUntil, p.site.invertBattery), hours);
    }
  }

  /** One more input of a run, logged. */
  lemma NetOfInput(h: History, l: Ledger, x: Input, t: Tier, lo: int, hi: int, m: Meter)
    requires Forward([x])
    ensures Net(Recorded(h, l, StepOf(x)).log, t, lo, hi, m)
         == FlowNext(Net(h.log, t, lo, hi, m), l.last, x, t, lo, hi, m)
  {
    assert x == [x][0];
    match x
    case Sampled(ts, reading) =>
      if Accepted(l, ts) {
        NetOfLiveStep(h.log, l, ts, reading, t, lo, hi, m);
      }
    case Stored(p) =>
      NetAppend(h.log, p.Deposited(), t, lo, hi, m);
      PairNets(p, m);
    case Restored(_) =>
  }

  lemma {:induction false} LogIsFlow(inputs: seq<Input>, t: Tier, lo: int, hi: int, m: Meter)
    requires Forward(inputs)
    ensures HistoryOf(Steps(inputs)).restored == LastRestored(inputs)
    ensures Net(HistoryOf(Steps(inputs)).log, t, lo, hi, m) == Flow(inputs, t, lo, hi, m)
  {
    if inputs != [] {
      var before, x := inputs[..|inputs| - 1], inputs[|inputs| - 1];
      LogIsFlow(before, t, lo, hi, m);
      LastIsLatestSample(before);
      StepsAppend(inputs);
      NetOfInput(HistoryOf(Steps(before)), Run(Steps(before)), x, t, lo, hi, m);
    }
  }

  lemma WindowNet(l: Ledger, h: History, t: Tier, asOf: int, m: Meter)
    requires forall c :: RollingTotal(l, t, asOf, c)
                      == FullTotal(h, t, WindowStart(t, asOf), WindowEnd(t, asOf), c)
    ensures NetTotal(l, t, asOf, m)
         == NetTotal(h.restored, t, asOf, m) + Net(h.log, t, WindowStart(t, asOf), WindowEnd(t, asOf), m)
  {
  }

  /**
   * Whatever was sampled, backfilled and restored in whatever order, every rolling total, its two directions netted,
   * is that of the state restored last plus the signed integral over the accepted live steps and the stored pairs
   * since then.
   */
  lemma EveryRunConserves(inputs: seq<Input>, t: Tier, asOf: int, m: Meter)
    requires Forward(inputs)
    requires forall i :: 0 <= i < |inputs| && inputs[i].Sampled? ==> inputs[i].ts <= asOf
    ensures NetTotal(Run(Steps(inputs)), t, asOf, m)
         == NetTotal(LastRestored(inputs), t, asOf, m)
            + Flow(inputs, t, WindowStart(t, asOf), WindowEnd(t, asOf), m)
  {
    var steps := Steps(inputs);
    forall c ensures RollingTotal(Run(steps), t, asOf, c)
                  == FullTotal(HistoryOf(steps), t, WindowStart(t, asOf), WindowEnd(t, asOf), c) {
      RollingTotalIsFullTotal(steps, t, asOf, c);
    }
    WindowNet(Run(steps), HistoryOf(steps), t, asOf, m);
    LogIsFlow(inputs, t, WindowStart(t, asOf), WindowEnd(t, asOf), m);
  }

  /** What a backfill pass adds are such stored pairs. */
  lemma PassStoresPairs(site: Site, series: Series, t: Tier, i: nat)
    requires i < |Made(site, series, t)|
    ensures exists p: Pair :: Forward([Stored(p)]) && Made(site, series, t)[i].deposit == p.Deposited()
  {
    PassFromStore(site, series, t);
    var item := Made(site, series, t)[i];
    var key, a: TsPoint, b: TsPoint :| a.value.Some? && b.value.Some? && ChannelsOf(site, key) != {} &&
        0 < b.ts - a.ts <= MaxDelta(t) && item == PairDeposit(site, key, a, b, t);
    var p := Pair(site, key, a.ts, a.value.value, b.ts, b.value.value, t);
    assert a == TsPoint(p.from, Some(p.vFrom)) && b == TsPoint(p.until, Some(p.vUntil));
    assert item.deposit == p.Deposited();
  }
}
