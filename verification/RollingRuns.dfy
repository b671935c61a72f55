/** What every run of the rolling energy accounting keeps. */
module RollingRuns {
  import opened Wrappers
  import opened Rounding
  import opened EnergyFlows
  import opened RollingLedger

  // ---- Pruned buckets refine the full log ----

  /** Everything a run was told: the buckets of the last accepted envelope and all deposits since. */
  datatype History = History(restored: Ledger, log: seq<Deposit>)

  /** What an accepted live sample adds. */
  function LiveDeposit(l: Ledger, ts: int, cur: Reading): Deposit
    requires l.last.Some?
  {
    Deposit(MinuteOf(ts), LiveEnergy(l, ts, cur), ALL_TIERS)
  }

  function Recorded(h: History, l: Ledger, s: Step): History {
    match s
    case Sample(ts, reading) =>
      if Accepted(l, ts)
      then h.(log := h.log + [LiveDeposit(l, ts, reading)])
      else h
    case Add(d) => h.(log := h.log + [d])
    case Load(env) => if env.version < CURRENT_STATE_VERSION then h else History(Restore(EMPTY_LEDGER, env), [])
  }

  function HistoryOf(steps: seq<Step>): History {
    if steps == [] then History(EMPTY_LEDGER, [])
    else Recorded(HistoryOf(steps[..|steps| - 1]), Run(steps[..|steps| - 1]), steps[|steps| - 1])
  }

  /** The reference: nothing is ever pruned. */
  function FullTotal(h: History, t: Tier, lo: int, hi: int, c: Channel): real {
    WindowTotal(Of(h.restored, t), lo, hi, c) + LogTotal(h.log, t, lo, hi, c)
  }

  ghost predicate NoSampleAfter(steps: seq<Step>, asOf: int) {
    forall i :: 0 <= i < |steps| && steps[i].Sample? ==> steps[i].ts <= asOf
  }

  lemma AddDeltaAt(l: Ledger, d: Deposit, t: Tier, key: int, c: Channel)
    ensures At(Of(AddDelta(l, d.minute, d.energy, d.tiers), t), key, c)
              == At(Of(l, t), key, c) + Share(d, t, key, key, c)
  {
  }

  lemma PrunedAt(l: Ledger, ts: int, t: Tier, key: int, c: Channel)
    requires Cutoff(t, ts) <= key
    ensures At(Of(Pruned(l, ts), t), key, c) == At(Of(l, t), key, c)
  {
  }

  lemma RecordSampleAt(l: Ledger, ts: int, cur: Reading, t: Tier, key: int, c: Channel)
    requires Cutoff(t, ts) <= key
    ensures At(Of(RecordSample(l, ts, cur), t), key, c) == At(Of(l, t), key, c) +
      if Accepted(l, ts) then Share(LiveDeposit(l, ts, cur), t, key, key, c) else 0.0
  {
    if Accepted(l, ts) {
      var d := LiveDeposit(l, ts, cur);
      AddDeltaAt(l, d, t, key, c);
      PrunedAt(AddDelta(l, d.minute, d.energy, d.tiers), ts, t, key, c);
    } else {
      PrunedAt(l, ts, t, key, c);
    }
  }

  /** One bucket that no sample so far could prune holds exactly what was recorded for it. */
  lemma {:induction false} BucketIsRecorded(steps: seq<Step>, t: Tier, key: int, c: Channel)
    requires forall i :: 0 <= i < |steps| && steps[i].Sample? ==> Cutoff(t, steps[i].ts) <= key
    ensures At(Of(Run(steps), t), key, c)
         == At(Of(HistoryOf(steps).restored, t), key, c) + LogTotal(HistoryOf(steps).log, t, key, key, c)
  {
    if steps != [] {
      var before, s := steps[..|steps| - 1], steps[|steps| - 1];
      BucketIsRecorded(before, t, key, c);
      var l, h := Run(before), HistoryOf(before);
      match s
      case Sample(ts, reading) =>
        RecordSampleAt(l, ts, reading, t, key, c);
        if Accepted(l, ts) {
          LogTotalAppend(h.log, LiveDeposit(l, ts, reading), t, key, key, c);
        }
      case Add(d) =>
        AddDeltaAt(l, d, t, key, c);
        LogTotalAppend(h.log, d, t, key, key, c);
      case Load(env) =>
    }
  }

  lemma LogTotalAppend(log: seq<Deposit>, d: Deposit, t: Tier, lo: int, hi: int, c: Channel)
    ensures LogTotal(log + [d], t, lo, hi, c) == LogTotal(log, t, lo, hi, c) + Share(d, t, lo, hi, c)
  {
    assert (log + [d])[..|log|] == log;
  }

  lemma {:induction false} LogTotalSplit(log: seq<Deposit>, t: Tier, lo: int, hi: int, c: Channel)
    requires lo <= hi
    ensures LogTotal(log, t, lo, hi, c) == LogTotal(log, t, lo, hi - 1, c) + LogTotal(log, t, hi, hi, c)
  {
    if log != [] {
      LogTotalSplit(log[..|log| - 1], t, lo, hi, c);
    }
  }

  lemma {:induction false} LogTotalEmptyRange(log: seq<Deposit>, t: Tier, lo: int, hi: int, c: Channel)
    requires hi < lo
    ensures LogTotal(log, t, lo, hi, c) == 0.0
  {
    if log != [] {
      LogTotalEmptyRange(log[..|log| - 1], t, lo, hi, c);
    }
  }

  lemma {:induction false} WindowIsRecorded(steps: seq<Step>, t: Tier, lo: int, hi: int, c: Channel)
    requires forall i :: 0 <= i < |steps| && steps[i].Sample? ==> Cutoff(t, steps[i].ts) <= lo
    ensures WindowTotal(Of(Run(steps), t), lo, hi, c) == FullTotal(HistoryOf(steps), t, lo, hi, c)
    decreases hi - lo
  {
    var log := HistoryOf(steps).log;
    if hi < lo {
      LogTotalEmptyRange(log, t, lo, hi, c);
    } else {
      WindowIsRecorded(steps, t, lo, hi - 1, c);
      BucketIsRecorded(steps, t, hi, c);
      LogTotalSplit(log, t, lo, hi, c);
    }
  }

  /**
   * Pruning is invisible: whatever was sampled, added and restored in whatever order, each rolling
   * total as of a time not before any sample is the total of everything recorded in the window.
   */
  lemma RollingTotalIsFullTotal(steps: seq<Step>, t: Tier, asOf: int, c: Channel)
    requires NoSampleAfter(steps, asOf)
    ensures RollingTotal(Run(steps), t, asOf, c)
         == FullTotal(HistoryOf(steps), t, WindowStart(t, asOf), WindowEnd(t, asOf), c)
  {
    forall i | 0 <= i < |steps| && steps[i].Sample? ensures Cutoff(t, steps[i].ts) <= WindowStart(t, asOf) {
      MinuteOfMonotone(steps[i].ts, asOf);
      TierKeyMonotone(t, MinuteOf(steps[i].ts), MinuteOf(asOf));
    }
    WindowIsRecorded(steps, t, WindowStart(t, asOf), WindowEnd(t, asOf), c);
  }

  // ---- A restart loses nothing that was saved ----

  lemma {:induction false} HistoryAfterLoad(env: Envelope, after: seq<Step>)
    requires env.version >= CURRENT_STATE_VERSION
    requires forall i :: 0 <= i < |after| ==> !after[i].Load?
    ensures HistoryOf([Load(env)] + after).restored == Restore(EMPTY_LEDGER, env)
  {
    var steps := [Load(env)] + after;
    if after == [] {
      assert steps == [Load(env)] && steps[..0] == [];
    } else {
      HistoryAfterLoad(env, after[..|after| - 1]);
      assert steps[..|steps| - 1] == [Load(env)] + after[..|after| - 1];
    }
  }

  /**
   * A process that starts from the state another one saved reports, for every window, what the
   * first one recorded plus what it records itself.
   */
  lemma RestartKeepsTotals(before: seq<Step>, env: Envelope, after: seq<Step>, t: Tier, asOf: int, c: Channel)
    requires IsSaved(env, Run(before))
    requires forall i :: 0 <= i < |after| ==> !after[i].Load?
    requires NoSampleAfter(before, asOf) && NoSampleAfter(after, asOf)
    ensures RollingTotal(Run([Load(env)] + after), t, asOf, c)
         == FullTotal(HistoryOf(before), t, WindowStart(t, asOf), WindowEnd(t, asOf), c)
            + LogTotal(HistoryOf([Load(env)] + after).log, t, WindowStart(t, asOf), WindowEnd(t, asOf), c)
  {
    RollingTotalIsFullTotal(before, t, asOf, c);
    RollingTotalIsFullTotal([Load(env)] + after, t, asOf, c);
    HistoryAfterLoad(env, after);
    SaveThenRestore(env, Run(before), EMPTY_LEDGER);
    assert Of(Restore(EMPTY_LEDGER, env), t) == Of(Run(before), t);
  }

  // ---- Signed conservation over live runs ----

  ghost predicate LiveOnly(steps: seq<Step>) {
    forall i :: 0 <= i < |steps| ==> steps[i].Sample?
  }

  datatype Meter = Grid | Battery | Pv | Loads | Excess | ConsumerPower(id: string)

  /**
   * What the step between two readings contributes: signed for grid and battery, the positive power for
   * all others. A consumer that was not read before starts from 0, one that is not read now adds nothing.
   */
  function Course(m: Meter, a: Reading, b: Reading, hours: real): real {
    match m
    case Grid => SignedTrapezoid(a.grid, b.grid, hours)
    case Battery => SignedTrapezoid(a.battery, b.battery, hours)
    case Pv => Trapezoid(a.pv, b.pv, hours)
    case Loads => Trapezoid(a.uncontrollable, b.uncontrollable, hours)
    case Excess => Trapezoid(a.surplus, b.surplus, hours)
    case ConsumerPower(id) => if id in b.consumers then Trapezoid(Entry(a.consumers, id), b.consumers[id], hours)
        else 0.0
  }

  /** The integral of one meter over the sampled course itself, without any bucket or state. */
  function Integral(samples: seq<Step>, t: Tier, lo: int, hi: int, m: Meter): real
    requires LiveOnly(samples)
  {
    if |samples| < 2 then 0.0
    else
      var a, b := samples[|samples| - 2], samples[|samples| - 1];
      Integral(samples[..|samples| - 1], t, lo, hi, m) +
      if MIN_STEP < b.ts - a.ts <= MAX_STEP && lo <= TierKey(t, MinuteOf(b.ts)) <= hi
      then Course(m, a.reading, b.reading, HoursBetween(a.ts, b.ts)) else 0.0
  }

  lemma LastIsPreviousSample(samples: seq<Step>)
    requires LiveOnly(samples)
    ensures Run(samples).last ==
      if samples == [] then None else Some((samples[|samples| - 1].ts, samples[|samples| - 1].reading))
  {
  }

  /** The two directions of a meter, netted. */
  function Net(log: seq<Deposit>, t: Tier, lo: int, hi: int, m: Meter): real {
    match m
    case Grid => LogTotal(log, t, lo, hi, GridImport) - LogTotal(log, t, lo, hi, GridExport)
    case Battery => LogTotal(log, t, lo, hi, BatteryDischarge) - LogTotal(log, t, lo, hi, BatteryCharge)
    case Pv => LogTotal(log, t, lo, hi, PvGeneration)
    case Loads => LogTotal(log, t, lo, hi, Uncontrollable)
    case Excess => LogTotal(log, t, lo, hi, Surplus)
    case ConsumerPower(id) => LogTotal(log, t, lo, hi, Consumer(id))
  }

  lemma NetOfLiveStep(log: seq<Deposit>, l: Ledger, ts: int, cur: Reading, t: Tier, lo: int, hi: int, m: Meter)
    requires l.last.Some?
    ensures Net(log + [LiveDeposit(l, ts, cur)], t, lo, hi, m) == Net(log, t, lo, hi, m) +
      if lo <= TierKey(t, MinuteOf(ts)) <= hi
      then Course(m, l.last.value.1, cur, HoursBetween(l.last.value.0, ts)) else 0.0
  {
    var d, prev, hours := LiveDeposit(l, ts, cur), l.last.value.1, HoursBetween(l.last.value.0, ts);
    match m
    case Grid =>
      LogTotalAppend(log, d, t, lo, hi, GridImport);
      LogTotalAppend(log, d, t, lo, hi, GridExport);
      ClampedDirections(prev.grid, cur.grid, hours);
    case Battery =>
      LogTotalAppend(log, d, t, lo, hi, BatteryDischarge);
      LogTotalAppend(log, d, t, lo, hi, BatteryCharge);
      ClampedDirections(prev.battery, cur.battery, hours);
    case Pv =>
      LogTotalAppend(log, d, t, lo, hi, PvGeneration);
    case Loads =>
      LogTotalAppend(log, d, t, lo, hi, Uncontrollable);
    case Excess =>
      LogTotalAppend(log, d, t, lo, hi, Surplus);
    case ConsumerPower(id) =>
      LogTotalAppend(log, d, t, lo, hi, Consumer(id));
  }

  /** What a live run logs, meter by meter, against the sampled course. */
  lemma {:induction false} LiveLogIsIntegral(samples: seq<Step>, t: Tier, lo: int, hi: int, m: Meter)
    requires LiveOnly(samples)
    ensures HistoryOf(samples).restored == EMPTY_LEDGER
    ensures Net(HistoryOf(samples).log, t, lo, hi, m) == Integral(samples, t, lo, hi, m)
  {
    if samples != [] {
      var before, s := samples[..|samples| - 1], samples[|samples| - 1];
      LiveLogIsIntegral(before, t, lo, hi, m);
      LastIsPreviousSample(before);
      var l, log := Run(before), HistoryOf(before).log;
      if Accepted(l, s.ts) {
        NetOfLiveStep(log, l, s.ts, s.reading, t, lo, hi, m);
        assert HistoryOf(samples).log == log + [LiveDeposit(l, s.ts, s.reading)];
        assert l.last.value == (samples[|samples| - 2].ts, samples[|samples| - 2].reading);
      } else {
        assert HistoryOf(samples).log == log;
        assert Integral(samples, t, lo, hi, m) == Integral(before, t, lo, hi, m);
      }
    }
  }

  lemma {:induction false} LiveLogNonNegative(samples: seq<Step>, t: Tier, lo: int, hi: int, c: Channel)
    requires LiveOnly(samples)
    ensures LogTotal(HistoryOf(samples).log, t, lo, hi, c) >= 0.0
  {
    if samples != [] {
      var before, s := samples[..|samples| - 1], samples[|samples| - 1];
      LiveLogNonNegative(before, t, lo, hi, c);
      if Accepted(Run(before), s.ts) {
        LogTotalAppend(HistoryOf(before).log, LiveDeposit(Run(before), s.ts, s.reading), t, lo, hi, c);
      }
    }
  }

  lemma WindowTotalOfNothing(lo: int, hi: int, c: Channel)
    ensures WindowTotal(map[], lo, hi, c) == 0.0
    decreases hi - lo
  {
  }

  /** The rolling total of a meter, its two directions netted. */
  function NetTotal(l: Ledger, t: Tier, asOf: int, m: Meter): real {
    match m
    case Grid => RollingTotal(l, t, asOf, GridImport) - RollingTotal(l, t, asOf, GridExport)
    case Battery => RollingTotal(l, t, asOf, BatteryDischarge) - RollingTotal(l, t, asOf, BatteryCharge)
    case Pv => RollingTotal(l, t, asOf, PvGeneration)
    case Loads => RollingTotal(l, t, asOf, Uncontrollable)
    case Excess => RollingTotal(l, t, asOf, Surplus)
    case ConsumerPower(id) => RollingTotal(l, t, asOf, Consumer(id))
  }

  lemma LiveTotal(samples: seq<Step>, t: Tier, asOf: int, c: Channel)
    requires LiveOnly(samples) && NoSampleAfter(samples, asOf)
    ensures RollingTotal(Run(samples), t, asOf, c)
         == LogTotal(HistoryOf(samples).log, t, WindowStart(t, asOf), WindowEnd(t, asOf), c) >= 0.0
  {
    var lo, hi := WindowStart(t, asOf), WindowEnd(t, asOf);
    RollingTotalIsFullTotal(samples, t, asOf, c);
    LiveLogIsIntegral(samples, t, lo, hi, Grid);
    WindowTotalOfNothing(lo, hi, c);
    LiveLogNonNegative(samples, t, lo, hi, c);
  }

  /**
   * Import minus export in any rolling window is the signed integral of the grid power over the
   * accepted steps, discharge minus charge that of the battery power; every other channel is the
   * integral of its positive power. No channel is ever negative.
   */
  lemma SignedConservation(samples: seq<Step>, t: Tier, asOf: int, m: Meter)
    requires LiveOnly(samples) && NoSampleAfter(samples, asOf)
    ensures NetTotal(Run(samples), t, asOf, m) == Integral(samples, t, WindowStart(t, asOf), WindowEnd(t, asOf), m)
    ensures forall c :: RollingTotal(Run(samples), t, asOf, c) >= 0.0
  {
    LiveLogIsIntegral(samples, t, WindowStart(t, asOf), WindowEnd(t, asOf), m);
    forall c ensures RollingTotal(Run(samples), t, asOf, c)
                  == LogTotal(HistoryOf(samples).log, t, WindowStart(t, asOf), WindowEnd(t, asOf), c) >= 0.0 {
      LiveTotal(samples, t, asOf, c);
    }
  }

  // ---- Site consumption ----

  function RoundedEnergy(e: Energy): Energy {
    Energy(Round2(e.gridImport), Round2(e.gridExport), Round2(e.pv), Round2(e.charge), Round2(e.discharge),
           Round2(e.uncontrollable), Round2(e.surplus), map id | id in e.consumers :: Round2(e.consumers[id]))
  }

  function ConsumptionFromBalance(totals: Energy): real {
    Max(0.0, totals.gridImport - totals.gridExport + totals.pv + totals.discharge - totals.charge)
  }

  /** Rounding its five totals moves the balance by at most half a hundredth each. */
  lemma BalanceRounds(totals: Energy)
    ensures ConsumptionFromBalance(totals) - 0.025 <= ConsumptionFromBalance(RoundedEnergy(totals))
                                           <= ConsumptionFromBalance(totals) + 0.025
  {
  }

  /** The reported consumption is the integral of grid, battery and positive PV power, clamped at 0. */
  lemma BalanceIsIntegral(samples: seq<Step>, t: Tier, asOf: int, totals: Energy)
    requires LiveOnly(samples) && NoSampleAfter(samples, asOf)
    requires forall c :: Amount(totals, c) == RollingTotal(Run(samples), t, asOf, c)
    ensures ConsumptionFromBalance(totals) == Max(0.0, Balance(samples, t, WindowStart(t, asOf), WindowEnd(t, asOf)))
  {
    SignedConservation(samples, t, asOf, Grid);
    SignedConservation(samples, t, asOf, Battery);
    SignedConservation(samples, t, asOf, Pv);
    assert totals.gridImport == Amount(totals, GridImport) && totals.gridExport == Amount(totals, GridExport);
    assert totals.pv == Amount(totals, PvGeneration);
    assert totals.discharge == Amount(totals, BatteryDischarge) && totals.charge == Amount(totals, BatteryCharge);
  }

  function Balance(samples: seq<Step>, t: Tier, lo: int, hi: int): real
    requires LiveOnly(samples)
  {
    Integral(samples, t, lo, hi, Grid) + Integral(samples, t, lo, hi, Battery) + Integral(samples, t, lo, hi, Pv)
  }

  /** From the five rounded totals it is computed from, that is up to half a hundredth each. */
  lemma ConsumptionIsIntegral(samples: seq<Step>, t: Tier, asOf: int, totals: Energy)
    requires LiveOnly(samples) && NoSampleAfter(samples, asOf)
    requires forall c :: Amount(totals, c) == RollingTotal(Run(samples), t, asOf, c)
    ensures var consumption := Max(0.0, Balance(samples, t, WindowStart(t, asOf), WindowEnd(t, asOf)));
            consumption - 0.025 <= ConsumptionFromBalance(RoundedEnergy(totals)) <= consumption + 0.025
  {
    BalanceIsIntegral(samples, t, asOf, totals);
    BalanceRounds(totals);
  }
}
