/**
 * What the stretches of the state machine stand for: each deposit that a bucket consists of is the measured energy of
 * exactly the time it is said to cover.
 */
module EnergyStretches {
  import opened Wrappers
  import opened TimeSeries
  import opened EnergyFlows
  import opened RollingLedger
  import opened RollingRuns
  import opened EnergyBackfill
  import opened EnergyIntegration
  import opened RollingConservation
  import opened EnergyTicks

  /** The step from one live reading to the next, in the minute it ends in. */
  ghost predicate IsLiveStretch(x: Integrated, a: Reading, b: Reading) {
    && x.coverage == Every && 500_000 < x.until - x.from <= 1_800_000_000
    && x.deposit.minute == Whole(x.until / 10_000_000, 60)
    && forall c :: Amount(x.deposit.energy, c) * 72_000_000_000.0 == StepTicks(c, x.from, a, x.until, b)
  }

  /** The step between two stored values, in the minute it ends in; it covers every channel it adds to. */
  ghost predicate IsStoredStretch(x: Integrated, p: Pair) {
    && p.from < p.until && x.from == 10_000 * p.from && x.until == 10_000 * p.until
    && x.deposit.minute == Whole(p.until, 60_000)
    && forall c ::
         && Amount(x.deposit.energy, c) * 72_000_000_000.0 == PairTicks(c, p)
         && (PairTicks(c, p) != 0.0 ==> Covers(x.coverage, c))
  }

  ghost predicate Measured(x: Integrated) {
    || (exists a, b :: IsLiveStretch(x, a, b))
    || exists p: Pair :: IsStoredStretch(x, p)
  }

  ghost predicate HeldMeasured(held: Held) {
    forall n :: n in held ==> Measured(held[n])
  }

  ghost predicate ListMeasured(items: seq<Integrated>) {
    forall i :: 0 <= i < |items| ==> Measured(items[i])
  }

  ghost predicate AllMeasured(w: World) {
    && HeldMeasured(w.held)
    && (w.saved.Some? ==> HeldMeasured(w.saved.value.1))
    && forall b :: 0 <= b < |w.backfills| ==> ListMeasured(w.backfills[b].pending)
  }

  lemma LiveIsMeasured(l: Ledger, ts: int, cur: Reading)
    requires Accepted(l, ts)
    ensures Measured(LiveIntegrated(l, ts, cur))
  {
    var x := LiveIntegrated(l, ts, cur);
    forall c
      ensures Amount(x.deposit.energy, c) * 72_000_000_000.0 == StepTicks(c, x.from, l.last.value.1, x.until, cur)
    {
      LiveTicks(l, ts, cur, c);
    }
    LivePeriod(Minute, ts, 60, 1440);
    assert IsLiveStretch(x, l.last.value.1, cur);
  }

  lemma StoredIsMeasured(site: Site, t: Tier, item: Integrated)
    requires FromStore(item, site, t)
    ensures Measured(item)
  {
    var key, a: TsPoint, b: TsPoint :| a.value.Some? && b.value.Some? && ChannelsOf(site, key) != {} &&
        0 < b.ts - a.ts <= MaxDelta(t) && item == PairDeposit(site, key, a, b, t);
    var p := Pair(site, key, a.ts, a.value.value, b.ts, b.value.value, t);
    assert a == TsPoint(p.from, Some(p.vFrom)) && b == TsPoint(p.until, Some(p.vUntil));
    forall c
      ensures Amount(item.deposit.energy, c) * 72_000_000_000.0 == PairTicks(c, p)
      ensures PairTicks(c, p) != 0.0 ==> Covers(item.coverage, c)
    {
      PairTicksOf(p, c);
      if c !in ChannelsOf(site, key) {
        PairEnergyStaysInChannels(site, key, p.vFrom, p.vUntil, MsToHours(p.until - p.from), c);
      }
    }
    StoredPeriod(Minute, p.until, 60, 1440);
    assert IsStoredStretch(item, p);
  }

  lemma PassIsMeasured(site: Site, series: Series, t: Tier)
    ensures ListMeasured(Made(site, series, t))
  {
    PassFromStore(site, series, t);
    forall i | 0 <= i < |Made(site, series, t)| ensures Measured(Made(site, series, t)[i]) {
      StoredIsMeasured(site, t, Made(site, series, t)[i]);
    }
  }

  lemma LiveKeepsMeasured(t: Tier, w: World, ts: int, cur: Reading)
    requires HeldMeasured(w.held)
    ensures HeldMeasured(DropPruned(Grown(w, ts, cur), t, Cutoff(t, ts)))
  {
    if Accepted(w.mem, ts) {
      LiveIsMeasured(w.mem, ts, cur);
    }
  }

  lemma PassStepKeepsMeasured(b: Backfill, held: Held, next: nat)
    requires HeldMeasured(held) && ListMeasured(b.pending) && b.pending != []
    ensures HeldMeasured(held[next := b.pending[0]]) && ListMeasured(b.pending[1..])
  {
    assert forall i :: 0 <= i < |b.pending[1..]| ==> b.pending[1..][i] == b.pending[i + 1];
  }

  lemma StepKeepsMeasured(t: Tier, w: World, e: Event)
    requires AllMeasured(w) && Enabled(w, e)
    ensures AllMeasured(After(t, w, e))
  {
    match e
    case Save(_) =>
    case Boot(_) =>
    case Again(_) =>
    case Live(ts, reading) => LiveKeepsMeasured(t, w, ts, reading);
    case BeginPass(_, tier, _, site, series) => PassIsMeasured(site, series, tier);
    case PassStep(b) => PassStepKeepsMeasured(w.backfills[b], w.held, w.next);
  }

  /** Whatever happens, whether safe or not, what is held is measured energy of the time it covers. */
  lemma {:induction false} HeldIsMeasured(t: Tier, worlds: seq<World>, events: seq<Event>, n: nat)
    requires IsRun(t, worlds, events) && n < |worlds|
    ensures AllMeasured(worlds[n])
  {
    if n > 0 {
      HeldIsMeasured(t, worlds, events, n - 1);
      StepKeepsMeasured(t, worlds[n - 1], events[n - 1]);
      assert worlds[n] == After(t, worlds[n - 1], events[n - 1]);
    }
  }

  // ---- What the steps do to the calculator ----

  /** The calculator after an event: a sample, a restored state or a step of a pass, and otherwise as it was. */
  ghost function Calculated(w: World, e: Event): Ledger
    requires Enabled(w, e)
  {
    match e
    case Live(ts, reading) => Apply(w.mem, Sample(ts, reading))
    case Boot(_) => if w.saved.Some? then Run([Load(w.saved.value.0)]) else Run([])
    case Again(_) => if w.saved.Some? then Apply(w.mem, Load(w.saved.value.0)) else w.mem
    case PassStep(b) => Apply(w.mem, Add(w.backfills[b].pending[0].deposit))
    case _ => w.mem
  }

  lemma StepsOfCalculator(t: Tier, w: World, e: Event)
    requires Enabled(w, e)
    ensures After(t, w, e).mem == Calculated(w, e)
  {
    if w.saved.Some? {
      var load := [Load(w.saved.value.0)];
      assert load[..0] == [] && Run(load) == Restore(EMPTY_LEDGER, w.saved.value.0);
    }
  }

  /** The world once all that a backfill still has to add is added. */
  ghost function Finished(t: Tier, w: World, b: nat): World
    requires b < |w.backfills|
    decreases |w.backfills[b].pending|
  {
    if w.backfills[b].pending == [] then w else Finished(t, After(t, w, PassStep(b)), b)
  }

  /** Step by step a pass adds exactly what a whole pass adds. */
  lemma {:induction false} PassIsWhole(t: Tier, w: World, b: nat)
    requires b < |w.backfills|
    ensures Finished(t, w, b).mem == AddAll(w.mem, w.backfills[b].pending)
    decreases |w.backfills[b].pending|
  {
    var pending := w.backfills[b].pending;
    if pending != [] {
      var next := After(t, w, PassStep(b));
      PassIsWhole(t, next, b);
      assert pending == [pending[0]] + pending[1..] && [pending[0]][..0] == [];
      assert AddAll(w.mem, [pending[0]]) == next.mem;
      AddAllConcat(w.mem, [pending[0]], pending[1..]);
    }
  }
}
