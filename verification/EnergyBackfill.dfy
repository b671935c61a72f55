/** The historical backfill of the rolling energy: which deposits one pass makes, and the pass itself. */
module EnergyBackfill {
  import opened Wrappers
  import opened TimeSeries
  import opened Rounding
  import opened Ordering
  import opened EnergyFlows
  import opened RollingLedger
  import opened RollingEnergy

  datatype Site = Site(
    gridKey: string, pvKey: string, batteryKey: string,
    invertGrid: bool, invertPv: bool, invertBattery: bool,
    consumers: seq<(string, string)>)  // (consumer id, telemetry key of its power)

  /** Applies the pool sign rule to a raw value. */
  function Normalize(raw: real, invert: bool): real {
    if invert then -raw else raw
  }

  /** The first consumer measured by `key`. */
  function ConsumerOf(consumers: seq<(string, string)>, key: string): Option<string> {
    if consumers == [] then None
    else if consumers[0].1 == key then Some(consumers[0].0)
    else ConsumerOf(consumers[1..], key)
  }

  /** The channels a meter key feeds; a key of no meter and no consumer feeds none. */
  function ChannelsOf(site: Site, key: string): set<Channel> {
    if key == site.gridKey then {GridImport, GridExport}
    else if key == site.pvKey then {PvGeneration}
    else if key == site.batteryKey then {BatteryCharge, BatteryDischarge}
    else
      match ConsumerOf(site.consumers, key)
      case None => {}
      case Some(id) => {Consumer(id)}
  }

  /** Energy of two consecutive points of `key`. */
  function PairEnergy(site: Site, key: string, vPrev: real, vCurr: real, hours: real): Energy {
    if key == site.gridKey then
      var a, b := Normalize(vPrev, site.invertGrid), Normalize(vCurr, site.invertGrid);
      NO_ENERGY.(gridImport := Positive(Trapezoid(a, b, hours)), gridExport := Positive(Trapezoid(-a, -b, hours)))
    else if key == site.pvKey then
      var a, b := Normalize(vPrev, site.invertPv), Normalize(vCurr, site.invertPv);
      NO_ENERGY.(pv := Positive(SignedTrapezoid(a, b, hours)))
    else if key == site.batteryKey then
      var a, b := Normalize(vPrev, site.invertBattery), Normalize(vCurr, site.invertBattery);
      NO_ENERGY.(charge := Positive(Trapezoid(-a, -b, hours)), discharge := Positive(Trapezoid(a, b, hours)))
    else
      match ConsumerOf(site.consumers, key)
      case None => NO_ENERGY
      case Some(id) => NO_ENERGY.(consumers := map[id := Positive(Trapezoid(vPrev, vCurr, hours))])
  }

  /** Energy goes only to the channels of the key. */
  lemma PairEnergyStaysInChannels(site: Site, key: string, vPrev: real, vCurr: real, hours: real, c: Channel)
    requires c !in ChannelsOf(site, key)
    ensures Amount(PairEnergy(site, key, vPrev, vCurr, hours), c) == 0.0
  {
  }

  /**
   * The backfill clamps the PV trapezoid, the live step clamps its end points: they agree exactly
   * when the power does not change sign in between, and otherwise the backfill counts less.
   */
  lemma PvBackfillAgreesWithLive(site: Site, vPrev: real, vCurr: real, hours: real)
    requires hours > 0.0 && site.pvKey != site.gridKey
    ensures var a, b := Normalize(vPrev, site.invertPv), Normalize(vCurr, site.invertPv);
            var backfilled := PairEnergy(site, site.pvKey, vPrev, vCurr, hours).pv;
            && backfilled <= Trapezoid(a, b, hours)
            && (backfilled == Trapezoid(a, b, hours) <==> !(a < 0.0 < b) && !(b < 0.0 < a))
  {
    var a, b := Normalize(vPrev, site.invertPv), Normalize(vCurr, site.invertPv);
    TrapezoidsAgree(a, b, hours);
  }

  lemma TrapezoidsAgree(a: real, b: real, hours: real)
    requires hours > 0.0
    ensures Positive(SignedTrapezoid(a, b, hours)) <= Trapezoid(a, b, hours)
    ensures Positive(SignedTrapezoid(a, b, hours)) == Trapezoid(a, b, hours) <==> !(a < 0.0 < b) && !(b < 0.0 < a)
  {
    var clamped, signed := (Positive(a) + Positive(b)) * 0.5, (a + b) * 0.5;
    PositiveScales(signed, hours);
    ScaleOrder(Positive(signed), clamped, hours);
  }

  lemma PositiveScales(x: real, f: real)
    requires f > 0.0
    ensures Positive(x * f) == Positive(x) * f
  {
    if x >= 0.0 {
      ScaleOrder(0.0, x, f);
    } else {
      ScaleOrder(x, 0.0, f);
    }
  }

  lemma ScaleOrder(x: real, y: real, f: real)
    requires f > 0.0 && x <= y
    ensures x * f <= y * f
    ensures x * f == y * f <==> x == y
  {
  }

  // ---- One pass ----

  /** Which channels a deposit measures: a live sample all of them, a stored pair those of its key. */
  datatype Coverage = Every | Only(channels: set<Channel>)

  predicate Covers(v: Coverage, c: Channel) {
    v.Every? || c in v.channels
  }

  /** An integrated stretch of time (in ticks) and the deposit its energy went into. */
  datatype Integrated = Integrated(deposit: Deposit, coverage: Coverage, from: int, until: int)

  function WithValue(pts: seq<TsPoint>): (r: seq<TsPoint>)
    ensures forall p :: p in r ==> p in pts && p.value.Some?
  {
    if pts == [] then []
    else WithValue(pts[..|pts| - 1]) + if pts[|pts| - 1].value.Some? then [pts[|pts| - 1]] else []
  }

  /** The points with a value, oldest first. */
  function Usable(pts: seq<TsPoint>): (r: seq<TsPoint>)
    ensures SortedBy(r, (p: TsPoint) => p.ts)
    ensures forall p :: p in r ==> p in pts && p.value.Some?
  {
    var r := StableSort(WithValue(pts), (p: TsPoint) => p.ts);
    assert forall p :: p in r ==> p in multiset(r);
    r
  }

  function MsToHours(ms: int): real {
    ms as real / 3600000.0
  }

  function PairDeposit(site: Site, key: string, a: TsPoint, b: TsPoint, t: Tier): Integrated
    requires a.value.Some? && b.value.Some?
  {
    Integrated(
      Deposit(TruncDiv(b.ts, 60_000), PairEnergy(site, key, a.value.value, b.value.value, MsToHours(b.ts - a.ts)), {t}),
      Only(ChannelsOf(site, key)), a.ts * TICKS_PER_MS, b.ts * TICKS_PER_MS)
  }

  /** The deposits of one key: one per step that is neither empty nor longer than `maxDeltaMs`. */
  function KeyDeposits(site: Site, key: string, sorted: seq<TsPoint>, maxDeltaMs: int, t: Tier): seq<Integrated>
    requires forall p :: p in sorted ==> p.value.Some?
  {
    if |sorted| < 2 then []
    else
      var a, b := sorted[|sorted| - 2], sorted[|sorted| - 1];
      KeyDeposits(site, key, sorted[..|sorted| - 1], maxDeltaMs, t) +
      if 0 < b.ts - a.ts <= maxDeltaMs && ChannelsOf(site, key) != {} then [PairDeposit(site, key, a, b, t)] else []
  }

  /** The deposits of a pass over the queried series, key by key. */
  function PassDeposits(site: Site, series: seq<(string, seq<TsPoint>)>, maxDeltaMs: int, t: Tier): seq<Integrated> {
    if series == [] then []
    else
      var (key, pts) := series[|series| - 1];
      PassDeposits(site, series[..|series| - 1], maxDeltaMs, t) + KeyDeposits(site, key, Usable(pts), maxDeltaMs, t)
  }

  function AddAll(l: Ledger, items: seq<Integrated>): Ledger {
    if items == [] then l
    else
      var d := items[|items| - 1].deposit;
      AddDelta(AddAll(l, items[..|items| - 1]), d.minute, d.energy, d.tiers)
  }

  lemma {:induction false} AddAllConcat(l: Ledger, xs: seq<Integrated>, ys: seq<Integrated>)
    ensures AddAll(l, xs + ys) == AddAll(AddAll(l, xs), ys)
  {
    if ys == [] {
      assert xs + ys == xs;
    } else {
      AddAllConcat(l, xs, ys[..|ys| - 1]);
      assert (xs + ys)[..|xs + ys| - 1] == xs + ys[..|ys| - 1];
    }
  }

  lemma AddAllAppend(l: Ledger, xs: seq<Integrated>, x: Integrated)
    ensures AddAll(l, xs + [x]) == AddDelta(AddAll(l, xs), x.deposit.minute, x.deposit.energy, x.deposit.tiers)
  {
    assert (xs + [x])[..|xs|] == xs;
  }

  /** One pass over the series the store returned for `fromMs`..`toMs`. */
  method BootstrapWindow(energy: RollingEnergyCalculator, site: Site, fromMs: int, toMs: int,
                         series: seq<(string, seq<TsPoint>)>, maxDeltaMs: int, t: Tier)
    modifies energy
    ensures energy.State() ==
      if fromMs < toMs then AddAll(old(energy.State()), PassDeposits(site, series, maxDeltaMs, t))
      else old(energy.State())
  {
    if fromMs >= toMs {
      return;
    }
    for n := 0 to |series|
      invariant energy.State() == AddAll(old(energy.State()), PassDeposits(site, series[..n], maxDeltaMs, t))
    {
      var (key, pts) := series[n];
      ghost var sofar := PassDeposits(site, series[..n], maxDeltaMs, t);
      var sorted := Usable(pts);
      assert series[..n + 1][..n] == series[..n];
      AddAllConcat(old(energy.State()), sofar, KeyDeposits(site, key, sorted, maxDeltaMs, t));
      if |pts| < 2 {
        ShortSeries(site, key, pts, maxDeltaMs, t);
        continue;
      }
      if sorted == [] {
        continue;
      }
      BackfillKey(energy, site, key, sorted, maxDeltaMs, t);
    }
    assert series[..|series|] == series;
  }

  method BackfillKey(energy: RollingEnergyCalculator, site: Site, key: string, sorted: seq<TsPoint>, maxDeltaMs: int,
                     t: Tier)
    requires forall p :: p in sorted ==> p.value.Some?
    requires |sorted| >= 1
    modifies energy
    ensures energy.State() == AddAll(old(energy.State()), KeyDeposits(site, key, sorted, maxDeltaMs, t))
  {
    ghost var before := energy.State();
    for i := 1 to |sorted|
      invariant energy.State() == AddAll(before, KeyDeposits(site, key, sorted[..i], maxDeltaMs, t))
    {
      ghost var sofar := KeyDeposits(site, key, sorted[..i], maxDeltaMs, t);
      KeyDepositsStep(site, key, sorted, i, maxDeltaMs, t);
      var dtMs := sorted[i].ts - sorted[i - 1].ts;
      if 0 < dtMs <= maxDeltaMs && ChannelsOf(site, key) != {} {
        var e := PairEnergy(site, key, sorted[i - 1].value.value, sorted[i].value.value, MsToHours(dtMs));
        ghost var item := PairDeposit(site, key, sorted[i - 1], sorted[i], t);
        AddAllAppend(before, sofar, item);
        energy.AddEnergy(TruncDiv(sorted[i].ts, 60_000), e, {t});
      } else {
        assert sofar + [] == sofar;
      }
    }
    assert sorted[..|sorted|] == sorted;
  }

  lemma KeyDepositsStep(site: Site, key: string, sorted: seq<TsPoint>, i: nat, maxDeltaMs: int, t: Tier)
    requires forall p :: p in sorted ==> p.value.Some?
    requires 1 <= i < |sorted|
    ensures KeyDeposits(site, key, sorted[..i + 1], maxDeltaMs, t) ==
      KeyDeposits(site, key, sorted[..i], maxDeltaMs, t) +
      if 0 < sorted[i].ts - sorted[i - 1].ts <= maxDeltaMs && ChannelsOf(site, key) != {}
      then [PairDeposit(site, key, sorted[i - 1], sorted[i], t)] else []
  {
    var s := sorted[..i + 1];
    assert s[..i] == sorted[..i] && s[i - 1] == sorted[i - 1] && s[i] == sorted[i];
  }

  lemma ShortSeries(site: Site, key: string, pts: seq<TsPoint>, maxDeltaMs: int, t: Tier)
    requires |pts| < 2
    ensures KeyDeposits(site, key, Usable(pts), maxDeltaMs, t) == []
  {
    assert |WithValue(pts)| <= 1 by {
      if |pts| == 1 {
        assert WithValue(pts[..0]) == [];
      }
    }
  }
}
