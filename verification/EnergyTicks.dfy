/**
 * What the rolling totals mean in the measured quantities alone: power times ticks of 100 ns, counted from the
 * readings, the stored points and the configured meters, without hours, buckets or directions.
 */
module EnergyTicks {
  import opened Wrappers
  import opened Rounding
  import opened Ordering
  import opened TimeSeries
  import opened EnergyFlows
  import opened RollingLedger
  import opened RollingRuns
  import opened EnergyBackfill
  import opened EnergyIntegration
  import opened RollingConservation

  function Above0(kw: real): real {
    if kw > 0.0 then kw else 0.0
  }

  /** Twice the area under the positive parts of two powers that lie `ticks` apart. */
  function Span(a: real, b: real, ticks: int): real {
    (Above0(a) + Above0(b)) * ticks as real
  }

  /** `a / b`, toward zero. */
  function Whole(a: int, b: int): int
    requires b > 0
  {
    if a >= 0 then a / b else -(-a / b)
  }

  /** The period lies in the window: it is that of `asOf` or one of the `count` before it. */
  predicate Counts(period: int, asOf: int, seconds: int, count: int)
    requires seconds > 0
  {
    var current := Whole(asOf / 10_000_000, seconds);
    current - count <= period <= current
  }

  /** The power a channel measures. */
  function Power(r: Reading, c: Channel): real {
    match c
    case GridImport => r.grid
    case GridExport => -r.grid
    case PvGeneration => r.pv
    case BatteryCharge => -r.battery
    case BatteryDischarge => r.battery
    case Uncontrollable => r.uncontrollable
    case Surplus => r.surplus
    case Consumer(id) => if id in r.consumers then r.consumers[id] else 0.0
  }

  predicate IsRead(r: Reading, c: Channel) {
    c.Consumer? ==> c.id in r.consumers
  }

  /** Twice the kW-ticks of a channel between two live readings. */
  function StepTicks(c: Channel, from: int, a: Reading, until: int, b: Reading): real {
    if IsRead(b, c) then Span(Power(a, c), Power(b, c), until - from) else 0.0
  }

  /** The first consumer with this key is `id`. */
  ghost predicate MeasuresFirst(consumers: seq<(string, string)>, key: string, id: string) {
    exists i :: 0 <= i < |consumers| && consumers[i] == (id, key) && forall j :: 0 <= j < i ==> consumers[j].1 != key
  }

  /** Twice the kW-ticks of a channel between two stored values of a key. */
  ghost function PairTicks(c: Channel, p: Pair): real {
    var ticks := 10_000 * (p.until - p.from);
    var site := p.site;
    if p.key == site.gridKey then
      var sign := if site.invertGrid then -1.0 else 1.0;
      match c
      case GridImport => Span(sign * p.vFrom, sign * p.vUntil, ticks)
      case GridExport => Span(-sign * p.vFrom, -sign * p.vUntil, ticks)
      case _ => 0.0
    else if p.key == site.pvKey then
      var sign := if site.invertPv then -1.0 else 1.0;
      if c == PvGeneration then Above0(sign * p.vFrom + sign * p.vUntil) * ticks as real else 0.0
    else if p.key == site.batteryKey then
      var sign := if site.invertBattery then -1.0 else 1.0;
      match c
      case BatteryCharge => Span(-sign * p.vFrom, -sign * p.vUntil, ticks)
      case BatteryDischarge => Span(sign * p.vFrom, sign * p.vUntil, ticks)
      case _ => 0.0
    else if c.Consumer? && MeasuresFirst(site.consumers, p.key, c.id) then
      Span(p.vFrom, p.vUntil, ticks)
    else 0.0
  }

  /** What one input adds; a restored state begins anew. */
  ghost function Next(sofar: real, last: Option<(int, Reading)>, x: Input, c: Channel, t: Tier, seconds: int,
                      count: int, asOf: int): real
    requires seconds > 0
  {
    match x
    case Sampled(ts, reading) =>
      if last.Some? && 500_000 < ts - last.value.0 <= 1_800_000_000
        && Counts(Whole(ts / 10_000_000, seconds), asOf, seconds, count)
      then sofar + StepTicks(c, last.value.0, last.value.1, ts, reading) else sofar
    case Stored(p) =>
      if p.tier == t && Counts(Whole(p.until, 1000 * seconds), asOf, seconds, count) then sofar + PairTicks(c, p)
      else sofar
    case Restored(env) => if env.version < 3 then sofar else 0.0
  }

  /** Twice the kW-ticks of a channel since the last restored state, in the periods that count. */
  ghost function Ticks(inputs: seq<Input>, c: Channel, t: Tier, seconds: int, count: int, asOf: int): real
    requires seconds > 0
  {
    if inputs == [] then 0.0
    else
      var before := inputs[..|inputs| - 1];
      Next(Ticks(before, c, t, seconds, count, asOf), LatestSample(before), inputs[|inputs| - 1], c, t, seconds, count,
           asOf)
  }

  // ---- One input ----

  const DOUBLE_TICKS_PER_HOUR := 72_000_000_000.0

  lemma TrapezoidTicks(a: real, b: real, hours: real, ticks: int)
    requires hours * 36_000_000_000.0 == ticks as real
    ensures Trapezoid(a, b, hours) * DOUBLE_TICKS_PER_HOUR == Span(a, b, ticks)
  {
    var sum := Above0(a) + Above0(b);
    assert Trapezoid(a, b, hours) == sum * 0.5 * hours;
    assert sum * (hours * 36_000_000_000.0) == sum * ticks as real;
  }

  lemma HoursTicks(from: int, until: int)
    ensures HoursBetween(from, until) * 36_000_000_000.0 == (until - from) as real
  {
  }

  lemma MsTicks(ms: int)
    ensures MsToHours(ms) * 36_000_000_000.0 == (10_000 * ms) as real
  {
  }

  lemma ChannelOfStep(prev: Reading, cur: Reading, hours: real, c: Channel)
    ensures Amount(StepEnergy(prev, cur, hours), c)
         == if IsRead(cur, c) then Trapezoid(Power(prev, c), Power(cur, c), hours) else 0.0
  {
  }

  lemma StepEnergyTicks(prev: Reading, cur: Reading, hours: real, from: int, until: int, c: Channel)
    requires hours * 36_000_000_000.0 == (until - from) as real
    ensures Amount(StepEnergy(prev, cur, hours), c) * DOUBLE_TICKS_PER_HOUR == StepTicks(c, from, prev, until, cur)
  {
    ChannelOfStep(prev, cur, hours, c);
    TrapezoidTicks(Power(prev, c), Power(cur, c), hours, until - from);
  }

  lemma LiveTicks(l: Ledger, ts: int, cur: Reading, c: Channel)
    requires l.last.Some?
    ensures Amount(LiveEnergy(l, ts, cur), c) * DOUBLE_TICKS_PER_HOUR
         == StepTicks(c, l.last.value.0, l.last.value.1, ts, cur)
  {
    HoursTicks(l.last.value.0, ts);
    StepEnergyTicks(l.last.value.1, cur, HoursBetween(l.last.value.0, ts), l.last.value.0, ts, c);
  }

  /** The consumer that a key is taken for is the first one that has it, if any. */
  lemma {:induction false} ConsumerOfIsFirst(consumers: seq<(string, string)>, key: string)
    ensures forall id :: ConsumerOf(consumers, key) == Some(id) <==> MeasuresFirst(consumers, key, id)
    ensures ConsumerOf(consumers, key) == None <==> forall i :: 0 <= i < |consumers| ==> consumers[i].1 != key
  {
    if consumers != [] {
      var rest := consumers[1..];
      ConsumerOfIsFirst(rest, key);
      forall id | consumers[0].1 != key
        ensures MeasuresFirst(rest, key, id) <==> MeasuresFirst(consumers, key, id) {
        if MeasuresFirst(rest, key, id) {
          var i :| 0 <= i < |rest| && rest[i] == (id, key) && forall j :: 0 <= j < i ==> rest[j].1 != key;
          assert consumers[i + 1] == (id, key);
          assert forall j :: 0 < j < i + 1 ==> consumers[j] == rest[j - 1];
        }
        if MeasuresFirst(consumers, key, id) {
          var i :| 0 <= i < |consumers| && consumers[i] == (id, key) &&
              forall j :: 0 <= j < i ==> consumers[j].1 != key;
          assert rest[i - 1] == (id, key);
        }
      }
      if consumers[0].1 == key {
        assert MeasuresFirst(consumers, key, consumers[0].0);
      }
    }
  }

  lemma ClampedTicks(x: real, hours: real, ticks: int)
    requires ticks > 0 && hours * 36_000_000_000.0 == ticks as real
    ensures Positive(x * 0.5 * hours) * DOUBLE_TICKS_PER_HOUR == Above0(x) * ticks as real
  {
    PositiveScales(x, 0.5 * hours);
    assert x * 0.5 * hours == x * (0.5 * hours);
    assert Positive(x) * (0.5 * hours) * DOUBLE_TICKS_PER_HOUR == Positive(x) * (hours * 36_000_000_000.0);
  }

  lemma GridTicks(p: Pair, hours: real, ticks: int, c: Channel)
    requires hours * 36_000_000_000.0 == ticks as real && ticks == 10_000 * (p.until - p.from) > 0
    requires p.key == p.site.gridKey
    ensures Amount(PairEnergy(p.site, p.key, p.vFrom, p.vUntil, hours), c) * DOUBLE_TICKS_PER_HOUR == PairTicks(c, p)
  {
    DirectionTicks(Normalize(p.vFrom, p.site.invertGrid), Normalize(p.vUntil, p.site.invertGrid), hours, ticks);
  }

  lemma PvTicks(p: Pair, hours: real, ticks: int, c: Channel)
    requires hours * 36_000_000_000.0 == ticks as real && ticks == 10_000 * (p.until - p.from) > 0
    requires p.key == p.site.pvKey && p.key != p.site.gridKey
    ensures Amount(PairEnergy(p.site, p.key, p.vFrom, p.vUntil, hours), c) * DOUBLE_TICKS_PER_HOUR == PairTicks(c, p)
  {
    ClampedTicks(Normalize(p.vFrom, p.site.invertPv) + Normalize(p.vUntil, p.site.invertPv), hours, ticks);
  }

  lemma BatteryTicks(p: Pair, hours: real, ticks: int, c: Channel)
    requires hours * 36_000_000_000.0 == ticks as real && ticks == 10_000 * (p.until - p.from) > 0
    requires p.key == p.site.batteryKey && p.key != p.site.gridKey && p.key != p.site.pvKey
    ensures Amount(PairEnergy(p.site, p.key, p.vFrom, p.vUntil, hours), c) * DOUBLE_TICKS_PER_HOUR == PairTicks(c, p)
  {
    DirectionTicks(Normalize(p.vFrom, p.site.invertBattery), Normalize(p.vUntil, p.site.invertBattery), hours, ticks);
  }

  lemma ConsumerTicks(p: Pair, hours: real, ticks: int, c: Channel)
    requires hours * 36_000_000_000.0 == ticks as real && ticks == 10_000 * (p.until - p.from) > 0
    requires p.key != p.site.batteryKey && p.key != p.site.gridKey && p.key != p.site.pvKey
    ensures Amount(PairEnergy(p.site, p.key, p.vFrom, p.vUntil, hours), c) * DOUBLE_TICKS_PER_HOUR == PairTicks(c, p)
  {
    ConsumerOfIsFirst(p.site.consumers, p.key);
    DirectionTicks(p.vFrom, p.vUntil, hours, ticks);
  }

  lemma PairTicksOf(p: Pair, c: Channel)
    requires p.from < p.until
    ensures Amount(p.Deposited().energy, c) * DOUBLE_TICKS_PER_HOUR == PairTicks(c, p)
  {
    var hours, ticks := MsToHours(p.until - p.from), 10_000 * (p.until - p.from);
    MsTicks(p.until - p.from);
    if p.key == p.site.gridKey {
      GridTicks(p, hours, ticks, c);
    } else if p.key == p.site.pvKey {
      PvTicks(p, hours, ticks, c);
    } else if p.key == p.site.batteryKey {
      BatteryTicks(p, hours, ticks, c);
    } else {
      ConsumerTicks(p, hours, ticks, c);
    }
  }

  lemma DirectionTicks(a: real, b: real, hours: real, ticks: int)
    requires hours * 36_000_000_000.0 == ticks as real && ticks > 0
    ensures Positive(Trapezoid(a, b, hours)) * DOUBLE_TICKS_PER_HOUR == Span(a, b, ticks)
    ensures Positive(Trapezoid(-a, -b, hours)) * DOUBLE_TICKS_PER_HOUR == Span(-a, -b, ticks)
  {
    assert hours > 0.0;
    TrapezoidTicks(a, b, hours, ticks);
    TrapezoidTicks(-a, -b, hours, ticks);
  }

  // ---- All inputs ----

  /** The periods of a tier, and how many of them before the current one its window holds. */
  predicate IsTier(t: Tier, seconds: int, count: int) {
    match t
    case Minute => seconds == 60 && count == 24 * 60
    case Hour => seconds == 60 * 60 && count == 30 * 24
    case Day => seconds == 24 * 60 * 60 && count == 365
  }

  lemma LivePeriod(t: Tier, ts: int, seconds: int, count: int)
    requires IsTier(t, seconds, count)
    ensures TierKey(t, MinuteOf(ts)) == Whole(ts / 10_000_000, seconds)
  {
    var s := ts / 10_000_000;
    match t
    case Minute =>
    case Hour =>
    case Day =>
  }

  lemma StoredPeriod(t: Tier, ms: int, seconds: int, count: int)
    requires IsTier(t, seconds, count)
    ensures TierKey(t, TruncDiv(ms, 60_000)) == Whole(ms, 1000 * seconds)
  {
    match t
    case Minute =>
    case Hour =>
    case Day =>
  }

  lemma WindowIs(t: Tier, asOf: int, seconds: int, count: int, period: int)
    requires IsTier(t, seconds, count)
    ensures WindowStart(t, asOf) <= period <= WindowEnd(t, asOf) <==> Counts(period, asOf, seconds, count)
  {
    LivePeriod(t, asOf, seconds, count);
  }

  /** A log's total of a channel in the window of `asOf`, in double kW-ticks. */
  function Logged(log: seq<Deposit>, c: Channel, t: Tier, asOf: int): real {
    LogTotal(log, t, WindowStart(t, asOf), WindowEnd(t, asOf), c) * DOUBLE_TICKS_PER_HOUR
  }

  lemma TicksOfLive(log: seq<Deposit>, l: Ledger, ts: int, cur: Reading, c: Channel, t: Tier, seconds: int, count: int,
                    asOf: int)
    requires l.last.Some? && IsTier(t, seconds, count)
    ensures Logged(log + [LiveDeposit(l, ts, cur)], c, t, asOf)
         == Logged(log, c, t, asOf)
            + if Counts(Whole(ts / 10_000_000, seconds), asOf, seconds, count)
              then StepTicks(c, l.last.value.0, l.last.value.1, ts, cur) else 0.0
  {
    LogTotalAppend(log, LiveDeposit(l, ts, cur), t, WindowStart(t, asOf), WindowEnd(t, asOf), c);
    LivePeriod(t, ts, seconds, count);
    WindowIs(t, asOf, seconds, count, TierKey(t, MinuteOf(ts)));
    LiveTicks(l, ts, cur, c);
  }

  lemma TicksOfPair(log: seq<Deposit>, p: Pair, c: Channel, t: Tier, seconds: int, count: int, asOf: int)
    requires p.from < p.until && IsTier(t, seconds, count)
    ensures Logged(log + [p.Deposited()], c, t, asOf)
         == Logged(log, c, t, asOf)
            + if p.tier == t && Counts(Whole(p.until, 1000 * seconds), asOf, seconds, count)
              then PairTicks(c, p) else 0.0
  {
    LogTotalAppend(log, p.Deposited(), t, WindowStart(t, asOf), WindowEnd(t, asOf), c);
    StoredPeriod(t, p.until, seconds, count);
    WindowIs(t, asOf, seconds, count, TierKey(t, TruncDiv(p.until, 60_000)));
    PairTicksOf(p, c);
  }

  lemma TicksOfSample(h: History, l: Ledger, ts: int, reading: Reading, c: Channel, t: Tier, seconds: int, count: int,
                      asOf: int)
    requires IsTier(t, seconds, count)
    ensures Logged(Recorded(h, l, Sample(ts, reading)).log, c, t, asOf)
         == Next(Logged(h.log, c, t, asOf), l.last, Sampled(ts, reading), c, t, seconds, count, asOf)
  {
    if Accepted(l, ts) {
      TicksOfLive(h.log, l, ts, reading, c, t, seconds, count, asOf);
      assert Recorded(h, l, Sample(ts, reading)).log == h.log + [LiveDeposit(l, ts, reading)];
    } else {
      assert Recorded(h, l, Sample(ts, reading)).log == h.log;
    }
  }

  /** One more input of a run, logged. */
  lemma TicksOfInput(h: History, l: Ledger, x: Input, c: Channel, t: Tier, seconds: int, count: int, asOf: int)
    requires x.Stored? ==> x.pair.from < x.pair.until
    requires IsTier(t, seconds, count)
    ensures Logged(Recorded(h, l, StepOf(x)).log, c, t, asOf)
         == Next(Logged(h.log, c, t, asOf), l.last, x, c, t, seconds, count, asOf)
  {
    match x
    case Sampled(ts, reading) => TicksOfSample(h, l, ts, reading, c, t, seconds, count, asOf);
    case Stored(p) => TicksOfPair(h.log, p, c, t, seconds, count, asOf);
    case Restored(_) =>
  }

  lemma {:induction false} LogIsTicks(inputs: seq<Input>, c: Channel, t: Tier, seconds: int, count: int, asOf: int)
    requires Forward(inputs) && IsTier(t, seconds, count)
    ensures Logged(HistoryOf(Steps(inputs)).log, c, t, asOf)
         == Ticks(inputs, c, t, seconds, count, asOf)
  {
    if inputs != [] {
      var before, x := inputs[..|inputs| - 1], inputs[|inputs| - 1];
      LogIsTicks(before, c, t, seconds, count, asOf);
      LastIsLatestSample(before);
      StepsAppend(inputs);
      TicksOfInput(HistoryOf(Steps(before)), Run(Steps(before)), x, c, t, seconds, count, asOf);
    }
  }

  lemma TierTotalInTicks(inputs: seq<Input>, c: Channel, t: Tier, seconds: int, count: int, asOf: int)
    requires Forward(inputs) && IsTier(t, seconds, count)
    requires forall i :: 0 <= i < |inputs| && inputs[i].Sampled? ==> inputs[i].ts <= asOf
    ensures (RollingTotal(Run(Steps(inputs)), t, asOf, c) - RollingTotal(LastRestored(inputs), t, asOf, c))
            * DOUBLE_TICKS_PER_HOUR
         == Ticks(inputs, c, t, seconds, count, asOf)
  {
    RollingTotalIsFullTotal(Steps(inputs), t, asOf, c);
    LogIsFlow(inputs, t, WindowStart(t, asOf), WindowEnd(t, asOf), Grid);
    LogIsTicks(inputs, c, t, seconds, count, asOf);
  }

  /**
   * Whatever was sampled, backfilled and restored in whatever order, each of the three rolling totals of every channel
   * exceeds that of the state restored last by exactly the kW-ticks measured since: 72 * 10^9 double kW-ticks are one
   * kWh. The windows hold the current minute and 24 hours of minutes before it, the current hour and 30 days of hours,
   * the current day and 365 days.
   */
  lemma TotalsInTicks(inputs: seq<Input>, c: Channel, asOf: int)
    requires Forward(inputs)
    requires forall i :: 0 <= i < |inputs| && inputs[i].Sampled? ==> inputs[i].ts <= asOf
    ensures var now, was := Run(Steps(inputs)), LastRestored(inputs);
            && (RollingTotal(now, Minute, asOf, c) - RollingTotal(was, Minute, asOf, c)) * 72_000_000_000.0
               == Ticks(inputs, c, Minute, 60, 1440, asOf)
            && (RollingTotal(now, Hour, asOf, c) - RollingTotal(was, Hour, asOf, c)) * 72_000_000_000.0
               == Ticks(inputs, c, Hour, 3600, 720, asOf)
            && (RollingTotal(now, Day, asOf, c) - RollingTotal(was, Day, asOf, c)) * 72_000_000_000.0
               == Ticks(inputs, c, Day, 86_400, 365, asOf)
  {
    TierTotalInTicks(inputs, c, Minute, 60, 1440, asOf);
    TierTotalInTicks(inputs, c, Hour, 3600, 720, asOf);
    TierTotalInTicks(inputs, c, Day, 86_400, 365, asOf);
  }

  // ---- One backfill pass ----

  lemma {:induction false} ValuedPoints(pts: seq<TsPoint>, p: TsPoint)
    ensures multiset(WithValue(pts))[p] == if p.value.Some? then multiset(pts)[p] else 0
  {
    if pts != [] {
      var init, last := pts[..|pts| - 1], pts[|pts| - 1];
      ValuedPoints(init, p);
      assert pts == init + [last];
    }
  }

  /** The points with a value, each as often as it is stored, oldest first; equal times keep their order. */
  lemma UsablePoints(pts: seq<TsPoint>, p: TsPoint, ts: int)
    ensures multiset(Usable(pts))[p] == if p.value.Some? then multiset(pts)[p] else 0
    ensures SortedBy(Usable(pts), (p: TsPoint) => p.ts)
    ensures Equals(Usable(pts), (p: TsPoint) => p.ts, ts) == Equals(WithValue(pts), (p: TsPoint) => p.ts, ts)
  {
    ValuedPoints(pts, p);
    StableSortKeepsOrder(WithValue(pts), (p: TsPoint) => p.ts, ts);
  }

  /** The stored pairs of a key: every step between neighbours that takes time, but no more than `limit` ms. */
  function KeyPairs(site: Site, key: string, sorted: seq<TsPoint>, limit: int, t: Tier): seq<Input>
    requires forall p :: p in sorted ==> p.value.Some?
  {
    if |sorted| < 2 then []
    else
      var a, b := sorted[|sorted| - 2], sorted[|sorted| - 1];
      KeyPairs(site, key, sorted[..|sorted| - 1], limit, t) +
      if 0 < b.ts - a.ts <= limit then [Stored(Pair(site, key, a.ts, a.value.value, b.ts, b.value.value, t))] else []
  }

  function PassPairs(site: Site, series: Series, limit: int, t: Tier): seq<Input> {
    if series == [] then []
    else
      var (key, pts) := series[|series| - 1];
      PassPairs(site, series[..|series| - 1], limit, t) + KeyPairs(site, key, Usable(pts), limit, t)
  }

  /** What one deposit adds to a channel in the window of `asOf`, in double kW-ticks. */
  function Worth(d: Deposit, c: Channel, t: Tier, asOf: int): real {
    Share(d, t, WindowStart(t, asOf), WindowEnd(t, asOf), c) * DOUBLE_TICKS_PER_HOUR
  }

  /** What deposits add to a channel in the window of `asOf`, in double kW-ticks. */
  function Gain(items: seq<Integrated>, c: Channel, t: Tier, asOf: int): real {
    if items == [] then 0.0
    else
      Gain(items[..|items| - 1], c, t, asOf) + Worth(items[|items| - 1].deposit, c, t, asOf)
  }

  lemma {:induction false} GainConcat(xs: seq<Integrated>, ys: seq<Integrated>, c: Channel, t: Tier, asOf: int)
    ensures Gain(xs + ys, c, t, asOf) == Gain(xs, c, t, asOf) + Gain(ys, c, t, asOf)
  {
    if ys == [] {
      assert xs + ys == xs;
    } else {
      GainConcat(xs, ys[..|ys| - 1], c, t, asOf);
      assert (xs + ys)[..|xs + ys| - 1] == xs + ys[..|ys| - 1];
    }
  }

  ghost predicate AllStored(inputs: seq<Input>) {
    forall i :: 0 <= i < |inputs| ==> inputs[i].Stored?
  }

  lemma {:induction false} TicksConcat(xs: seq<Input>, ys: seq<Input>, c: Channel, t: Tier, seconds: int, count: int,
                                       asOf: int)
    requires AllStored(ys) && seconds > 0
    ensures Ticks(xs + ys, c, t, seconds, count, asOf)
         == Ticks(xs, c, t, seconds, count, asOf) + Ticks(ys, c, t, seconds, count, asOf)
  {
    if ys == [] {
      assert xs + ys == xs;
    } else {
      TicksConcat(xs, ys[..|ys| - 1], c, t, seconds, count, asOf);
      assert (xs + ys)[..|xs + ys| - 1] == xs + ys[..|ys| - 1];
    }
  }

  /** A key without channels measures nothing. */
  lemma UnmeasuredPair(p: Pair, c: Channel)
    requires ChannelsOf(p.site, p.key) == {}
    ensures PairTicks(c, p) == 0.0
  {
    ConsumerOfIsFirst(p.site.consumers, p.key);
  }

  /** What a stored pair adds in the window of `asOf`. */
  ghost function PairWorth(p: Pair, c: Channel, t: Tier, seconds: int, count: int, asOf: int): real
    requires seconds > 0
  {
    if p.tier == t && Counts(Whole(p.until, 1000 * seconds), asOf, seconds, count) then PairTicks(c, p) else 0.0
  }

  lemma PairGain(p: Pair, c: Channel, t: Tier, seconds: int, count: int, asOf: int)
    requires p.from < p.until && IsTier(t, seconds, count)
    ensures Worth(p.Deposited(), c, t, asOf) == PairWorth(p, c, t, seconds, count, asOf)
  {
    StoredPeriod(t, p.until, seconds, count);
    WindowIs(t, asOf, seconds, count, TierKey(t, TruncDiv(p.until, 60_000)));
    PairTicksOf(p, c);
  }

  lemma TicksAppend(pairs: seq<Input>, p: Pair, c: Channel, t: Tier, seconds: int, count: int, asOf: int)
    requires seconds > 0
    ensures Ticks(pairs + [Stored(p)], c, t, seconds, count, asOf)
         == Ticks(pairs, c, t, seconds, count, asOf) + PairWorth(p, c, t, seconds, count, asOf)
  {
    assert (pairs + [Stored(p)])[..|pairs|] == pairs;
  }

  lemma GainLast(items: seq<Integrated>, item: Integrated, c: Channel, t: Tier, asOf: int)
    ensures Gain(items + [item], c, t, asOf) == Gain(items, c, t, asOf) + Worth(item.deposit, c, t, asOf)
  {
    assert (items + [item])[..|items|] == items;
  }

  /** One more pair, and its deposit if the key measures anything. */
  lemma GainAppend(items: seq<Integrated>, pairs: seq<Input>, p: Pair, item: Integrated, c: Channel, t: Tier,
                   seconds: int, count: int, asOf: int)
    requires p.from < p.until && IsTier(t, seconds, count) && item.deposit == p.Deposited()
    requires Gain(items, c, t, asOf) == Ticks(pairs, c, t, seconds, count, asOf)
    ensures Gain(items + [item], c, t, asOf) == Ticks(pairs + [Stored(p)], c, t, seconds, count, asOf)
    ensures ChannelsOf(p.site, p.key) == {} ==>
      Gain(items, c, t, asOf) == Ticks(pairs + [Stored(p)], c, t, seconds, count, asOf)
  {
    PairGain(p, c, t, seconds, count, asOf);
    TicksAppend(pairs, p, c, t, seconds, count, asOf);
    GainLast(items, item, c, t, asOf);
    if ChannelsOf(p.site, p.key) == {} {
      UnmeasuredPair(p, c);
    }
  }

  lemma KeyDepositsNext(site: Site, key: string, sorted: seq<TsPoint>, limit: int, tier: Tier)
    requires |sorted| >= 2 && forall p :: p in sorted ==> p.value.Some?
    ensures var init, a, b := sorted[..|sorted| - 1], sorted[|sorted| - 2], sorted[|sorted| - 1];
            var items, pairs := KeyDeposits(site, key, init, limit, tier), KeyPairs(site, key, init, limit, tier);
            var p := Pair(site, key, a.ts, a.value.value, b.ts, b.value.value, tier);
            var near := 0 < b.ts - a.ts <= limit;
            && PairDeposit(site, key, a, b, tier).deposit == p.Deposited()
            && KeyDeposits(site, key, sorted, limit, tier)
               == (if near && ChannelsOf(site, key) != {} then items + [PairDeposit(site, key, a, b, tier)] else items)
            && KeyPairs(site, key, sorted, limit, tier) == (if near then pairs + [Stored(p)] else pairs)
  {
    var init, a, b := sorted[..|sorted| - 1], sorted[|sorted| - 2], sorted[|sorted| - 1];
    var items, pairs := KeyDeposits(site, key, init, limit, tier), KeyPairs(site, key, init, limit, tier);
    assert pairs + [] == pairs && items + [] == items;
    assert a == TsPoint(a.ts, Some(a.value.value)) && b == TsPoint(b.ts, Some(b.value.value));
  }

  lemma {:induction false} KeyPairsStored(site: Site, key: string, sorted: seq<TsPoint>, limit: int, tier: Tier)
    requires forall p :: p in sorted ==> p.value.Some?
    ensures AllStored(KeyPairs(site, key, sorted, limit, tier))
  {
    if |sorted| >= 2 {
      KeyPairsStored(site, key, sorted[..|sorted| - 1], limit, tier);
    }
  }

  lemma {:induction false} KeyGain(site: Site, key: string, sorted: seq<TsPoint>, limit: int, tier: Tier, c: Channel,
                                   t: Tier, seconds: int, count: int, asOf: int)
    requires forall p :: p in sorted ==> p.value.Some?
    requires IsTier(t, seconds, count)
    ensures Gain(KeyDeposits(site, key, sorted, limit, tier), c, t, asOf)
         == Ticks(KeyPairs(site, key, sorted, limit, tier), c, t, seconds, count, asOf)
  {
    if |sorted| >= 2 {
      var init := sorted[..|sorted| - 1];
      KeyGain(site, key, init, limit, tier, c, t, seconds, count, asOf);
      KeyDepositsNext(site, key, sorted, limit, tier);
      KeyGainNext(site, key, sorted, limit, tier, KeyDeposits(site, key, init, limit, tier),
                  KeyPairs(site, key, init, limit, tier), c, t, seconds, count, asOf);
    }
  }

  lemma KeyGainNext(site: Site, key: string, sorted: seq<TsPoint>, limit: int, tier: Tier, items: seq<Integrated>,
                    pairs: seq<Input>, c: Channel, t: Tier, seconds: int, count: int, asOf: int)
    requires |sorted| >= 2 && forall p :: p in sorted ==> p.value.Some?
    requires IsTier(t, seconds, count) && Gain(items, c, t, asOf) == Ticks(pairs, c, t, seconds, count, asOf)
    ensures var a, b := sorted[|sorted| - 2], sorted[|sorted| - 1];
            var p := Pair(site, key, a.ts, a.value.value, b.ts, b.value.value, tier);
            var item := PairDeposit(site, key, a, b, tier);
            0 < b.ts - a.ts <= limit ==>
              Gain(if ChannelsOf(site, key) != {} then items + [item] else items, c, t, asOf)
              == Ticks(pairs + [Stored(p)], c, t, seconds, count, asOf)
  {
    var a, b := sorted[|sorted| - 2], sorted[|sorted| - 1];
    if 0 < b.ts - a.ts <= limit {
      assert a == TsPoint(a.ts, Some(a.value.value)) && b == TsPoint(b.ts, Some(b.value.value));
      GainAppend(items, pairs, Pair(site, key, a.ts, a.value.value, b.ts, b.value.value, tier),
                 PairDeposit(site, key, a, b, tier), c, t, seconds, count, asOf);
    }
  }

  lemma {:induction false} PassGain(site: Site, series: Series, limit: int, tier: Tier, c: Channel, t: Tier,
                                    seconds: int, count: int, asOf: int)
    requires IsTier(t, seconds, count)
    ensures AllStored(PassPairs(site, series, limit, tier))
    ensures Gain(PassDeposits(site, series, limit, tier), c, t, asOf)
         == Ticks(PassPairs(site, series, limit, tier), c, t, seconds, count, asOf)
  {
    if series != [] {
      var init := series[..|series| - 1];
      var (key, pts) := series[|series| - 1];
      PassGain(site, init, limit, tier, c, t, seconds, count, asOf);
      KeyPairsStored(site, key, Usable(pts), limit, tier);
      KeyGain(site, key, Usable(pts), limit, tier, c, t, seconds, count, asOf);
      GainConcat(PassDeposits(site, init, limit, tier), KeyDeposits(site, key, Usable(pts), limit, tier), c, t, asOf);
      TicksConcat(PassPairs(site, init, limit, tier), KeyPairs(site, key, Usable(pts), limit, tier), c, t, seconds,
                  count, asOf);
    }
  }

  lemma {:induction false} WindowGrows(l: Ledger, d: Deposit, t: Tier, lo: int, hi: int, c: Channel)
    ensures WindowTotal(Of(AddDelta(l, d.minute, d.energy, d.tiers), t), lo, hi, c)
         == WindowTotal(Of(l, t), lo, hi, c) + Share(d, t, lo, hi, c)
    decreases hi - lo
  {
    if lo <= hi {
      WindowGrows(l, d, t, lo, hi - 1, c);
      AddDeltaAt(l, d, t, hi, c);
    }
  }

  lemma {:induction false} AllGrow(l: Ledger, items: seq<Integrated>, c: Channel, t: Tier, asOf: int)
    ensures (RollingTotal(AddAll(l, items), t, asOf, c) - RollingTotal(l, t, asOf, c)) * DOUBLE_TICKS_PER_HOUR
         == Gain(items, c, t, asOf)
  {
    if items != [] {
      AllGrow(l, items[..|items| - 1], c, t, asOf);
      WindowGrows(AddAll(l, items[..|items| - 1]), items[|items| - 1].deposit, t, WindowStart(t, asOf),
                  WindowEnd(t, asOf), c);
    }
  }

  /**
   * What a pass over the series adds to the rolling total of any tier and channel: exactly the kW-ticks of the steps
   * between neighbouring usable points of each key that take at most `limit` ms, in its own tier.
   */
  lemma PassInTicks(l: Ledger, site: Site, series: Series, limit: int, tier: Tier, c: Channel, t: Tier, seconds: int,
                    count: int, asOf: int)
    requires IsTier(t, seconds, count)
    ensures (RollingTotal(AddAll(l, PassDeposits(site, series, limit, tier)), t, asOf, c)
             - RollingTotal(l, t, asOf, c)) * 72_000_000_000.0
         == Ticks(PassPairs(site, series, limit, tier), c, t, seconds, count, asOf)
  {
    AllGrow(l, PassDeposits(site, series, limit, tier), c, t, asOf);
    PassGain(site, series, limit, tier, c, t, seconds, count, asOf);
  }

  /** The longest step of a pass, in ms: 5 minutes, 2 hours or 2 days. */
  predicate IsLimit(t: Tier, limit: int) {
    match t
    case Minute => limit == 5 * 60 * 1000
    case Hour => limit == 2 * 60 * 60 * 1000
    case Day => limit == 2 * 24 * 60 * 60 * 1000
  }

  lemma BootstrapInTicks(l: Ledger, site: Site, series: Series, limit: int, tier: Tier, c: Channel, t: Tier,
                         seconds: int, count: int, asOf: int)
    requires IsTier(t, seconds, count) && IsLimit(tier, limit)
    ensures (RollingTotal(AddAll(l, Made(site, series, tier)), t, asOf, c) - RollingTotal(l, t, asOf, c))
            * 72_000_000_000.0
         == Ticks(PassPairs(site, series, limit, tier), c, t, seconds, count, asOf)
  {
    LimitOf(tier, limit);
    PassInTicks(l, site, series, limit, tier, c, t, seconds, count, asOf);
  }

  lemma LimitOf(tier: Tier, limit: int)
    requires IsLimit(tier, limit)
    ensures MaxDelta(tier) == limit
  {
  }

  /**
   * Where nothing is stored yet, the passes reach back 24 hours, 30 days and 365 days from the bootstrap, and up to the
   * start of the minute, hour and day it falls into; all in ms.
   */
  lemma PassRange(t: Tier, seconds: int, count: int, boot: int, start: int)
    requires IsTier(t, seconds, count) && IsBackfillStart(map[], t, WindowFrom(boot, t), start)
    ensures start == boot / 10_000 - 1000 * seconds * count
    ensures PassEnd(boot, t) == Whole(boot / 10_000, 1000 * seconds) * (1000 * seconds)
  {
    match t
    case Minute =>
    case Hour =>
    case Day =>
  }

  /** A pass that begins within an hour of its bootstrap, in the hour and day tiers within a day, is timely. */
  lemma TimelyWithin(boot: int, begun: int)
    requires 0 <= boot <= begun
    ensures begun - boot <= 3600 * 10_000_000 ==> Timely(Minute, boot, begun)
    ensures begun - boot <= 24 * 3600 * 10_000_000 ==> Timely(Hour, boot, begun) && Timely(Day, boot, begun)
  {
    LivePeriod(Minute, boot, 60, 1440);
    LivePeriod(Minute, begun, 60, 1440);
    LivePeriod(Hour, boot, 3600, 720);
    LivePeriod(Hour, begun, 3600, 720);
    LivePeriod(Day, boot, 86_400, 365);
    LivePeriod(Day, begun, 86_400, 365);
  }
}
