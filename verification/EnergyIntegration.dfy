/**
 * No stretch of time is integrated twice: process lives with live samples, saves, restarts and
 * backfill passes in any interleaving, seen from one retention tier.
 */
module EnergyIntegration {
  import opened Wrappers
  import opened Ordering
  import opened TimeSeries
  import opened EnergyFlows
  import opened RollingLedger
  import opened RollingRuns
  import opened EnergyBackfill

  /** Deposits whose bucket still exists, under serial numbers. */
  type Held = map<nat, Integrated>

  /** One run of the historical backfill, and what its current pass still has to add. */
  datatype Backfill = Backfill(
    boot: int,                  // `now` of the bootstrap
    begun: int,                 // when the current pass began
    pending: seq<Integrated>)

  datatype World = World(
    mem: Ledger,                       // the buckets of the running process
    held: Held,                        // what the buckets of the tier consist of
    next: nat,                         // next serial number
    saved: Option<(Envelope, Held)>,   // the last saved state and what it consists of
    backfills: seq<Backfill>,          // those of this process, oldest first
    clock: int)                        // latest time seen

  /** What one step may be. Boot and sample times are ticks, everything about the store is Unix ms. */
  datatype Event =
    | Save(env: Envelope)
    | Boot(now: int)
    | Again(now: int)
    | Live(ts: int, reading: Reading)
    | BeginPass(b: nat, tier: Tier, start: int, site: Site, series: Series)
    | PassStep(b: nat)

  type Series = seq<(string, seq<TsPoint>)>

  /** `TruncateTo(now, bucketSize)` in ms; the conversion of ticks to ms floors. */
  function PassEnd(now: int, t: Tier): int {
    TruncDiv(now / TICKS_PER_MS, BucketMs(t)) * BucketMs(t)
  }

  /** 24 hours, 30 days or 365 days before the bootstrap, in ms. */
  function WindowFrom(now: int, t: Tier): int {
    (now - WindowLength(t) * BucketMs(t) * TICKS_PER_MS) / TICKS_PER_MS
  }

  /** The longest step of stored points a pass of the tier integrates. */
  function MaxDelta(t: Tier): int {
    match t case Minute => 300_000 case Hour => 2 * 3_600_000 case Day => 2 * 86_400_000
  }

  /** The store returns points between the two ends, one series per key. */
  ghost predicate Answers(series: Series, start: int, end: int) {
    && (forall i, j :: 0 <= i < j < |series| ==> series[i].0 != series[j].0)
    && (forall i, p :: 0 <= i < |series| && p in series[i].1 ==> start <= p.ts <= end)
  }

  ghost predicate DistinctConsumers(site: Site) {
    forall i, j :: 0 <= i < j < |site.consumers| ==> site.consumers[i].0 != site.consumers[j].0
  }

  /**
   * When a step can happen: the clock never runs back, and a pass starts where the calculator says. The passes
   * of one backfill follow each other; those of different backfills interleave.
   */
  ghost predicate Enabled(w: World, e: Event) {
    match e
    case Save(env) => IsSaved(env, w.mem)
    case Boot(now) => w.clock <= now
    case Again(now) => w.clock <= now
    case Live(ts, _) => w.clock <= ts
    case BeginPass(b, t, start, site, series) =>
      && b < |w.backfills| && w.backfills[b].pending == []
      && IsBackfillStart(Of(w.mem, t), t, WindowFrom(w.backfills[b].boot, t), start)
      && Answers(series, start, PassEnd(w.backfills[b].boot, t))
      && DistinctConsumers(site)
    case PassStep(b) => b < |w.backfills| && w.backfills[b].pending != []
  }

  function LiveIntegrated(l: Ledger, ts: int, cur: Reading): Integrated
    requires l.last.Some?
  {
    Integrated(Deposit(MinuteOf(ts), LiveEnergy(l, ts, cur), ALL_TIERS), Every, l.last.value.0, ts)
  }

  function DropPruned(held: Held, t: Tier, cutoff: int): Held {
    map n | n in held && TierKey(t, held[n].deposit.minute) >= cutoff :: held[n]
  }

  /** What the tier consists of once the live step is integrated, before anything is pruned. */
  ghost function Grown(w: World, ts: int, cur: Reading): Held {
    if Accepted(w.mem, ts) then w.held[w.next := LiveIntegrated(w.mem, ts, cur)] else w.held
  }

  ghost function After(t: Tier, w: World, e: Event): World
    requires Enabled(w, e)
  {
    match e
    case Save(env) => w.(saved := Some((env, w.held)))
    case Boot(now) =>
      // a fresh process: restored buckets, no previous sample, one backfill
      w.(mem := if w.saved.Some? then Restore(EMPTY_LEDGER, w.saved.value.0) else EMPTY_LEDGER,
         held := if w.saved.Some? then w.saved.value.1 else map[],
         backfills := [Backfill(now, now, [])], clock := now)
    case Again(now) =>
      // the running process is initialised again: restored buckets and one more backfill, but the previous
      // sample stays, and so do the backfills that are still running
      w.(mem := if w.saved.Some? then Restore(w.mem, w.saved.value.0) else w.mem,
         held := if w.saved.Some? then w.saved.value.1 else w.held,
         backfills := w.backfills + [Backfill(now, now, [])], clock := now)
    case Live(ts, reading) =>
      w.(mem := RecordSample(w.mem, ts, reading), held := DropPruned(Grown(w, ts, reading), t, Cutoff(t, ts)),
          next := w.next + 1, clock := ts)
    case BeginPass(b, tier, start, site, series) =>
      if start < PassEnd(w.backfills[b].boot, tier)
      then w.(backfills := w.backfills[b := Backfill(w.backfills[b].boot, w.clock, Made(site, series, tier))])
      else w
    case PassStep(b) =>
      var item, rest := w.backfills[b].pending[0], w.backfills[b].pending[1..];
      var d := item.deposit;
      w.(mem := AddDelta(w.mem, d.minute, d.energy, d.tiers),
         held := if t in d.tiers then w.held[w.next := item] else w.held,
         next := w.next + 1, backfills := w.backfills[b := w.backfills[b].(pending := rest)])
  }

  /** The deposits of one pass. */
  function Made(site: Site, series: Series, t: Tier): seq<Integrated> {
    PassDeposits(site, series, MaxDelta(t), t)
  }

  // ---- The invariant ----

  ghost predicate Apart(a: Integrated, b: Integrated) {
    (exists c :: Covers(a.coverage, c) && Covers(b.coverage, c)) ==> a.until <= b.from || b.until <= a.from
  }

  /** End of the bucket of tier `t` a deposit goes to, in ticks. */
  function BucketEnd(t: Tier, minute: int): int {
    (TierKey(t, minute) + 1) * BucketMs(t) * TICKS_PER_MS
  }

  ghost predicate AllApart(held: Held) {
    forall m, n :: m in held && n in held && m != n ==> Apart(held[m], held[n])
  }

  /** Every held deposit lies in an existing bucket, ends within it, and not after `clock`. */
  ghost predicate Grounded(held: Held, t: Tier, b: Buckets, clock: int) {
    forall n :: n in held ==>
      var d := held[n];
      && TierKey(t, d.deposit.minute) in b
      && d.until <= BucketEnd(t, d.deposit.minute)
      && d.until <= clock
  }

  ghost predicate PassApart(pending: seq<Integrated>) {
    forall i, j :: 0 <= i < j < |pending| ==> Apart(pending[i], pending[j])
  }

  /** A deposit from two stored points of one key. */
  ghost predicate FromStore(item: Integrated, site: Site, t: Tier) {
    exists key, a: TsPoint, b: TsPoint ::
      && a.value.Some? && b.value.Some? && ChannelsOf(site, key) != {} && 0 < b.ts - a.ts <= MaxDelta(t)
      && item == PairDeposit(site, key, a, b, t)
  }

  /** A pending deposit of the tier ends where a pass may end, within its bucket. */
  ghost predicate PendingOk(pending: seq<Integrated>, t: Tier, boot: int) {
    forall i :: 0 <= i < |pending| && t in pending[i].deposit.tiers ==>
      && pending[i].until <= PassEnd(boot, t) * TICKS_PER_MS
      && pending[i].until <= BucketEnd(t, pending[i].deposit.minute)
      && exists site :: DistinctConsumers(site) && FromStore(pending[i], site, t)
  }

  ghost predicate ClearOf(pending: seq<Integrated>, t: Tier, held: Held) {
    forall i, n :: 0 <= i < |pending| && t in pending[i].deposit.tiers && n in held ==> Apart(pending[i], held[n])
  }

  /** The pending deposits of two backfills have no time in common. */
  ghost predicate Beside(xs: seq<Integrated>, ys: seq<Integrated>, t: Tier) {
    forall i, j :: 0 <= i < |xs| && 0 <= j < |ys| && t in xs[i].deposit.tiers && t in ys[j].deposit.tiers ==>
      Apart(xs[i], ys[j])
  }

  /** A pass of the tier began before anything of its window could be pruned. */
  predicate Timely(t: Tier, boot: int, begun: int) {
    TierKey(t, MinuteOf(begun)) - TierKey(t, MinuteOf(boot)) <= Retention(t) - WindowLength(t)
  }

  ghost predicate BackfillOk(t: Tier, b: Backfill, held: Held, saved: Option<(Envelope, Held)>, clock: int) {
    && 0 <= b.boot <= clock
    && PassApart(b.pending)
    && PendingOk(b.pending, t, b.boot)
    && ClearOf(b.pending, t, held)
    && (saved.Some? && Timely(t, b.boot, b.begun) ==> ClearOf(b.pending, t, saved.value.1))
  }

  ghost predicate BackfillsOk(t: Tier, bs: seq<Backfill>, held: Held, saved: Option<(Envelope, Held)>, clock: int) {
    && (forall b :: 0 <= b < |bs| ==> BackfillOk(t, bs[b], held, saved, clock))
    && (forall b, c :: 0 <= b < |bs| && 0 <= c < |bs| && b != c ==> Beside(bs[b].pending, bs[c].pending, t))
  }

  /** What was saved is still there, or was pruned since. */
  ghost predicate SavedOrPruned(t: Tier, saved: Held, held: Held, clock: int) {
    forall n :: n in saved ==>
      (n in held && held[n] == saved[n]) || TierKey(t, saved[n].deposit.minute) < Cutoff(t, clock)
  }

  ghost predicate EndBy(held: Held, time: int) {
    forall n :: n in held ==> held[n].until <= time
  }

  ghost predicate PassesEndBy(t: Tier, bs: seq<Backfill>, time: int) {
    forall b :: 0 <= b < |bs| ==> PassEnd(bs[b].boot, t) * TICKS_PER_MS <= time
  }

  /** The next live step begins where everything integrated so far ends, or is too long to be accepted. */
  ghost predicate LastSampleOk(t: Tier, w: World) {
    w.mem.last.Some? ==>
      var last := w.mem.last.value.0;
      && 0 <= last <= w.clock
      && (|| w.clock - last > MAX_STEP
          || (&& EndBy(w.held, last) && (w.saved.Some? ==> EndBy(w.saved.value.1, last))
              && PassesEndBy(t, w.backfills, last)))
  }

  ghost predicate SavedOk(t: Tier, w: World) {
    w.saved.Some? ==>
      var (env, held) := w.saved.value;
      && env.version >= CURRENT_STATE_VERSION
      && AllApart(held)
      && Grounded(held, t, BucketsOf(ListOf(env, t)), w.clock)
      && (forall n :: n in held ==> n < w.next)
      && SavedOrPruned(t, held, w.held, w.clock)
  }

  ghost predicate Inv(t: Tier, w: World) {
    && 0 <= w.clock
    && AllApart(w.held)
    && Grounded(w.held, t, Of(w.mem, t), w.clock)
    && (forall n :: n in w.held ==> n < w.next)
    && SavedOk(t, w)
    && LastSampleOk(t, w)
    && BackfillsOk(t, w.backfills, w.held, w.saved, w.clock)
  }

  lemma BucketEndAfterSample(t: Tier, ts: int)
    ensures ts <= BucketEnd(t, MinuteOf(ts))
  {
  }

  // ---- One pass ----

  lemma {:induction false} ConsumerIndex(consumers: seq<(string, string)>, key: string)
    requires ConsumerOf(consumers, key).Some?
    ensures exists i :: 0 <= i < |consumers| && consumers[i] == (ConsumerOf(consumers, key).value, key)
  {
    if consumers[0].1 == key {
      assert consumers[0] == (ConsumerOf(consumers, key).value, key);
    } else {
      ConsumerIndex(consumers[1..], key);
      var i :| 0 <= i < |consumers[1..]| && consumers[1..][i] == (ConsumerOf(consumers, key).value, key);
      assert consumers[i + 1] == consumers[1..][i];
    }
  }

  /** Different keys feed different channels. */
  lemma ChannelsDisjoint(site: Site, key: string, key': string)
    requires DistinctConsumers(site) && key != key'
    ensures ChannelsOf(site, key) !! ChannelsOf(site, key')
  {
    var a, b := ConsumerOf(site.consumers, key), ConsumerOf(site.consumers, key');
    if a.Some? && a == b {
      ConsumerIndex(site.consumers, key);
      ConsumerIndex(site.consumers, key');
    }
  }

  ghost predicate Within(item: Integrated, t: Tier, lo: int, hi: int) {
    && item.deposit.tiers == {t}
    && lo * TICKS_PER_MS <= item.from < item.until <= hi * TICKS_PER_MS
    && item.until % TICKS_PER_MS == 0
    && item.deposit.minute == TruncDiv(item.until / TICKS_PER_MS, 60_000)
    && item.until <= BucketEnd(t, item.deposit.minute)
  }

  ghost predicate Chained(items: seq<Integrated>) {
    forall i, j :: 0 <= i < j < |items| ==> items[i].until <= items[j].from
  }

  ghost predicate AllFrom(items: seq<Integrated>, site: Site, key: string, t: Tier, lo: int, hi: int) {
    forall i :: 0 <= i < |items| ==> items[i].coverage == Only(ChannelsOf(site, key)) && Within(items[i], t, lo, hi)
  }

  lemma PairWithin(site: Site, key: string, a: TsPoint, b: TsPoint, t: Tier, lo: int, hi: int)
    requires a.value.Some? && b.value.Some? && lo <= a.ts < b.ts <= hi
    ensures Within(PairDeposit(site, key, a, b, t), t, lo, hi)
  {
  }

  lemma AppendItem(items: seq<Integrated>, item: Integrated, site: Site, key: string, t: Tier, lo: int, mid: int,
                   hi: int)
    requires AllFrom(items, site, key, t, lo, mid) && Chained(items) && mid <= hi
    requires item.coverage == Only(ChannelsOf(site, key)) && Within(item, t, lo, hi) && mid * TICKS_PER_MS <= item.from
    ensures AllFrom(items + [item], site, key, t, lo, hi) && Chained(items + [item])
  {
  }

  /** The deposits of one key follow each other in time. */
  lemma {:induction false} KeyItems(site: Site, key: string, sorted: seq<TsPoint>, maxDeltaMs: int, t: Tier, lo: int,
                                    hi: int)
    requires forall p :: p in sorted ==> p.value.Some?
    requires SortedBy(sorted, (p: TsPoint) => p.ts)
    requires forall i :: 0 <= i < |sorted| ==> lo <= sorted[i].ts <= hi
    ensures AllFrom(KeyDeposits(site, key, sorted, maxDeltaMs, t), site, key, t, lo, hi)
    ensures Chained(KeyDeposits(site, key, sorted, maxDeltaMs, t))
  {
    if |sorted| >= 2 {
      var init, a, b := sorted[..|sorted| - 1], sorted[|sorted| - 2], sorted[|sorted| - 1];
      forall i | 0 <= i < |init| ensures init[i].ts <= a.ts {
        assert init[i] == sorted[i] && init[|init| - 1] == a;
      }
      KeyItems(site, key, init, maxDeltaMs, t, lo, a.ts);
      assert a.ts <= b.ts;
      if 0 < b.ts - a.ts {
        PairWithin(site, key, a, b, t, lo, hi);
        AppendItem(KeyDeposits(site, key, init, maxDeltaMs, t), PairDeposit(site, key, a, b, t), site, key, t, lo,
            a.ts, hi);
      }
    }
  }

  ghost predicate AllWithin(items: seq<Integrated>, t: Tier, lo: int, hi: int) {
    forall i :: 0 <= i < |items| ==> Within(items[i], t, lo, hi)
  }

  ghost predicate FromSeries(items: seq<Integrated>, site: Site, series: Series) {
    forall i :: 0 <= i < |items| ==>
      exists n :: 0 <= n < |series| && items[i].coverage == Only(ChannelsOf(site, series[n].0))
  }

  /** The deposits of a pass lie between its ends and integrate no time twice among themselves. */
  lemma {:induction false} PassItems(site: Site, series: Series, t: Tier, lo: int, hi: int)
    requires Answers(series, lo, hi) && DistinctConsumers(site)
    ensures AllWithin(Made(site, series, t), t, lo, hi)
    ensures PassApart(Made(site, series, t))
    ensures FromSeries(Made(site, series, t), site, series)
  {
    if series != [] {
      var n := |series| - 1;
      var (key, pts) := series[n];
      PassItems(site, series[..n], t, lo, hi);
      KeyItems(site, key, Usable(pts), MaxDelta(t), t, lo, hi);
      var before, last := Made(site, series[..n], t), KeyDeposits(site, key, Usable(pts), MaxDelta(t), t);
      OtherKeysApart(before, last, site, series, t, lo, hi);
      ConcatApart(before, last);
      SeriesGrow(before, last, site, series, t, lo, hi);
    }
  }

  ghost predicate AllFromStore(items: seq<Integrated>, site: Site, t: Tier) {
    forall i :: 0 <= i < |items| ==> FromStore(items[i], site, t)
  }

  lemma {:induction false} KeyFromStore(site: Site, key: string, sorted: seq<TsPoint>, t: Tier)
    requires forall p :: p in sorted ==> p.value.Some?
    ensures AllFromStore(KeyDeposits(site, key, sorted, MaxDelta(t), t), site, t)
  {
    if |sorted| >= 2 {
      KeyFromStore(site, key, sorted[..|sorted| - 1], t);
      var a, b := sorted[|sorted| - 2], sorted[|sorted| - 1];
      if 0 < b.ts - a.ts <= MaxDelta(t) && ChannelsOf(site, key) != {} {
        assert FromStore(PairDeposit(site, key, a, b, t), site, t);
      }
    }
  }

  lemma {:induction false} PassFromStore(site: Site, series: Series, t: Tier)
    ensures AllFromStore(Made(site, series, t), site, t)
  {
    if series != [] {
      var (key, pts) := series[|series| - 1];
      PassFromStore(site, series[..|series| - 1], t);
      KeyFromStore(site, key, Usable(pts), t);
    }
  }

  lemma OtherKeysApart(before: seq<Integrated>, last: seq<Integrated>, site: Site, series: Series,
                       t: Tier, lo: int, hi: int)
    requires DistinctConsumers(site) && series != []
    requires forall i, j :: 0 <= i < j < |series| ==> series[i].0 != series[j].0
    requires FromSeries(before, site, series[..|series| - 1])
    requires AllFrom(last, site, series[|series| - 1].0, t, lo, hi)
    ensures forall i, j :: 0 <= i < |before| && 0 <= j < |last| ==> Apart(before[i], last[j])
  {
    var n := |series| - 1;
    forall i, j | 0 <= i < |before| && 0 <= j < |last| ensures Apart(before[i], last[j]) {
      var m :| 0 <= m < n && before[i].coverage == Only(ChannelsOf(site, series[..n][m].0));
      assert series[..n][m] == series[m];
      ChannelsDisjoint(site, series[m].0, series[n].0);
    }
  }

  lemma ConcatApart(before: seq<Integrated>, last: seq<Integrated>)
    requires PassApart(before) && Chained(last)
    requires forall i, j :: 0 <= i < |before| && 0 <= j < |last| ==> Apart(before[i], last[j])
    ensures PassApart(before + last)
  {
  }

  lemma SeriesGrow(before: seq<Integrated>, last: seq<Integrated>, site: Site, series: Series,
                   t: Tier, lo: int, hi: int)
    requires series != [] && FromSeries(before, site, series[..|series| - 1])
    requires AllFrom(last, site, series[|series| - 1].0, t, lo, hi)
    ensures FromSeries(before + last, site, series)
  {
    var n := |series| - 1;
    forall i | 0 <= i < |before + last|
      ensures exists m :: 0 <= m < |series| && (before + last)[i].coverage == Only(ChannelsOf(site, series[m].0)) {
      if i < |before| {
        var m :| 0 <= m < n && before[i].coverage == Only(ChannelsOf(site, series[..n][m].0));
        assert series[m] == series[..n][m];
      } else {
        assert (before + last)[i] == last[i - |before|];
        assert (before + last)[i].coverage == Only(ChannelsOf(site, series[n].0));
      }
    }
  }

  /**
   * A pass writes only buckets newer than every bucket present when it starts, and none beyond the
   * bucket of its end.
   */
  lemma PassWritesOnlyNewBuckets(w: World, e: Event, i: nat)
    requires e.BeginPass? && Enabled(w, e)
    requires i < |Made(e.site, e.series, e.tier)|
    ensures var key := TierKey(e.tier, Made(e.site, e.series, e.tier)[i].deposit.minute);
            && (forall k :: k in Of(w.mem, e.tier) ==> k < key)
            && key <= TierKey(e.tier, TruncDiv(PassEnd(w.backfills[e.b].boot, e.tier), 60_000))
  {
    var t, end := e.tier, PassEnd(w.backfills[e.b].boot, e.tier);
    PassItems(e.site, e.series, t, e.start, end);
    var item := Made(e.site, e.series, t)[i];
    assert Within(item, t, e.start, end);
    var ms := item.until / TICKS_PER_MS;
    TruncatedKey(t, ms, end);
    forall k | k in Of(w.mem, t) ensures k < TierKey(t, item.deposit.minute) {
      KeyAfter(t, ms, k);
    }
  }

  lemma KeyOfMs(t: Tier, ms: int)
    requires ms >= 0
    ensures TierKey(t, TruncDiv(ms, 60_000)) == ms / BucketMs(t)
  {
  }

  lemma MinuteFromMs(now: int)
    requires now >= 0
    ensures MinuteOf(now) == TruncDiv(now / TICKS_PER_MS, 60_000)
  {
  }

  /** Up to the start of a bucket, only its start itself lies in it. */
  lemma OnlyStartInBucket(t: Tier, ms: int, now: int)
    requires 0 <= ms <= now / BucketMs(t) * BucketMs(t) && now >= 0
    ensures ms / BucketMs(t) == now / BucketMs(t) <==> ms == now / BucketMs(t) * BucketMs(t)
  {
    match t
    case Minute =>
    case Hour =>
    case Day =>
  }

  /** The bucket the live loop is filling when a pass is bootstrapped. */
  function LiveBucket(t: Tier, boot: int): int {
    TierKey(t, MinuteOf(boot))
  }

  /**
   * Contrary to what the truncation promises, a pass can write into the bucket the live loop is filling:
   * exactly with the deposit that ends at the end of the pass itself. Live deposits go to that bucket or
   * to newer ones, so that no other bucket is written by both.
   */
  lemma PassReachesLiveBucketIff(w: World, e: Event, i: nat)
    requires e.BeginPass? && Enabled(w, e) && w.backfills[e.b].boot >= 0
    requires i < |Made(e.site, e.series, e.tier)| && Made(e.site, e.series, e.tier)[i].until >= 0
    ensures var item, boot := Made(e.site, e.series, e.tier)[i], w.backfills[e.b].boot;
            var key := TierKey(e.tier, item.deposit.minute);
            && (key == LiveBucket(e.tier, boot) <==> item.until == PassEnd(boot, e.tier) * TICKS_PER_MS)
            && key <= LiveBucket(e.tier, boot)
            && forall ts :: boot <= ts ==> LiveBucket(e.tier, boot) <= TierKey(e.tier, MinuteOf(ts))
  {
    var t, boot := e.tier, w.backfills[e.b].boot;
    PassItems(e.site, e.series, t, e.start, PassEnd(boot, t));
    var item := Made(e.site, e.series, t)[i];
    assert Within(item, t, e.start, PassEnd(boot, t));
    BucketOfItem(t, item.until / TICKS_PER_MS, boot);
    forall ts | boot <= ts ensures LiveBucket(t, boot) <= TierKey(t, MinuteOf(ts)) {
      MinuteOfMonotone(boot, ts);
      TierKeyMonotone(t, MinuteOf(boot), MinuteOf(ts));
    }
  }

  lemma BucketOfItem(t: Tier, ms: int, boot: int)
    requires 0 <= ms <= PassEnd(boot, t) && boot >= 0
    ensures TierKey(t, TruncDiv(ms, 60_000)) == LiveBucket(t, boot) <==> ms == PassEnd(boot, t)
    ensures TierKey(t, TruncDiv(ms, 60_000)) <= LiveBucket(t, boot)
  {
    var now := boot / TICKS_PER_MS;
    KeyOfMs(t, ms);
    KeyOfMs(t, now);
    MinuteFromMs(boot);
    OnlyStartInBucket(t, ms, now);
    TruncatedKey(t, ms, now);
  }

  lemma TruncatedKey(t: Tier, ms: int, hi: int)
    requires ms <= hi
    ensures TierKey(t, TruncDiv(ms, 60_000)) <= TierKey(t, TruncDiv(hi, 60_000))
  {
  }

  lemma KeyAfter(t: Tier, ms: int, k: int)
    requires (k + 1) * BucketMs(t) <= ms
    ensures k < TierKey(t, TruncDiv(ms, 60_000))
  {
  }

  // ---- Every step keeps the invariant ----

  lemma SaveKeepsInv(t: Tier, w: World, e: Event)
    requires Inv(t, w) && e.Save? && Enabled(w, e)
    ensures Inv(t, After(t, w, e))
  {
    ListsRoundTrip(ListOf(e.env, t), Of(w.mem, t));
  }

  lemma BootKeepsInv(t: Tier, w: World, e: Event)
    requires Inv(t, w) && e.Boot? && Enabled(w, e)
    ensures Inv(t, After(t, w, e))
  {
  }

  /** The live step begins where everything held or pending has ended. */
  lemma GrownApart(t: Tier, w: World, ts: int, cur: Reading)
    requires Inv(t, w) && w.clock <= ts
    ensures AllApart(Grown(w, ts, cur))
    ensures forall b :: 0 <= b < |w.backfills| ==> ClearOf(w.backfills[b].pending, t, Grown(w, ts, cur))
  {
    if Accepted(w.mem, ts) {
      var live := LiveIntegrated(w.mem, ts, cur);
      forall n | n in w.held ensures Apart(live, w.held[n]) && Apart(w.held[n], live) {
      }
      forall b | 0 <= b < |w.backfills| ensures ClearOf(w.backfills[b].pending, t, Grown(w, ts, cur)) {
        assert BackfillOk(t, w.backfills[b], w.held, w.saved, w.clock);
        LiveAfterPass(t, w, b, ts, cur);
      }
    }
  }

  lemma LiveAfterPass(t: Tier, w: World, b: nat, ts: int, cur: Reading)
    requires b < |w.backfills| && PendingOk(w.backfills[b].pending, t, w.backfills[b].boot)
    requires w.mem.last.Some? && PassesEndBy(t, w.backfills, w.mem.last.value.0)
    ensures forall i :: 0 <= i < |w.backfills[b].pending| && t in w.backfills[b].pending[i].deposit.tiers ==>
      Apart(w.backfills[b].pending[i], LiveIntegrated(w.mem, ts, cur))
  {
  }

  lemma LiveGrounded(t: Tier, w: World, ts: int, cur: Reading)
    requires Inv(t, w) && w.clock <= ts
    ensures Grounded(DropPruned(Grown(w, ts, cur), t, Cutoff(t, ts)), t, Of(RecordSample(w.mem, ts, cur), t), ts)
  {
    BucketEndAfterSample(t, ts);
    var held := DropPruned(Grown(w, ts, cur), t, Cutoff(t, ts));
    forall n | n in held
      ensures TierKey(t, held[n].deposit.minute) in Of(RecordSample(w.mem, ts, cur), t) {
      if n in w.held && held[n] == w.held[n] {
        assert TierKey(t, held[n].deposit.minute) in Of(w.mem, t);
      }
    }
  }

  lemma CutoffMonotone(t: Tier, ts: int, ts': int)
    requires ts <= ts'
    ensures Cutoff(t, ts) <= Cutoff(t, ts')
  {
    MinuteOfMonotone(ts, ts');
    TierKeyMonotone(t, MinuteOf(ts), MinuteOf(ts'));
  }

  /** What a live step drops lies below its cutoff, which only rises. */
  lemma LiveSavedOk(t: Tier, w: World, e: Event)
    requires Inv(t, w) && e.Live? && Enabled(w, e)
    ensures SavedOk(t, After(t, w, e))
  {
    CutoffMonotone(t, w.clock, e.ts);
  }

  lemma LiveKeepsInv(t: Tier, w: World, e: Event)
    requires Inv(t, w) && e.Live? && Enabled(w, e)
    ensures Inv(t, After(t, w, e))
  {
    var w' := After(t, w, e);
    GrownApart(t, w, e.ts, e.reading);
    LiveGrounded(t, w, e.ts, e.reading);
    LiveSavedOk(t, w, e);
    assert w'.held == DropPruned(Grown(w, e.ts, e.reading), t, Cutoff(t, e.ts));
    forall b | 0 <= b < |w.backfills| ensures BackfillOk(t, w.backfills[b], w'.held, w.saved, e.ts) {
      assert BackfillOk(t, w.backfills[b], w.held, w.saved, w.clock);
    }
    LiveLastOk(t, w, e);
  }

  lemma LiveLastOk(t: Tier, w: World, e: Event)
    requires Inv(t, w) && e.Live? && Enabled(w, e)
    ensures LastSampleOk(t, After(t, w, e))
  {
    forall b | 0 <= b < |w.backfills| ensures PassEnd(w.backfills[b].boot, t) * TICKS_PER_MS <= e.ts {
      assert BackfillOk(t, w.backfills[b], w.held, w.saved, w.clock);
      PassEndsBeforeBoot(w.backfills[b].boot, t);
    }
  }

  /** What is left of a pass once its first deposit is held. */
  lemma RestStaysApart(t: Tier, b: Backfill, held: Held, saved: Option<(Envelope, Held)>, clock: int, next: nat)
    requires b.pending != [] && BackfillOk(t, b, held, saved, clock)
    ensures BackfillOk(t, b.(pending := b.pending[1..]),
                       if t in b.pending[0].deposit.tiers then held[next := b.pending[0]] else held, saved, clock)
  {
    var rest := b.pending[1..];
    assert forall i :: 0 <= i < |rest| ==> rest[i] == b.pending[i + 1];
    forall i | 0 <= i < |rest| ensures Apart(rest[i], b.pending[0]) {
      assert Apart(b.pending[0], b.pending[i + 1]);
    }
  }

  /** What other backfills still have to add once the first deposit of this one is held. */
  lemma OthersStayApart(t: Tier, b: Backfill, other: Backfill, held: Held, saved: Option<(Envelope, Held)>,
                        clock: int, next: nat)
    requires b.pending != [] && BackfillOk(t, other, held, saved, clock) && Beside(other.pending, b.pending, t)
    ensures BackfillOk(t, other, if t in b.pending[0].deposit.tiers then held[next := b.pending[0]] else held, saved,
                       clock)
    ensures Beside(other.pending, b.pending[1..], t)
  {
    var rest := b.pending[1..];
    assert forall i :: 0 <= i < |rest| ==> rest[i] == b.pending[i + 1];
  }

  lemma BesideSymmetric(xs: seq<Integrated>, ys: seq<Integrated>, t: Tier)
    requires Beside(xs, ys, t)
    ensures Beside(ys, xs, t)
  {
    forall i, j | 0 <= i < |ys| && 0 <= j < |xs| && t in ys[i].deposit.tiers && t in xs[j].deposit.tiers
      ensures Apart(ys[i], xs[j]) {
      assert Apart(xs[j], ys[i]);
    }
  }

  lemma HeadStaysApart(t: Tier, pending: seq<Integrated>, held: Held, next: nat)
    requires pending != [] && t in pending[0].deposit.tiers && ClearOf(pending, t, held) && AllApart(held)
    ensures AllApart(held[next := pending[0]])
  {
    forall n | n in held ensures Apart(pending[0], held[n]) {
    }
  }

  lemma PassStepKeepsBackfills(t: Tier, w: World, e: Event)
    requires Inv(t, w) && e.PassStep? && Enabled(w, e)
    ensures var w' := After(t, w, e); BackfillsOk(t, w'.backfills, w'.held, w'.saved, w'.clock)
  {
    var w', b := After(t, w, e), w.backfills[e.b];
    RestStaysApart(t, b, w.held, w.saved, w.clock, w.next);
    forall c | 0 <= c < |w.backfills| && c != e.b
      ensures BackfillOk(t, w.backfills[c], w'.held, w.saved, w.clock)
      ensures Beside(w.backfills[c].pending, b.pending[1..], t) && Beside(b.pending[1..], w.backfills[c].pending, t)
    {
      OthersStayApart(t, b, w.backfills[c], w.held, w.saved, w.clock, w.next);
      BesideSymmetric(w.backfills[c].pending, b.pending[1..], t);
    }
  }

  lemma PassStepKeepsHeld(t: Tier, w: World, e: Event)
    requires Inv(t, w) && e.PassStep? && Enabled(w, e)
    ensures var w' := After(t, w, e); AllApart(w'.held) && Grounded(w'.held, t, Of(w'.mem, t), w'.clock)
  {
    var b := w.backfills[e.b];
    assert BackfillOk(t, b, w.held, w.saved, w.clock);
    if t in b.pending[0].deposit.tiers {
      HeadStaysApart(t, b.pending, w.held, w.next);
      PassEndsBeforeBoot(b.boot, t);
    }
  }

  lemma PassStepKeepsInv(t: Tier, w: World, e: Event)
    requires Inv(t, w) && e.PassStep? && Enabled(w, e)
    ensures Inv(t, After(t, w, e))
  {
    PassStepKeepsBackfills(t, w, e);
    PassStepKeepsHeld(t, w, e);
    PassStepKeepsLast(t, w, e);
  }

  lemma PassStepKeepsLast(t: Tier, w: World, e: Event)
    requires Inv(t, w) && e.PassStep? && Enabled(w, e)
    ensures LastSampleOk(t, After(t, w, e))
  {
    var w', b := After(t, w, e), w.backfills[e.b];
    assert BackfillOk(t, b, w.held, w.saved, w.clock);
    assert forall c :: 0 <= c < |w.backfills| ==> w'.backfills[c].boot == w.backfills[c].boot;
  }

  /**
   * What a pass needs of the other running backfills: what they still have to add to the tier ends before the
   * pass begins, or begins after it ends.
   */
  predicate StartsBeside(t: Tier, others: seq<Backfill>, start: int, end: int) {
    forall c, j :: 0 <= c < |others| && 0 <= j < |others[c].pending| && t in others[c].pending[j].deposit.tiers ==>
      var d := others[c].pending[j];
      d.until <= start * TICKS_PER_MS || end * TICKS_PER_MS <= d.from
  }

  /** A backfill may begin a pass of the tier. */
  predicate SafeBegin(t: Tier, w: World, b: nat, start: int)
    requires b < |w.backfills|
  {
    var end := PassEnd(w.backfills[b].boot, t);
    start < end ==> StartsBeside(t, w.backfills[..b] + w.backfills[b + 1..], start, end)
  }

  lemma BeginPassKeepsBackfills(t: Tier, w: World, e: Event)
    requires Inv(t, w) && e.BeginPass? && Enabled(w, e) && (e.tier == t ==> SafeBegin(t, w, e.b, e.start))
    requires e.start < PassEnd(w.backfills[e.b].boot, e.tier)
    ensures var x := Backfill(w.backfills[e.b].boot, w.clock, Made(e.site, e.series, e.tier));
            BackfillsOk(t, w.backfills[e.b := x], w.held, w.saved, w.clock)
  {
    var bs, items := w.backfills, Made(e.site, e.series, e.tier);
    PassItems(e.site, e.series, e.tier, e.start, PassEnd(bs[e.b].boot, e.tier));
    PassFromStore(e.site, e.series, e.tier);
    PassStartsOk(t, w, e, items);
    forall c | 0 <= c < |bs| && c != e.b ensures Beside(items, bs[c].pending, t) && Beside(bs[c].pending, items, t) {
      if e.tier == t {
        PassBesideOther(t, w, e, c, items);
      }
      BesideSymmetric(items, bs[c].pending, t);
    }
    BackfillReplaced(t, bs, e.b, Backfill(bs[e.b].boot, w.clock, items), w.held, w.saved, w.clock);
  }

  lemma BackfillReplaced(t: Tier, bs: seq<Backfill>, b: nat, x: Backfill, held: Held,
                         saved: Option<(Envelope, Held)>, clock: int)
    requires b < |bs| && BackfillsOk(t, bs, held, saved, clock) && BackfillOk(t, x, held, saved, clock)
    requires forall c :: 0 <= c < |bs| && c != b ==>
      Beside(x.pending, bs[c].pending, t) && Beside(bs[c].pending, x.pending, t)
    ensures BackfillsOk(t, bs[b := x], held, saved, clock)
  {
  }

  lemma BeginPassKeepsInv(t: Tier, w: World, e: Event)
    requires Inv(t, w) && e.BeginPass? && Enabled(w, e) && SafeStep(t, w, e)
    ensures Inv(t, After(t, w, e))
  {
    if e.start < PassEnd(w.backfills[e.b].boot, e.tier) {
      BeginPassKeepsBackfills(t, w, e);
      var bs := After(t, w, e).backfills;
      assert forall c :: 0 <= c < |bs| ==> bs[c].boot == w.backfills[c].boot;
    }
  }

  lemma PassBesideOther(t: Tier, w: World, e: Event, c: nat, items: seq<Integrated>)
    requires e.BeginPass? && e.b < |w.backfills| && c < |w.backfills| && c != e.b
    requires e.start < PassEnd(w.backfills[e.b].boot, t) && SafeBegin(t, w, e.b, e.start)
    requires AllWithin(items, t, e.start, PassEnd(w.backfills[e.b].boot, t))
    ensures Beside(items, w.backfills[c].pending, t)
  {
    var others := w.backfills[..e.b] + w.backfills[e.b + 1..];
    assert w.backfills[c] == others[if c < e.b then c else c - 1];
  }

  lemma PassStartsOk(t: Tier, w: World, e: Event, items: seq<Integrated>)
    requires Inv(t, w) && e.BeginPass? && Enabled(w, e)
    requires AllWithin(items, e.tier, e.start, PassEnd(w.backfills[e.b].boot, e.tier))
    requires PassApart(items) && AllFromStore(items, e.site, e.tier)
    ensures BackfillOk(t, Backfill(w.backfills[e.b].boot, w.clock, items), w.held, w.saved, w.clock)
  {
    var boot := w.backfills[e.b].boot;
    assert BackfillOk(t, w.backfills[e.b], w.held, w.saved, w.clock);
    if e.tier == t {
      forall i | 0 <= i < |items|
        ensures forall n :: n in w.held ==> Apart(items[i], w.held[n])
        ensures w.saved.Some? && Timely(t, boot, w.clock) ==>
          forall n :: n in w.saved.value.1 ==> Apart(items[i], w.saved.value.1[n])
      {
        PassItemAfterHeld(t, w, items[i], e.start, PassEnd(boot, t));
        if w.saved.Some? && Timely(t, boot, w.clock) {
          PassItemAfterSaved(t, w, items[i], e.start, PassEnd(boot, t), boot);
        }
      }
    }
  }

  /** What a pass adds begins where every held deposit has ended: at the end of the newest bucket. */
  lemma PassItemAfterHeld(t: Tier, w: World, item: Integrated, start: int, end: int)
    requires Grounded(w.held, t, Of(w.mem, t), w.clock) && Within(item, t, start, end)
    requires forall k :: k in Of(w.mem, t) ==> (k + 1) * BucketMs(t) <= start
    ensures forall n :: n in w.held ==> w.held[n].until <= item.from && Apart(item, w.held[n])
  {
    forall n | n in w.held ensures w.held[n].until <= item.from {
      var key := TierKey(t, w.held[n].deposit.minute);
      assert key in Of(w.mem, t);
      assert (key + 1) * BucketMs(t) <= start;
    }
  }

  /** A timely pass also begins where everything saved has ended: what was pruned since lies before its window. */
  lemma PassItemAfterSaved(t: Tier, w: World, item: Integrated, start: int, end: int, boot: int)
    requires Inv(t, w) && w.saved.Some? && Within(item, t, start, end)
    requires IsBackfillStart(Of(w.mem, t), t, WindowFrom(boot, t), start)
    requires 0 <= boot && Timely(t, boot, w.clock)
    ensures forall n :: n in w.saved.value.1 ==> Apart(item, w.saved.value.1[n])
  {
    var saved := w.saved.value.1;
    PassItemAfterHeld(t, w, item, start, end);
    forall n | n in saved ensures saved[n].until <= item.from {
      if !(n in w.held && w.held[n] == saved[n]) {
        BucketBeforeWindow(t, boot, w.clock, TierKey(t, saved[n].deposit.minute));
      }
    }
  }

  /** A bucket that can be pruned when a timely pass begins ends before the window of the pass. */
  lemma BucketBeforeWindow(t: Tier, boot: int, begun: int, key: int)
    requires 0 <= boot && Timely(t, boot, begun) && key < Cutoff(t, begun)
    ensures (key + 1) * BucketMs(t) <= WindowFrom(boot, t)
  {
    var now := boot / TICKS_PER_MS;
    KeyOfMs(t, now);
    MinuteFromMs(boot);
    assert key + 1 <= now / BucketMs(t) - WindowLength(t);
    WindowFromMs(boot, t);
  }

  lemma WindowFromMs(boot: int, t: Tier)
    requires boot >= 0
    ensures WindowFrom(boot, t) == boot / TICKS_PER_MS - WindowLength(t) * BucketMs(t)
  {
  }

  /** A pass stops at the start of the bucket that contains the bootstrap time. */
  lemma PassEndsBeforeBoot(now: int, t: Tier)
    requires now >= 0
    ensures PassEnd(now, t) * TICKS_PER_MS <= now
  {
  }

  /** What a new pass can add ends before the last sample, or no step from that sample is accepted. */
  predicate SafeAgain(t: Tier, l: Ledger, now: int) {
    l.last.Some? ==> PassEnd(now, t) * TICKS_PER_MS <= l.last.value.0 || now - l.last.value.0 > MAX_STEP
  }

  /** No pass that began late still has to add to the tier. */
  predicate RunningTimely(t: Tier, bs: seq<Backfill>) {
    forall b, i :: 0 <= b < |bs| && 0 <= i < |bs[b].pending| && t in bs[b].pending[i].deposit.tiers ==>
      Timely(t, bs[b].boot, bs[b].begun)
  }

  /** What a step must meet when a running process is initialised again. */
  ghost predicate SafeStep(t: Tier, w: World, e: Event)
    requires Enabled(w, e)
  {
    match e
    case Again(now) => SafeAgain(t, w.mem, now) && RunningTimely(t, w.backfills)
    case BeginPass(b, tier, start, _, _) => tier == t ==> SafeBegin(t, w, b, start)
    case _ => true
  }

  /** The deposits still pending are apart from what is restored, since their pass was timely. */
  lemma AgainKeepsBackfill(t: Tier, b: Backfill, held: Held, saved: Option<(Envelope, Held)>, clock: int, now: int)
    requires BackfillOk(t, b, held, saved, clock) && clock <= now
    requires RunningTimely(t, [b])
    ensures BackfillOk(t, b, if saved.Some? then saved.value.1 else held, saved, now)
  {
    if saved.Some? && !Timely(t, b.boot, b.begun) {
      forall i | 0 <= i < |b.pending| ensures t !in b.pending[i].deposit.tiers {
        assert [b][0] == b;
      }
    }
  }

  lemma AgainKeepsBackfills(t: Tier, w: World, e: Event)
    requires BackfillsOk(t, w.backfills, w.held, w.saved, w.clock) && 0 <= w.clock
    requires e.Again? && w.clock <= e.now && RunningTimely(t, w.backfills)
    ensures BackfillsOk(t, w.backfills + [Backfill(e.now, e.now, [])],
                        if w.saved.Some? then w.saved.value.1 else w.held, w.saved, e.now)
  {
    forall b | 0 <= b < |w.backfills|
      ensures BackfillOk(t, w.backfills[b], if w.saved.Some? then w.saved.value.1 else w.held, w.saved, e.now) {
      AgainKeepsBackfill(t, w.backfills[b], w.held, w.saved, w.clock, e.now);
    }
  }

  lemma AgainKeepsLast(t: Tier, w: World, e: Event)
    requires Inv(t, w) && e.Again? && Enabled(w, e) && SafeStep(t, w, e)
    ensures LastSampleOk(t, After(t, w, e))
  {
  }

  lemma AgainKeepsInv(t: Tier, w: World, e: Event)
    requires Inv(t, w) && e.Again? && Enabled(w, e) && SafeStep(t, w, e)
    ensures Inv(t, After(t, w, e))
  {
    AgainKeepsBackfills(t, w, e);
    AgainKeepsLast(t, w, e);
    CutoffMonotone(t, w.clock, e.now);
  }

  lemma StepKeepsInv(t: Tier, w: World, e: Event)
    requires Inv(t, w) && Enabled(w, e) && SafeStep(t, w, e)
    ensures Inv(t, After(t, w, e))
  {
    match e
    case Save(_) => SaveKeepsInv(t, w, e);
    case Boot(_) => BootKeepsInv(t, w, e);
    case Again(_) => AgainKeepsInv(t, w, e);
    case Live(_, _) => LiveKeepsInv(t, w, e);
    case BeginPass(_, _, _, _, _) => BeginPassKeepsInv(t, w, e);
    case PassStep(_) => PassStepKeepsInv(t, w, e);
  }

  // ---- The buckets are exactly the held deposits ----

  /** Energy on channel `c` of the held deposits of bucket `key` with a serial number below `n`. */
  function HeldTotal(held: Held, t: Tier, key: int, c: Channel, n: nat): real {
    if n == 0 then 0.0
    else if n - 1 in held && TierKey(t, held[n - 1].deposit.minute) == key
    then HeldTotal(held, t, key, c, n - 1) + Amount(held[n - 1].deposit.energy, c)
    else HeldTotal(held, t, key, c, n - 1)
  }

  ghost predicate ConsistsOf(b: Buckets, held: Held, t: Tier, n: nat) {
    forall key, c :: At(b, key, c) == HeldTotal(held, t, key, c, n)
  }

  ghost predicate OfTier(held: Held, t: Tier) {
    forall n :: n in held ==> t in held[n].deposit.tiers
  }

  ghost predicate Accounted(t: Tier, w: World) {
    && ConsistsOf(Of(w.mem, t), w.held, t, w.next) && OfTier(w.held, t)
    && SavedAccounted(t, w.saved, w.next)
  }

  ghost predicate SavedAccounted(t: Tier, saved: Option<(Envelope, Held)>, n: nat) {
    saved.Some? ==> ConsistsOf(BucketsOf(ListOf(saved.value.0, t)), saved.value.1, t, n) && OfTier(saved.value.1, t)
  }

  lemma {:induction false} HeldTotalFrame(held: Held, held': Held, t: Tier, key: int, c: Channel, n: nat)
    requires forall i :: 0 <= i < n ==>
      ((i in held && TierKey(t, held[i].deposit.minute) == key)
          <==> (i in held' && TierKey(t, held'[i].deposit.minute) == key))
    requires forall i :: 0 <= i < n && i in held && i in held' ==> held[i] == held'[i]
    ensures HeldTotal(held, t, key, c, n) == HeldTotal(held', t, key, c, n)
  {
    if n > 0 {
      HeldTotalFrame(held, held', t, key, c, n - 1);
    }
  }

  lemma {:induction false} NothingHeld(held: Held, t: Tier, key: int, c: Channel, n: nat)
    requires forall i :: 0 <= i < n && i in held ==> TierKey(t, held[i].deposit.minute) != key
    ensures HeldTotal(held, t, key, c, n) == 0.0
  {
    if n > 0 {
      NothingHeld(held, t, key, c, n - 1);
    }
  }

  /** Adding a deposit under the next serial number adds its share to its bucket. */
  lemma HeldTotalAdd(held: Held, x: Integrated, t: Tier, key: int, c: Channel, n: nat)
    requires n !in held && t in x.deposit.tiers
    ensures HeldTotal(held[n := x], t, key, c, n + 1)
              == HeldTotal(held, t, key, c, n) + Share(x.deposit, t, key, key, c)
  {
    HeldTotalFrame(held, held[n := x], t, key, c, n);
  }

  lemma AddKeepsConsistsOf(l: Ledger, held: Held, x: Integrated, t: Tier, n: nat)
    requires ConsistsOf(Of(l, t), held, t, n) && n !in held
    ensures ConsistsOf(Of(AddDelta(l, x.deposit.minute, x.deposit.energy, x.deposit.tiers), t),
                       if t in x.deposit.tiers then held[n := x] else held, t, n + 1)
  {
    var d := x.deposit;
    forall key, c
      ensures At(Of(AddDelta(l, d.minute, d.energy, d.tiers), t), key, c)
           == HeldTotal(if t in d.tiers then held[n := x] else held, t, key, c, n + 1) {
      AddDeltaAt(l, d, t, key, c);
      if t in d.tiers {
        HeldTotalAdd(held, x, t, key, c, n);
      }
    }
  }

  lemma PruneKeepsConsistsOf(b: Buckets, held: Held, t: Tier, cutoff: int, n: nat)
    requires ConsistsOf(b, held, t, n)
    ensures ConsistsOf(PruneBelow(b, cutoff), DropPruned(held, t, cutoff), t, n)
  {
    forall key, c ensures At(PruneBelow(b, cutoff), key, c) == HeldTotal(DropPruned(held, t, cutoff), t, key, c, n) {
      assert At(b, key, c) == HeldTotal(held, t, key, c, n);
      if cutoff <= key {
        HeldTotalFrame(held, DropPruned(held, t, cutoff), t, key, c, n);
      } else {
        NothingHeld(DropPruned(held, t, cutoff), t, key, c, n);
      }
    }
  }

  /** A serial number that nothing carries adds nothing. */
  lemma SkipSerial(b: Buckets, held: Held, t: Tier, n: nat)
    requires ConsistsOf(b, held, t, n) && n !in held
    ensures ConsistsOf(b, held, t, n + 1)
  {
    forall key, c ensures At(b, key, c) == HeldTotal(held, t, key, c, n + 1) {
      assert At(b, key, c) == HeldTotal(held, t, key, c, n);
    }
  }

  lemma EmptyConsistsOfNothing(t: Tier, n: nat)
    ensures ConsistsOf(map[], map[], t, n)
  {
    forall key, c ensures At(map[], key, c) == HeldTotal(map[], t, key, c, n) {
      NothingHeld(map[], t, key, c, n);
    }
  }

  lemma PassStepKeepsAccounted(t: Tier, w: World, e: Event)
    requires NextIsFree(w) && Accounted(t, w) && e.PassStep? && Enabled(w, e)
    ensures Accounted(t, After(t, w, e))
  {
    AddKeepsConsistsOf(w.mem, w.held, w.backfills[e.b].pending[0], t, w.next);
    SavedSkipsSerial(t, w);
  }

  lemma StepKeepsAccounted(t: Tier, w: World, e: Event)
    requires Inv(t, w) && Accounted(t, w) && Enabled(w, e)
    ensures Accounted(t, After(t, w, e))
  {
    match e
    case Save(env) => ListsRoundTrip(ListOf(env, t), Of(w.mem, t));
    case Boot(_) => EmptyConsistsOfNothing(t, w.next);
    case Again(_) =>
    case Live(_, _) => LiveKeepsAccounted(t, w, e);
    case BeginPass(_, _, _, _, _) =>
    case PassStep(_) => PassStepKeepsAccounted(t, w, e);
  }

  /** The next serial number is carried by nothing yet. */
  ghost predicate NextIsFree(w: World) {
    w.next !in w.held && (w.saved.Some? ==> w.next !in w.saved.value.1)
  }

  lemma SavedSkipsSerial(t: Tier, w: World)
    requires NextIsFree(w) && SavedAccounted(t, w.saved, w.next)
    ensures SavedAccounted(t, w.saved, w.next + 1)
  {
    if w.saved.Some? {
      SkipSerial(BucketsOf(ListOf(w.saved.value.0, t)), w.saved.value.1, t, w.next);
    }
  }

  lemma LiveKeepsAccounted(t: Tier, w: World, e: Event)
    requires NextIsFree(w) && Accounted(t, w) && e.Live? && Enabled(w, e)
    ensures Accounted(t, After(t, w, e))
  {
    LiveConsistsOf(t, w, e.ts, e.reading);
    SavedSkipsSerial(t, w);
    GrownOfTier(t, w, e.ts, e.reading);
  }

  lemma GrownOfTier(t: Tier, w: World, ts: int, cur: Reading)
    requires OfTier(w.held, t)
    ensures OfTier(Grown(w, ts, cur), t)
  {
  }

  lemma LiveConsistsOf(t: Tier, w: World, ts: int, cur: Reading)
    requires w.next !in w.held && ConsistsOf(Of(w.mem, t), w.held, t, w.next)
    ensures ConsistsOf(Of(RecordSample(w.mem, ts, cur), t), DropPruned(Grown(w, ts, cur), t, Cutoff(t, ts)), t,
                       w.next + 1)
  {
    var grown := Grown(w, ts, cur);
    if Accepted(w.mem, ts) {
      AddKeepsConsistsOf(w.mem, w.held, LiveIntegrated(w.mem, ts, cur), t, w.next);
      var d := LiveDeposit(w.mem, ts, cur);
      PruneKeepsConsistsOf(Of(AddDelta(w.mem, d.minute, d.energy, d.tiers), t), grown, t, Cutoff(t, ts), w.next + 1);
    } else {
      SkipSerial(Of(w.mem, t), w.held, t, w.next);
      PruneKeepsConsistsOf(Of(w.mem, t), grown, t, Cutoff(t, ts), w.next + 1);
    }
  }

  // ---- Runs ----

  const FRESH_WORLD := World(EMPTY_LEDGER, map[], 0, None, [], 0)

  ghost predicate IsRun(t: Tier, worlds: seq<World>, events: seq<Event>) {
    && |worlds| == |events| + 1
    && worlds[0] == FRESH_WORLD
    && forall i :: 0 <= i < |events| ==>
         Enabled(worlds[i], events[i]) && worlds[i + 1] == After(t, worlds[i], events[i])
  }

  ghost predicate SafeRun(t: Tier, worlds: seq<World>, events: seq<Event>)
    requires IsRun(t, worlds, events)
  {
    forall i :: 0 <= i < |events| ==> SafeStep(t, worlds[i], events[i])
  }

  lemma {:induction false} RunKeepsInv(t: Tier, worlds: seq<World>, events: seq<Event>, n: nat)
    requires IsRun(t, worlds, events) && SafeRun(t, worlds, events) && n < |worlds|
    ensures Inv(t, worlds[n]) && Accounted(t, worlds[n])
  {
    if n > 0 {
      RunKeepsInv(t, worlds, events, n - 1);
      var w, e := worlds[n - 1], events[n - 1];
      StepKeepsInv(t, w, e);
      StepKeepsAccounted(t, w, e);
      assert worlds[n] == After(t, w, e);
    }
  }

  /**
   * In every reachable state of every run, each bucket of a tier is the sum of the deposits held
   * for it, and any two held deposits that measure a common channel cover disjoint stretches of time.
   * A running process may be initialised again, even beside a running backfill, where that is safe.
   */
  lemma NoDoubleIntegration(t: Tier, worlds: seq<World>, events: seq<Event>, w: World)
    requires IsRun(t, worlds, events) && SafeRun(t, worlds, events) && w in worlds
    ensures forall key, c :: At(Of(w.mem, t), key, c) == HeldTotal(w.held, t, key, c, w.next)
    ensures forall m, n, c :: m in w.held && n in w.held && m != n
              && Covers(w.held[m].coverage, c) && Covers(w.held[n].coverage, c)
              ==> w.held[m].until <= w.held[n].from || w.held[n].until <= w.held[m].from
  {
    var i :| 0 <= i < |worlds| && worlds[i] == w;
    RunKeepsInv(t, worlds, events, i);
    forall m, n, c | m in w.held && n in w.held && m != n && Covers(w.held[m].coverage, c)
        && Covers(w.held[n].coverage, c)
      ensures w.held[m].until <= w.held[n].from || w.held[n].until <= w.held[m].from {
      assert Apart(w.held[m], w.held[n]);
    }
  }

  /** Without re-initialisations every run is safe: there is never more than one backfill. */
  lemma {:induction false} RestartsAreSafe(t: Tier, worlds: seq<World>, events: seq<Event>, n: nat)
    requires IsRun(t, worlds, events) && n < |worlds|
    requires forall i :: 0 <= i < n ==> !events[i].Again?
    ensures |worlds[n].backfills| <= 1
    ensures n < |events| && !events[n].Again? ==> SafeStep(t, worlds[n], events[n])
  {
    if n > 0 {
      RestartsAreSafe(t, worlds, events, n - 1);
      assert worlds[n] == After(t, worlds[n - 1], events[n - 1]);
    }
  }

  // ---- A pass over two points ----

  /** A pass over two points of one key makes one deposit. */
  lemma TwoPointPass(site: Site, key: string, a: TsPoint, b: TsPoint, t: Tier)
    requires a.value.Some? && b.value.Some? && 0 < b.ts - a.ts <= MaxDelta(t) && ChannelsOf(site, key) != {}
    ensures Made(site, [(key, [a, b])], t) == [PairDeposit(site, key, a, b, t)]
    ensures Answers([(key, [a, b])], a.ts, b.ts)
  {
    var series := [(key, [a, b])];
    UsablePair(a, b);
    assert series[..0] == [] && [a, b][..1] == [a];
    assert PassDeposits(site, [], MaxDelta(t), t) == [];
    assert KeyDeposits(site, key, [a], MaxDelta(t), t) == [];
    assert KeyDeposits(site, key, [a, b], MaxDelta(t), t) == [PairDeposit(site, key, a, b, t)];
  }

  lemma UsablePair(a: TsPoint, b: TsPoint)
    requires a.value.Some? && b.value.Some? && a.ts <= b.ts
    ensures Usable([a, b]) == [a, b]
  {
    var key := (p: TsPoint) => p.ts;
    assert [a, b][..1] == [a] && [a][..0] == [];
    assert WithValue([a]) == [a] && WithValue([a, b]) == [a, b];
    assert StableSort([a], key) == [a];
    assert StableSort([a, b], key) == Insert([a], b, key) == [a, b];
  }

  const GRID_ONLY := Site("grid", "pv", "battery", false, false, false, [])

  function Seconds(n: int): int {
    n * TICKS_PER_SECOND
  }

  /** The grid meter at 1 kW at both times, in ms. */
  function GridSeries(from: int, until: int): Series {
    [("grid", [TsPoint(from, Some(1.0)), TsPoint(until, Some(1.0))])]
  }

  function GridDeposit(from: int, until: int): Integrated {
    PairDeposit(GRID_ONLY, "grid", TsPoint(from, Some(1.0)), TsPoint(until, Some(1.0)), Minute)
  }

  lemma GridPass(from: int, until: int, start: int, end: int)
    requires start <= from < until <= end && until - from <= 300_000
    ensures Made(GRID_ONLY, GridSeries(from, until), Minute) == [GridDeposit(from, until)]
    ensures Answers(GridSeries(from, until), start, end) && DistinctConsumers(GRID_ONLY)
  {
    assert GridImport in ChannelsOf(GRID_ONLY, "grid");
    TwoPointPass(GRID_ONLY, "grid", TsPoint(from, Some(1.0)), TsPoint(until, Some(1.0)), Minute);
  }

  /**
   * A pass does write into the live bucket: a process starts at second 125, and the store has grid values at
   * seconds 60 and 120.
   */
  lemma LiveBucketIsReached()
    ensures var w, now := After(Minute, FRESH_WORLD, Boot(Seconds(125))), Seconds(125);
            var e := BeginPass(0, Minute, WindowFrom(now, Minute), GRID_ONLY, GridSeries(60_000, 120_000));
            && Enabled(w, e)
            && After(Minute, w, e).backfills[0].pending == [GridDeposit(60_000, 120_000)]
            && TierKey(Minute, GridDeposit(60_000, 120_000).deposit.minute) == LiveBucket(Minute, now)
  {
    GridPass(60_000, 120_000, WindowFrom(Seconds(125), Minute), 120_000);
  }
}
