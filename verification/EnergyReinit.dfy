/**
 * Initialising the energy service again in a running process: exactly when nothing is integrated twice,
 * and three runs in which something is.
 */
module EnergyReinit {
  import opened Wrappers
  import opened TimeSeries
  import opened EnergyFlows
  import opened RollingLedger
  import opened RollingRuns
  import opened EnergyBackfill
  import opened EnergyIntegration

  // ---- The exact condition ----

  /** Deposit `i` of a pass from `start` to `end` over these series. */
  ghost predicate MayAdd(start: int, end: int, t: Tier, site: Site, series: Series, i: nat) {
    start < end && Answers(series, start, end) && DistinctConsumers(site) && i < |Made(site, series, t)|
  }

  ghost predicate ApartFromNextStep(d: Integrated, l: Ledger, now: int) {
    forall ts, cur :: now <= ts && Accepted(l, ts) ==> Apart(d, LiveIntegrated(l, ts, cur))
  }

  ghost predicate ApartFromPending(d: Integrated, t: Tier, running: seq<Backfill>) {
    forall c, j :: 0 <= c < |running| && 0 <= j < |running[c].pending| && t in running[c].pending[j].deposit.tiers ==>
      Apart(d, running[c].pending[j])
  }

  ghost predicate NeverMeetsLive(t: Tier, l: Ledger, start: int, end: int, now: int) {
    forall site, series, i: nat :: MayAdd(start, end, t, site, series, i) ==>
      ApartFromNextStep(Made(site, series, t)[i], l, now)
  }

  ghost predicate NeverMeetsPending(t: Tier, running: seq<Backfill>, start: int, end: int) {
    forall site, series, i: nat :: MayAdd(start, end, t, site, series, i) ==>
      ApartFromPending(Made(site, series, t)[i], t, running)
  }

  lemma OverlapNotApart(a: Integrated, b: Integrated, c: Channel)
    requires Covers(a.coverage, c) && Covers(b.coverage, c)
    requires b.from < a.until && a.from < b.until
    ensures !Apart(a, b)
  {
  }

  /** The store may answer with two points of one key. */
  lemma TwoPointsMayAdd(site: Site, key: string, a: TsPoint, b: TsPoint, t: Tier, start: int, end: int)
    requires DistinctConsumers(site) && ChannelsOf(site, key) != {} && start <= a.ts < b.ts <= end
    requires a.value.Some? && b.value.Some? && b.ts - a.ts <= MaxDelta(t)
    ensures MayAdd(start, end, t, site, [(key, [a, b])], 0)
    ensures Made(site, [(key, [a, b])], t)[0] == PairDeposit(site, key, a, b, t)
  {
    TwoPointPass(site, key, a, b, t);
  }

  const EVEN_POWER := Reading(1.0, 0.0, 0.0, 0.0, 0.0, map[])

  /** Two points of the grid meter in the last millisecond of the pass, and a live step across it. */
  lemma LiveIsMet(t: Tier, l: Ledger, start: int, end: int, now: int, ts: int)
    requires start < end && now <= ts && Accepted(l, ts)
    requires l.last.value.0 < end * TICKS_PER_MS && (end - 1) * TICKS_PER_MS < ts
    ensures !NeverMeetsLive(t, l, start, end, now)
  {
    var a, b := TsPoint(end - 1, Some(0.0)), TsPoint(end, Some(0.0));
    assert GridImport in ChannelsOf(GRID_ONLY, "grid");
    TwoPointsMayAdd(GRID_ONLY, "grid", a, b, t, start, end);
    OverlapNotApart(PairDeposit(GRID_ONLY, "grid", a, b, t), LiveIntegrated(l, ts, EVEN_POWER), GridImport);
    assert !ApartFromNextStep(Made(GRID_ONLY, [("grid", [a, b])], t)[0], l, now);
  }

  /** A pass and the next live step share no time, exactly if the pass is empty or ends by the last sample. */
  lemma MeetsLiveIff(t: Tier, l: Ledger, start: int, now: int)
    requires l.last.Some? ==> 0 <= l.last.value.0 <= now
    ensures NeverMeetsLive(t, l, start, PassEnd(now, t), now) <==> start >= PassEnd(now, t) || SafeAgain(t, l, now)
  {
    var end := PassEnd(now, t);
    if start >= end || SafeAgain(t, l, now) {
      forall site, series, i: nat | MayAdd(start, end, t, site, series, i)
        ensures ApartFromNextStep(Made(site, series, t)[i], l, now)
      {
        PassItems(site, series, t, start, end);
        assert Within(Made(site, series, t)[i], t, start, end);
      }
    } else {
      PassEndsBeforeBoot(now, t);
      LiveIsMet(t, l, start, end, now, if now - l.last.value.0 > MIN_STEP then now else l.last.value.0 + MIN_STEP + 1);
    }
  }

  /**
   * A pass and what other backfills still have to add share no time, exactly if the pass is empty or every such
   * deposit ends before it begins or begins after it ends.
   */
  lemma MeetsPendingIff(t: Tier, running: seq<Backfill>, start: int, end: int)
    requires forall c :: 0 <= c < |running| ==> PendingOk(running[c].pending, t, running[c].boot)
    ensures NeverMeetsPending(t, running, start, end) <==> start >= end || StartsBeside(t, running, start, end)
  {
    if start >= end || StartsBeside(t, running, start, end) {
      forall site, series, i: nat | MayAdd(start, end, t, site, series, i)
        ensures ApartFromPending(Made(site, series, t)[i], t, running)
      {
        PassItems(site, series, t, start, end);
        assert Within(Made(site, series, t)[i], t, start, end);
      }
    } else {
      var c, j :| 0 <= c < |running| && 0 <= j < |running[c].pending| &&
          t in running[c].pending[j].deposit.tiers &&
          start * TICKS_PER_MS < running[c].pending[j].until && running[c].pending[j].from < end * TICKS_PER_MS;
      var d := running[c].pending[j];
      var site :| DistinctConsumers(site) && FromStore(d, site, t);
      PendingIsMet(t, d, site, start, end);
      var series, i: nat :| MayAdd(start, end, t, site, series, i) && !Apart(Made(site, series, t)[i], d);
      assert !ApartFromPending(Made(site, series, t)[i], t, running);
    }
  }

  /** The same meter can be read again in the time that both have in common. */
  lemma PairIsMet(t: Tier, site: Site, key: string, a: TsPoint, b: TsPoint, start: int, end: int)
    requires DistinctConsumers(site) && ChannelsOf(site, key) != {} && a.value.Some? && b.value.Some?
    requires 0 < b.ts - a.ts <= MaxDelta(t) && start < end && start < b.ts && a.ts < end
    ensures exists series, i: nat ::
      MayAdd(start, end, t, site, series, i) && !Apart(Made(site, series, t)[i], PairDeposit(site, key, a, b, t))
  {
    var a' := TsPoint(if start < a.ts then a.ts else start, Some(0.0));
    var b' := TsPoint(if b.ts < end then b.ts else end, Some(0.0));
    TwoPointsMayAdd(site, key, a', b', t, start, end);
    PairsOverlap(site, key, a, b, a', b', t);
    assert !Apart(Made(site, [(key, [a', b'])], t)[0], PairDeposit(site, key, a, b, t));
  }

  lemma PendingIsMet(t: Tier, d: Integrated, site: Site, start: int, end: int)
    requires DistinctConsumers(site) && FromStore(d, site, t)
    requires start < end && start * TICKS_PER_MS < d.until && d.from < end * TICKS_PER_MS
    ensures exists series, i: nat :: MayAdd(start, end, t, site, series, i) && !Apart(Made(site, series, t)[i], d)
  {
    var key, a: TsPoint, b: TsPoint :| a.value.Some? && b.value.Some? && ChannelsOf(site, key) != {} &&
        0 < b.ts - a.ts <= MaxDelta(t) && d == PairDeposit(site, key, a, b, t);
    PairIsMet(t, site, key, a, b, start, end);
  }

  lemma PairsOverlap(site: Site, key: string, a: TsPoint, b: TsPoint, a': TsPoint, b': TsPoint, t: Tier)
    requires a.value.Some? && b.value.Some? && a'.value.Some? && b'.value.Some? && ChannelsOf(site, key) != {}
    requires a'.ts < b.ts && a.ts < b'.ts
    ensures !Apart(PairDeposit(site, key, a', b', t), PairDeposit(site, key, a, b, t))
  {
    var c :| c in ChannelsOf(site, key);
    OverlapNotApart(PairDeposit(site, key, a', b', t), PairDeposit(site, key, a, b, t), c);
  }

  /**
   * A process is initialised again at `now`, and the pass of its new backfill begins at `start`. Whatever the store
   * answers and whatever is sampled next, nothing the pass adds is integrated twice, exactly if the pass is empty, or
   * it ends by the last sample (or no sample can follow that one within 180 s) and begins where all that older
   * backfills still have to add to the tier has ended.
   */
  lemma ReinitialisingIsSafeIff(t: Tier, w: World, start: int, now: int)
    requires Inv(t, w) && w.clock <= now
    ensures NeverMeetsLive(t, w.mem, start, PassEnd(now, t), now)
            && NeverMeetsPending(t, w.backfills, start, PassEnd(now, t))
       <==> start >= PassEnd(now, t) || (SafeAgain(t, w.mem, now) && PendingEndsBy(t, w.backfills, start))
  {
    forall c | 0 <= c < |w.backfills| ensures PendingOk(w.backfills[c].pending, t, w.backfills[c].boot) {
      assert BackfillOk(t, w.backfills[c], w.held, w.saved, w.clock);
    }
    MeetsLiveIff(t, w.mem, start, now);
    MeetsPendingIff(t, w.backfills, start, PassEnd(now, t));
    BesideIsBefore(t, w, start, now);
  }

  predicate PendingEndsBy(t: Tier, running: seq<Backfill>, start: int) {
    forall c, j :: 0 <= c < |running| && 0 <= j < |running[c].pending| && t in running[c].pending[j].deposit.tiers ==>
      running[c].pending[j].until <= start * TICKS_PER_MS
  }

  /** What an older backfill adds ends no later than any newer pass. */
  lemma BesideIsBefore(t: Tier, w: World, start: int, now: int)
    requires Inv(t, w) && w.clock <= now
    ensures StartsBeside(t, w.backfills, start, PassEnd(now, t)) <==> PendingEndsBy(t, w.backfills, start)
  {
    forall c, j | 0 <= c < |w.backfills| && 0 <= j < |w.backfills[c].pending|
        && t in w.backfills[c].pending[j].deposit.tiers
      ensures w.backfills[c].pending[j].from < PassEnd(now, t) * TICKS_PER_MS {
      assert BackfillOk(t, w.backfills[c], w.held, w.saved, w.clock);
      PassEndMonotone(t, w.backfills[c].boot, now);
    }
  }

  lemma BucketsMonotone(t: Tier, a: int, b: int)
    requires 0 <= a <= b
    ensures a / BucketMs(t) <= b / BucketMs(t)
  {
    match t
    case Minute =>
    case Hour =>
    case Day =>
  }

  lemma PassEndMonotone(t: Tier, now: int, later: int)
    requires 0 <= now <= later
    ensures PassEnd(now, t) <= PassEnd(later, t)
  {
    BucketsMonotone(t, now / TICKS_PER_MS, later / TICKS_PER_MS);
    ScaleBuckets(now / TICKS_PER_MS / BucketMs(t), later / TICKS_PER_MS / BucketMs(t), BucketMs(t));
  }

  lemma ScaleBuckets(q: int, r: int, d: int)
    requires q <= r && d > 0
    ensures q * d <= r * d
  {
  }

  // ---- Without any one of the three rules the same time is integrated twice ----

  /** What keeps re-initialisations safe, see SafeStep. */
  datatype Rule = PassEndsBySample | PassStartsBesidePending | RunningAreTimely

  /** The step meets the rules other than `dropped`. */
  ghost predicate SafeBut(dropped: Rule, w: World, e: Event)
    requires Enabled(w, e)
  {
    match e
    case Again(now) =>
      && (dropped != PassEndsBySample ==> SafeAgain(Minute, w.mem, now))
      && (dropped != RunningAreTimely ==> RunningTimely(Minute, w.backfills))
    case BeginPass(b, tier, start, _, _) =>
      tier == Minute && dropped != PassStartsBesidePending ==> SafeBegin(Minute, w, b, start)
    case _ => true
  }

  /** A run whose steps all meet the other rules ends in `w`. */
  ghost predicate Reached(dropped: Rule, w: World) {
    exists worlds, events :: RunTo(dropped, worlds, events, w)
  }

  ghost predicate RunTo(dropped: Rule, worlds: seq<World>, events: seq<Event>, w: World) {
    && IsRun(Minute, worlds, events) && worlds[|events|] == w
    && forall i :: 0 <= i < |events| ==> SafeBut(dropped, worlds[i], events[i])
  }

  lemma Reach(dropped: Rule, w: World, e: Event)
    requires Reached(dropped, w) && Enabled(w, e) && SafeBut(dropped, w, e)
    ensures Reached(dropped, After(Minute, w, e))
  {
    var worlds, events :| RunTo(dropped, worlds, events, w);
    var worlds', events' := worlds + [After(Minute, w, e)], events + [e];
    forall i | 0 <= i < |events'|
      ensures Enabled(worlds'[i], events'[i]) && worlds'[i + 1] == After(Minute, worlds'[i], events'[i])
      ensures SafeBut(dropped, worlds'[i], events'[i]) {
      if i < |events| {
        assert worlds'[i] == worlds[i] && worlds'[i + 1] == worlds[i + 1] && events'[i] == events[i];
      }
    }
    assert RunTo(dropped, worlds', events', After(Minute, w, e));
  }

  lemma GridOverlap(from: int, until: int, other: Integrated)
    requires Covers(other.coverage, GridImport)
    requires other.from < until * TICKS_PER_MS && from * TICKS_PER_MS < other.until
    ensures !Apart(GridDeposit(from, until), other)
  {
    assert GridImport in ChannelsOf(GRID_ONLY, "grid");
    OverlapNotApart(GridDeposit(from, until), other, GridImport);
  }

  function Sampled(ts: int): Ledger {
    EMPTY_LEDGER.(last := Some((ts, EVEN_POWER)))
  }

  /** A process that starts from nothing and has sampled once. */
  function Begun(boot: int, ts: int): World {
    World(Sampled(ts), map[], 1, None, [Backfill(boot, boot, [])], ts)
  }

  lemma BeginRun(dropped: Rule, boot: int, ts: int)
    requires 0 <= boot <= ts
    ensures Reached(dropped, Begun(boot, ts))
  {
    assert RunTo(dropped, [FRESH_WORLD], [], FRESH_WORLD);
    var w := After(Minute, FRESH_WORLD, Boot(boot));
    Reach(dropped, FRESH_WORLD, Boot(boot));
    Reach(dropped, w, Live(ts, EVEN_POWER));
    assert RecordSample(EMPTY_LEDGER, ts, EVEN_POWER) == Sampled(ts);
    assert After(Minute, w, Live(ts, EVEN_POWER)) == Begun(boot, ts);
  }

  /** A pass over two grid points is begun when there is no minute bucket. */
  lemma BeginGridPass(dropped: Rule, w: World, b: nat, from: int, until: int) returns (w': World)
    requires b < |w.backfills| && w.backfills[b].pending == [] && w.mem.minute == map[] && Reached(dropped, w)
    requires var boot := w.backfills[b].boot; WindowFrom(boot, Minute) <= from < until <= PassEnd(boot, Minute)
    requires until - from <= 300_000
    requires dropped != PassStartsBesidePending ==>
      SafeBegin(Minute, w, b, WindowFrom(w.backfills[b].boot, Minute))
    ensures Reached(dropped, w')
    ensures w' == w.(backfills :=
      w.backfills[b := Backfill(w.backfills[b].boot, w.clock, [GridDeposit(from, until)])])
  {
    var boot := w.backfills[b].boot;
    GridPass(from, until, WindowFrom(boot, Minute), PassEnd(boot, Minute));
    var e := BeginPass(b, Minute, WindowFrom(boot, Minute), GRID_ONLY, GridSeries(from, until));
    Reach(dropped, w, e);
    w' := After(Minute, w, e);
  }

  /** Its one step. */
  lemma GridPassStep(dropped: Rule, w: World, b: nat, from: int, until: int) returns (w': World)
    requires b < |w.backfills| && w.backfills[b].pending == [GridDeposit(from, until)] && Reached(dropped, w)
    ensures Reached(dropped, w')
    ensures w'.held == w.held[w.next := GridDeposit(from, until)] && w'.next == w.next + 1
    ensures w'.mem.last == w.mem.last && w'.saved == w.saved && w'.clock == w.clock
    ensures w'.backfills == w.backfills[b := w.backfills[b].(pending := [])]
  {
    assert [GridDeposit(from, until)][1..] == [];
    Reach(dropped, w, PassStep(b));
    w' := After(Minute, w, PassStep(b));
  }

  /** An accepted live step is held beside what is not pruned. */
  lemma LiveStep(dropped: Rule, w: World, ts: int, m: nat) returns (w': World)
    requires w.clock <= ts && Accepted(w.mem, ts) && m in w.held && w.next !in w.held && Reached(dropped, w)
    requires Cutoff(Minute, ts) <= w.held[m].deposit.minute
    ensures Reached(dropped, w')
    ensures m in w'.held && w'.held[m] == w.held[m]
    ensures w.next in w'.held && w'.held[w.next] == LiveIntegrated(w.mem, ts, EVEN_POWER)
  {
    Reach(dropped, w, Live(ts, EVEN_POWER));
    w' := After(Minute, w, Live(ts, EVEN_POWER));
  }

  /**
   * A process that started from nothing samples at `last`, is initialised again at `now` and samples at `ts`;
   * the new pass integrates a time after `last`, and so does the live step.
   */
  lemma PassMeetsLive(last: int, now: int, ts: int, from: int, until: int) returns (w: World)
    requires 0 <= last <= now <= ts && MIN_STEP < ts - last <= MAX_STEP
    requires WindowFrom(now, Minute) <= from < until <= PassEnd(now, Minute) && until - from <= 300_000
    requires last < until * TICKS_PER_MS && from * TICKS_PER_MS < ts
    requires Cutoff(Minute, ts) <= TruncDiv(until, 60_000)
    ensures Reached(PassEndsBySample, w) && !AllApart(w.held)
  {
    BeginRun(PassEndsBySample, 0, last);
    Reach(PassEndsBySample, Begun(0, last), Again(now));
    w := After(Minute, Begun(0, last), Again(now));
    w := BeginGridPass(PassEndsBySample, w, 1, from, until);
    w := GridPassStep(PassEndsBySample, w, 1, from, until);
    GridOverlap(from, until, LiveIntegrated(w.mem, ts, EVEN_POWER));
    w := LiveStep(PassEndsBySample, w, ts, 1);
    assert !Apart(w.held[1], w.held[2]);
  }

  /**
   * A process that started from nothing at `boot` has begun its pass, samples at `last` and is initialised again at
   * `now`; both backfills add the same stored points.
   */
  lemma PassMeetsPending(boot: int, last: int, now: int, from: int, until: int) returns (w: World)
    requires 0 <= boot <= last <= now && PassEnd(now, Minute) * TICKS_PER_MS <= last
    requires WindowFrom(now, Minute) <= from < until <= PassEnd(boot, Minute) && until - from <= 300_000
    requires PassEnd(boot, Minute) <= PassEnd(now, Minute) && WindowFrom(boot, Minute) <= from
    requires Timely(Minute, boot, last)
    ensures Reached(PassStartsBesidePending, w) && !AllApart(w.held)
  {
    var rule := PassStartsBesidePending;
    BeginRun(rule, boot, last);
    w := BeginGridPass(rule, Begun(boot, last), 0, from, until);
    Reach(rule, w, Again(now));
    w := After(Minute, w, Again(now));
    w := BeginGridPass(rule, w, 1, from, until);
    w := GridPassStep(rule, w, 0, from, until);
    w := GridPassStep(rule, w, 1, from, until);
    GridOverlap(from, until, GridDeposit(from, until));
    assert !Apart(w.held[1], w.held[2]);
  }

  lemma ListsOne(b: Buckets, k: int)
    requires b.Keys == {k}
    ensures Lists([(k, b[k])], b) && BucketsOf([(k, b[k])]) == b
  {
    ListsRoundTrip([(k, b[k])], b);
  }

  lemma SaveOneEach(l: Ledger, minute: int) returns (env: Envelope)
    requires forall t :: Of(l, t).Keys == {TierKey(t, minute)}
    ensures IsSaved(env, l) && BucketsOf(env.minute) == l.minute
  {
    var m, h, d := TierKey(Minute, minute), TierKey(Hour, minute), TierKey(Day, minute);
    assert Of(l, Minute).Keys == {m} && Of(l, Hour).Keys == {h} && Of(l, Day).Keys == {d};
    env := Envelope(CURRENT_STATE_VERSION, [(m, l.minute[m])], [(h, l.hour[h])], [(d, l.day[d])]);
    ListsOne(l.minute, m);
    ListsOne(l.hour, h);
    ListsOne(l.day, d);
  }

  /** A first process samples at `t0` and `t1` and saves its one bucket of each tier; a second one starts at `boot`. */
  lemma BeginRestored(dropped: Rule, t0: int, t1: int, boot: int) returns (w: World)
    requires 0 <= t0 <= t1 <= boot && MIN_STEP < t1 - t0 <= MAX_STEP
    ensures Reached(dropped, w) && w.next == 2 && w.clock == boot && w.backfills == [Backfill(boot, boot, [])]
    ensures w.mem.last == None && w.mem.minute.Keys == {MinuteOf(t1)}
    ensures w.saved.Some? && w.saved.value.1 == w.held
    ensures w.held == map[1 := LiveIntegrated(Sampled(t0), t1, EVEN_POWER)]
  {
    BeginRun(dropped, 0, t0);
    Reach(dropped, Begun(0, t0), Live(t1, EVEN_POWER));
    w := After(Minute, Begun(0, t0), Live(t1, EVEN_POWER));
    var env := SaveOneEach(w.mem, MinuteOf(t1));
    Reach(dropped, w, Save(env));
    w := After(Minute, w, Save(env));
    Reach(dropped, w, Boot(boot));
    w := After(Minute, w, Boot(boot));
  }

  /**
   * A restored process begins its pass so late that a sample at `t2` has pruned what was restored, and is initialised
   * again at `now` while that pass is running: what was pruned comes back, and the pass adds it once more.
   */
  lemma LatePassMeetsRestored(t0: int, t1: int, boot: int, t2: int, now: int, from: int, until: int)
      returns (w: World)
    requires 0 <= t0 <= t1 <= boot <= t2 <= now && MIN_STEP < t1 - t0 <= MAX_STEP
    requires MinuteOf(t1) < Cutoff(Minute, t2) && PassEnd(now, Minute) * TICKS_PER_MS <= t2
    requires WindowFrom(boot, Minute) <= from < until <= PassEnd(boot, Minute) && until - from <= 300_000
    requires t0 < until * TICKS_PER_MS && from * TICKS_PER_MS < t1
    ensures Reached(RunningAreTimely, w) && !AllApart(w.held)
  {
    var rule := RunningAreTimely;
    w := BeginRestored(rule, t0, t1, boot);
    var live := LiveIntegrated(Sampled(t0), t1, EVEN_POWER);
    Reach(rule, w, Live(t2, EVEN_POWER));
    w := After(Minute, w, Live(t2, EVEN_POWER));
    w := BeginGridPass(rule, w, 0, from, until);
    Reach(rule, w, Again(now));
    w := After(Minute, w, Again(now));
    w := GridPassStep(rule, w, 0, from, until);
    GridOverlap(from, until, live);
    assert w.held[1] == live && w.held[3] == GridDeposit(from, until);
  }

  /**
   * Each rule is needed: a run that meets the other two integrates the same time of the grid meter twice.
   *
   * A pass after the last sample: sampled at second 59, initialised again at second 125, sampled at second 126.
   * A pass beside a pending one: started at second 125, sampled at 128, initialised again at 131, nothing saved.
   * A late pass: started at second 125 from a state saved at second 50, and sampled again only after 27 hours.
   */
  lemma EveryRuleIsNeeded(dropped: Rule)
    ensures exists w :: Reached(dropped, w) && !AllApart(w.held)
  {
    match dropped
    case PassEndsBySample =>
      var w := PassMeetsLive(Seconds(59), Seconds(125), Seconds(126), 60_000, 120_000);
    case PassStartsBesidePending =>
      var w := PassMeetsPending(Seconds(125), Seconds(128), Seconds(131), 0, 60_000);
    case RunningAreTimely =>
      var w := LatePassMeetsRestored(Seconds(10), Seconds(50), Seconds(125), Seconds(100_000), Seconds(100_001),
          15_000, 45_000);
  }
}
