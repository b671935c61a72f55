/**
 * The rolling energy accounting on values: three tiers of buckets, the steps that change them, and
 * the log of everything that was ever added.
 */
module RollingLedger {
  import opened Wrappers
  import opened EnergyFlows

  datatype Tier = Minute | Hour | Day

  type Buckets = map<int, Energy>

  /** Times are ticks of 100 ns since the Unix epoch. */
  const TICKS_PER_MS := 10_000
  const TICKS_PER_SECOND := 10_000_000
  const MINUTES_PER_HOUR := 60
  const MINUTES_PER_DAY := 1440

  /** `a / b` on long: truncates toward zero. */
  function TruncDiv(a: int, b: int): int
    requires b > 0
  {
    if a >= 0 then a / b else -((-a) / b)
  }

  /** `ToUnixTimeSeconds() / 60`; the conversion to seconds floors. */
  function MinuteOf(ticks: int): int {
    TruncDiv(ticks / TICKS_PER_SECOND, 60)
  }

  function TierKey(t: Tier, minute: int): int {
    match t
    case Minute => minute
    case Hour => TruncDiv(minute, MINUTES_PER_HOUR)
    case Day => TruncDiv(minute, MINUTES_PER_DAY)
  }

  /** Length of the rolling window that is summed, in buckets of the tier. */
  function WindowLength(t: Tier): int {
    match t case Minute => 24 * 60 case Hour => 30 * 24 case Day => 365
  }

  /** How many buckets back a live sample keeps. */
  function Retention(t: Tier): int {
    match t case Minute => 25 * 60 case Hour => 31 * 24 case Day => 366
  }

  lemma MinuteOfMonotone(ts: int, ts': int)
    requires ts <= ts'
    ensures MinuteOf(ts) <= MinuteOf(ts')
  {
  }

  lemma TierKeyMonotone(t: Tier, m: int, m': int)
    requires m <= m'
    ensures TierKey(t, m) <= TierKey(t, m')
  {
  }

  // ---- State and steps ----

  datatype Ledger = Ledger(minute: Buckets, hour: Buckets, day: Buckets, last: Option<(int, Reading)>)

  const EMPTY_LEDGER := Ledger(map[], map[], map[], None)

  function Of(l: Ledger, t: Tier): Buckets {
    match t case Minute => l.minute case Hour => l.hour case Day => l.day
  }

  function Accumulated(b: Buckets, key: int, e: Energy): Buckets {
    b[key := Plus(if key in b then b[key] else NO_ENERGY, e)]
  }

  function DepositInto(b: Buckets, t: Tier, tiers: set<Tier>, minute: int, e: Energy): Buckets {
    if t in tiers then Accumulated(b, TierKey(t, minute), e) else b
  }

  function AddDelta(l: Ledger, minute: int, e: Energy, tiers: set<Tier>): Ledger {
    l.(minute := DepositInto(l.minute, Minute, tiers, minute, e),
       hour := DepositInto(l.hour, Hour, tiers, minute, e),
       day := DepositInto(l.day, Day, tiers, minute, e))
  }

  function PruneBelow(b: Buckets, cutoff: int): Buckets {
    map k | k in b && k >= cutoff :: b[k]
  }

  function Cutoff(t: Tier, ts: int): int {
    TierKey(t, MinuteOf(ts)) - Retention(t)
  }

  function Pruned(l: Ledger, ts: int): Ledger {
    l.(minute := PruneBelow(l.minute, Cutoff(Minute, ts)),
       hour := PruneBelow(l.hour, Cutoff(Hour, ts)),
       day := PruneBelow(l.day, Cutoff(Day, ts)))
  }

  const ALL_TIERS: set<Tier> := {Minute, Hour, Day}

  const MIN_STEP := 500_000                  // 0.05 s
  const MAX_STEP := 180 * TICKS_PER_SECOND

  /** A step is integrated only when 0.05 s < dt <= 180 s. */
  predicate Accepted(l: Ledger, ts: int) {
    l.last.Some? && MIN_STEP < ts - l.last.value.0 <= MAX_STEP
  }

  function HoursBetween(from: int, to: int): real {
    (to - from) as real / (3600 * TICKS_PER_SECOND) as real
  }

  function LiveEnergy(l: Ledger, ts: int, cur: Reading): Energy
    requires l.last.Some?
  {
    StepEnergy(l.last.value.1, cur, HoursBetween(l.last.value.0, ts))
  }

  function RecordSample(l: Ledger, ts: int, cur: Reading): Ledger {
    var added := if Accepted(l, ts) then AddDelta(l, MinuteOf(ts), LiveEnergy(l, ts, cur), ALL_TIERS) else l;
    Pruned(added, ts).(last := Some((ts, cur)))
  }

  /** The saved form: a version and one bucket list per tier. */
  datatype Envelope = Envelope(version: int, minute: seq<(int, Energy)>, hour: seq<(int, Energy)>,
      day: seq<(int, Energy)>)

  const CURRENT_STATE_VERSION := 3

  function ListOf(env: Envelope, t: Tier): seq<(int, Energy)> {
    match t case Minute => env.minute case Hour => env.hour case Day => env.day
  }

  /** `foreach (b in list) buckets[b.MinuteKey] = b`: the last entry of a key wins. */
  function BucketsOf(list: seq<(int, Energy)>): Buckets {
    if list == [] then map[] else BucketsOf(list[..|list| - 1])[list[|list| - 1].0 := list[|list| - 1].1]
  }

  function Restore(l: Ledger, env: Envelope): Ledger {
    if env.version < CURRENT_STATE_VERSION then l
    else l.(minute := BucketsOf(env.minute), hour := BucketsOf(env.hour), day := BucketsOf(env.day))
  }

  /** Entries with ascending keys, exactly those of `b`. */
  ghost predicate Lists(list: seq<(int, Energy)>, b: Buckets) {
    && (forall i, j :: 0 <= i < j < |list| ==> list[i].0 < list[j].0)
    && (forall i :: 0 <= i < |list| ==> list[i].0 in b && b[list[i].0] == list[i].1)
    && (forall k :: k in b ==> (k, b[k]) in list)
  }

  /** `env` is the serialized form of `l`. */
  ghost predicate IsSaved(env: Envelope, l: Ledger) {
    env.version == CURRENT_STATE_VERSION && forall t :: Lists(ListOf(env, t), Of(l, t))
  }

  lemma {:induction false} BucketsOfAscending(list: seq<(int, Energy)>)
    requires forall i, j :: 0 <= i < j < |list| ==> list[i].0 < list[j].0
    ensures forall k :: k in BucketsOf(list) <==> exists i :: 0 <= i < |list| && list[i].0 == k
    ensures forall i :: 0 <= i < |list| ==> BucketsOf(list)[list[i].0] == list[i].1
  {
    if list != [] {
      var n := |list| - 1;
      BucketsOfAscending(list[..n]);
      forall k | k in BucketsOf(list) ensures exists i :: 0 <= i < |list| && list[i].0 == k {
        if k != list[n].0 {
          var i :| 0 <= i < n && list[..n][i].0 == k;
          assert list[i].0 == k;
        }
      }
      forall i | 0 <= i < |list| ensures list[i].0 in BucketsOf(list) && BucketsOf(list)[list[i].0] == list[i].1 {
        if i < n {
          assert list[..n][i] == list[i];
        }
      }
    }
  }

  lemma ListsRoundTrip(list: seq<(int, Energy)>, b: Buckets)
    requires Lists(list, b)
    ensures BucketsOf(list) == b
  {
    BucketsOfAscending(list);
    forall k | k in b ensures k in BucketsOf(list) && BucketsOf(list)[k] == b[k] {
      var i :| 0 <= i < |list| && list[i] == (k, b[k]);
      assert list[i].0 == k;
    }
    forall k | k in BucketsOf(list) ensures k in b {
      var i :| 0 <= i < |list| && list[i].0 == k;
    }
  }

  /** Deserialize after Serialize brings back the same three maps, whatever was there before. */
  lemma SaveThenRestore(env: Envelope, l: Ledger, l': Ledger)
    requires IsSaved(env, l)
    ensures Restore(l', env) == l.(last := l'.last)
  {
    ListsRoundTrip(ListOf(env, Minute), Of(l, Minute));
    ListsRoundTrip(ListOf(env, Hour), Of(l, Hour));
    ListsRoundTrip(ListOf(env, Day), Of(l, Day));
  }

  // ---- Where a backfill starts ----

  /** Bucket size in ms. */
  function BucketMs(t: Tier): int {
    match t case Minute => 60_000 case Hour => 3_600_000 case Day => 86_400_000
  }

  /** The end of the newest bucket of tier `t`, but not before `windowStart`; all times in Unix ms. */
  ghost predicate IsBackfillStart(b: Buckets, t: Tier, windowStart: int, start: int) {
    && windowStart <= start
    && (forall k :: k in b ==> (k + 1) * BucketMs(t) <= start)
    && (start == windowStart || exists k :: k in b && (k + 1) * BucketMs(t) == start)
  }

  // ---- Window totals ----

  function At(b: Buckets, key: int, c: Channel): real {
    if key in b then Amount(b[key], c) else 0.0
  }

  /** Sum of one channel over the buckets with a key in lo..hi. */
  function WindowTotal(b: Buckets, lo: int, hi: int, c: Channel): real
    decreases hi - lo
  {
    if hi < lo then 0.0
    else WindowTotal(b, lo, hi - 1, c) + At(b, hi, c)
  }

  /** First and last bucket key of the window that ends at `asOf`. */
  function WindowEnd(t: Tier, asOf: int): int { TierKey(t, MinuteOf(asOf)) }
  function WindowStart(t: Tier, asOf: int): int { WindowEnd(t, asOf) - WindowLength(t) }

  function RollingTotal(l: Ledger, t: Tier, asOf: int, c: Channel): real {
    WindowTotal(Of(l, t), WindowStart(t, asOf), WindowEnd(t, asOf), c)
  }

  // ---- The unbounded log ----

  /** One call that added energy. */
  datatype Deposit = Deposit(minute: int, energy: Energy, tiers: set<Tier>)

  /** What a deposit puts into the buckets lo..hi of tier `t`. */
  function Share(d: Deposit, t: Tier, lo: int, hi: int, c: Channel): real {
    if t in d.tiers && lo <= TierKey(t, d.minute) <= hi then Amount(d.energy, c) else 0.0
  }

  function LogTotal(log: seq<Deposit>, t: Tier, lo: int, hi: int, c: Channel): real {
    if log == [] then 0.0
    else LogTotal(log[..|log| - 1], t, lo, hi, c) + Share(log[|log| - 1], t, lo, hi, c)
  }

  datatype Step =
    | Sample(ts: int, reading: Reading)
    | Add(deposit: Deposit)
    | Load(env: Envelope)

  function Apply(l: Ledger, s: Step): Ledger {
    match s
    case Sample(ts, reading) => RecordSample(l, ts, reading)
    case Add(d) => AddDelta(l, d.minute, d.energy, d.tiers)
    case Load(env) => Restore(l, env)
  }

  function Run(steps: seq<Step>): Ledger {
    if steps == [] then EMPTY_LEDGER else Apply(Run(steps[..|steps| - 1]), steps[|steps| - 1])
  }
}
