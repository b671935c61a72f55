/** The rolling energy calculator: three bucket dictionaries and the last reading, changed in place. */
module RollingEnergy {
  import opened Wrappers
  import opened Rounding
  import opened Ordering
  import opened EnergyFlows
  import opened RollingLedger
  import opened RollingRuns

  /** Adds the entries of `b` to those of `a`, one entry at a time. */
  method MergeEntries(a: map<string, real>, b: map<string, real>) returns (r: map<string, real>)
    ensures r == PlusEntries(a, b)
  {
    r := a;
    var todo := b.Keys;
    while todo != {}
      invariant todo <= b.Keys
      invariant r.Keys == a.Keys + (b.Keys - todo)
      invariant forall id :: id in r ==> r[id] == Entry(a, id) + if id in todo then 0.0 else Entry(b, id)
    {
      var id :| id in todo;
      todo := todo - {id};
      r := r[id := if id in r then r[id] + b[id] else b[id]];
    }
  }

  // ---- One tier: a dictionary from bucket key to bucket ----

  /** Adds `e` to the bucket of `key`, which is created when it is missing. */
  method Accumulate(target: Buckets, key: int, e: Energy) returns (r: Buckets)
    ensures r == Accumulated(target, key, e)
  {
    var bucket := if key in target then target[key] else NO_ENERGY;
    var consumers := MergeEntries(bucket.consumers, e.consumers);
    r := target[key := Energy(
      bucket.gridImport + e.gridImport, bucket.gridExport + e.gridExport, bucket.pv + e.pv,
      bucket.charge + e.charge, bucket.discharge + e.discharge,
      bucket.uncontrollable + e.uncontrollable, bucket.surplus + e.surplus, consumers)];
  }

  /** Collects the stale keys and removes them one by one. */
  method Prune(buckets: Buckets, cutoff: int) returns (r: Buckets)
    ensures r == PruneBelow(buckets, cutoff)
  {
    r := buckets;
    var stale := set k | k in buckets && k < cutoff;
    while stale != {}
      invariant r == map k | k in buckets && (k >= cutoff || k in stale) :: buckets[k]
      invariant forall k :: k in stale ==> k < cutoff
    {
      ghost var some := Element(stale);
      var k :| k in stale;
      stale := stale - {k};
      r := r - {k};
    }
  }

  /** Sums the buckets with a key in lo..hi, in whatever order the dictionary yields them. */
  method SumWindow(buckets: Buckets, lo: int, hi: int) returns (totals: Energy)
    ensures forall c :: Amount(totals, c) == WindowTotal(buckets, lo, hi, c)
  {
    totals := NO_ENERGY;
    var todo := buckets.Keys;
    ghost var done: Buckets := map[];
    forall c ensures Amount(totals, c) == WindowTotal(done, lo, hi, c) {
      WindowTotalOfNothing(lo, hi, c);
    }
    while todo != {}
      invariant todo <= buckets.Keys
      invariant done == map k | k in buckets && k !in todo :: buckets[k]
      invariant forall c :: Amount(totals, c) == WindowTotal(done, lo, hi, c)
    {
      ghost var some := Element(todo);
      var k :| k in todo;
      todo := todo - {k};
      ghost var seen := done;
      done := done[k := buckets[k]];
      forall c ensures WindowTotal(done, lo, hi, c) ==
        WindowTotal(seen, lo, hi, c) + if lo <= k <= hi then Amount(buckets[k], c) else 0.0 {
        WindowTotalInsert(seen, k, buckets[k], lo, hi, c);
      }
      if lo <= k <= hi {
        var b := buckets[k];
        var entries := MergeEntries(totals.consumers, b.consumers);
        ghost var sum := Plus(totals, b);
        totals := Energy(totals.gridImport + b.gridImport, totals.gridExport + b.gridExport, totals.pv + b.pv,
                         totals.charge + b.charge, totals.discharge + b.discharge,
                         totals.uncontrollable + b.uncontrollable, totals.surplus + b.surplus, entries);
        assert totals == sum;
      }
    }
    assert done == buckets;
  }

  /** `Values.OrderBy(b => b.MinuteKey).ToList()` */
  method ToList(buckets: Buckets) returns (list: seq<(int, Energy)>)
    ensures Lists(list, buckets)
  {
    var keys := Ascending(buckets.Keys);
    assert forall k :: k in keys <==> k in buckets;
    list := [];
    for i := 0 to |keys|
      invariant |list| == i
      invariant forall j :: 0 <= j < i ==> list[j] == (keys[j], buckets[keys[j]])
    {
      list := list + [(keys[i], buckets[keys[i]])];
    }
    forall k | k in buckets ensures (k, buckets[k]) in list {
      assert k in keys;
      var i :| 0 <= i < |keys| && keys[i] == k;
      assert list[i] == (k, buckets[k]);
    }
  }

  /** `Keys.Max()`, or null when there are no buckets. */
  method NewestKey(buckets: Buckets) returns (newest: Option<int>)
    ensures newest.None? <==> buckets == map[]
    ensures newest.Some? ==> newest.value in buckets && forall k :: k in buckets ==> k <= newest.value
  {
    newest := None;
    var todo := buckets.Keys;
    while todo != {}
      invariant todo <= buckets.Keys
      invariant newest.None? <==> todo == buckets.Keys
      invariant newest.Some? ==> newest.value in buckets && forall k :: k in buckets && k !in todo ==> k <= newest.value
    {
      ghost var some := Element(todo);
      var k :| k in todo;
      todo := todo - {k};
      if newest.None? || newest.value < k {
        newest := Some(k);
      }
    }
  }

  /** The buckets of a saved list. */
  method Fill(list: seq<(int, Energy)>) returns (buckets: Buckets)
    ensures buckets == BucketsOf(list)
  {
    buckets := map[];
    for i := 0 to |list|
      invariant buckets == BucketsOf(list[..i])
    {
      buckets := buckets[list[i].0 := list[i].1];
      assert list[..i + 1][..i] == list[..i];
    }
    assert list[..|list|] == list;
  }

  lemma {:induction false} WindowTotalInsert(b: Buckets, k: int, e: Energy, lo: int, hi: int, c: Channel)
    requires k !in b
    ensures WindowTotal(b[k := e], lo, hi, c) == WindowTotal(b, lo, hi, c) + if lo <= k <= hi then Amount(e, c) else 0.0
    decreases hi - lo
  {
    if lo <= hi {
      WindowTotalInsert(b, k, e, lo, hi - 1, c);
    }
  }

  /** `foreach ((id, power)) last[id] = power`: the last entry of an id wins. */
  function PowerById(consumers: seq<(string, real)>): map<string, real> {
    if consumers == [] then map[]
    else PowerById(consumers[..|consumers| - 1])[consumers[|consumers| - 1].0 := consumers[|consumers| - 1].1]
  }

  lemma RoundedAmount(e: Energy, c: Channel)
    ensures Amount(RoundedEnergy(e), c) == Round2(Amount(e, c))
  {
    assert Round2(0.0) == 0.0;
  }

  class RollingEnergyCalculator {
    var minuteBuckets: Buckets
    var hourBuckets: Buckets
    var dayBuckets: Buckets

    var lastTimestamp: Option<int>
    var lastGridKw: real
    var lastPvKw: real
    var lastBatteryKw: real
    var lastUncontrollableKw: real
    var lastSurplusKw: real
    var lastConsumerKw: map<string, real>

    /** The value the object stands for. */
    function State(): Ledger
      reads this
    {
      Ledger(minuteBuckets, hourBuckets, dayBuckets,
             if lastTimestamp.None? then None else Some((lastTimestamp.value, LastReading())))
    }

    function LastReading(): Reading
      reads this
    {
      Reading(lastGridKw, lastPvKw, lastBatteryKw, lastUncontrollableKw, lastSurplusKw, lastConsumerKw)
    }

    constructor ()
      ensures State() == EMPTY_LEDGER
    {
      minuteBuckets, hourBuckets, dayBuckets := map[], map[], map[];
      lastTimestamp := None;
      lastConsumerKw := map[];
    }

    /** Adds energy to the buckets of the given tiers that contain the minute. */
    method AddEnergy(minuteKey: int, e: Energy, tiers: set<Tier>)
      modifies this`minuteBuckets, this`hourBuckets, this`dayBuckets
      ensures State() == AddDelta(old(State()), minuteKey, e, tiers)
    {
      if Minute in tiers {
        minuteBuckets := Accumulate(minuteBuckets, minuteKey, e);
      }
      if Hour in tiers {
        hourBuckets := Accumulate(hourBuckets, TruncDiv(minuteKey, MINUTES_PER_HOUR), e);
      }
      if Day in tiers {
        dayBuckets := Accumulate(dayBuckets, TruncDiv(minuteKey, MINUTES_PER_DAY), e);
      }
    }

    /** Integrates the step from the last sample, if there is one and the step is acceptable. */
    method Integrate(ts: int, grid: real, pv: real, battery: real, uncontrollable: real, surplus: real,
                     consumers: seq<(string, real)>)
      modifies this`minuteBuckets, this`hourBuckets, this`dayBuckets
      ensures var l, cur := old(State()), Reading(grid, pv, battery, uncontrollable, surplus, PowerById(consumers));
              State() == if Accepted(l, ts) then AddDelta(l, MinuteOf(ts), LiveEnergy(l, ts, cur), ALL_TIERS) else l
    {
      if lastTimestamp.Some? {
        var ticks := ts - lastTimestamp.value;
        if MIN_STEP < ticks <= MAX_STEP {
          var hours := HoursBetween(lastTimestamp.value, ts);
          var deltas := ConsumerDeltas(consumers, hours);
          AddEnergy(MinuteOf(ts), Energy(
            Trapezoid(lastGridKw, grid, hours), Trapezoid(-lastGridKw, -grid, hours),
            Trapezoid(lastPvKw, pv, hours),
            Trapezoid(-lastBatteryKw, -battery, hours), Trapezoid(lastBatteryKw, battery, hours),
            Trapezoid(lastUncontrollableKw, uncontrollable, hours),
            Trapezoid(lastSurplusKw, surplus, hours), deltas), ALL_TIERS);
        }
      }
    }

    /** Ingests a live sample: integrates it, remembers it, then prunes all tiers. */
    method RecordSample(ts: int, grid: real, pv: real, battery: real, uncontrollable: real, surplus: real,
                        consumers: seq<(string, real)>)
      modifies this
      ensures State() == RollingLedger.RecordSample(old(State()), ts,
        Reading(grid, pv, battery, uncontrollable, surplus, PowerById(consumers)))
    {
      var currentMinute := MinuteOf(ts);
      Integrate(ts, grid, pv, battery, uncontrollable, surplus, consumers);
      ghost var added := State();
      lastTimestamp := Some(ts);
      lastGridKw, lastPvKw, lastBatteryKw := grid, pv, battery;
      lastUncontrollableKw, lastSurplusKw := uncontrollable, surplus;
      lastConsumerKw := CollectPower(consumers);
      PruneAll(currentMinute);
      assert Ledger(minuteBuckets, hourBuckets, dayBuckets, added.last) == Pruned(added, ts);
    }

    /** Prunes the buckets that are older than the retention of their tier. */
    method PruneAll(currentMinute: int)
      modifies this`minuteBuckets, this`hourBuckets, this`dayBuckets
      ensures minuteBuckets == PruneBelow(old(minuteBuckets), TierKey(Minute, currentMinute) - Retention(Minute))
      ensures hourBuckets == PruneBelow(old(hourBuckets), TierKey(Hour, currentMinute) - Retention(Hour))
      ensures dayBuckets == PruneBelow(old(dayBuckets), TierKey(Day, currentMinute) - Retention(Day))
      ensures minuteBuckets.Keys == set k | k in old(minuteBuckets) && k >= currentMinute - 25 * 60
      ensures hourBuckets.Keys == set k | k in old(hourBuckets) && k >= TruncDiv(currentMinute, 60) - 31 * 24
      ensures dayBuckets.Keys == set k | k in old(dayBuckets) && k >= TruncDiv(currentMinute, 24 * 60) - 366
    {
      minuteBuckets := Prune(minuteBuckets, currentMinute - 25 * 60);
      hourBuckets := Prune(hourBuckets, TruncDiv(currentMinute, MINUTES_PER_HOUR) - 31 * 24);
      dayBuckets := Prune(dayBuckets, TruncDiv(currentMinute, MINUTES_PER_DAY) - 366);
    }

    static method CollectPower(consumers: seq<(string, real)>) returns (power: map<string, real>)
      ensures power == PowerById(consumers)
    {
      power := map[];
      for i := 0 to |consumers|
        invariant power == PowerById(consumers[..i])
      {
        power := power[consumers[i].0 := consumers[i].1];
        assert consumers[..i + 1][..i] == consumers[..i];
      }
      assert consumers[..|consumers|] == consumers;
    }

    method ConsumerDeltas(consumers: seq<(string, real)>, hours: real) returns (deltas: map<string, real>)
      ensures deltas == map id | id in PowerById(consumers) ::
                          Trapezoid(Entry(lastConsumerKw, id), PowerById(consumers)[id], hours)
    {
      deltas := map[];
      for i := 0 to |consumers|
        invariant deltas == map id | id in PowerById(consumers[..i]) ::
                              Trapezoid(Entry(lastConsumerKw, id), PowerById(consumers[..i])[id], hours)
      {
        var (id, power) := consumers[i];
        deltas := deltas[id := Trapezoid(Entry(lastConsumerKw, id), power, hours)];
        assert consumers[..i + 1][..i] == consumers[..i];
      }
      assert consumers[..|consumers|] == consumers;
    }

    /** The rounded totals of the rolling window of tier `t` that ends at `asOf`. */
    method GetTotals(t: Tier, asOf: int) returns (totals: Energy)
      ensures forall c :: Amount(totals, c) == Round2(RollingTotal(State(), t, asOf, c))
    {
      var current := TierKey(t, MinuteOf(asOf));
      var sums := SumWindow(Of(State(), t), current - WindowLength(t), current);
      totals := RoundedEnergy(sums);
      forall c ensures Amount(totals, c) == Round2(Amount(sums, c)) {
        RoundedAmount(sums, c);
      }
    }

    /** Where a backfill pass of tier `t` resumes; times in Unix ms. */
    method GetBackfillStart(windowStart: int, t: Tier) returns (start: int)
      ensures IsBackfillStart(Of(State(), t), t, windowStart, start)
    {
      var newest := NewestKey(Of(State(), t));
      if newest.None? {
        return windowStart;
      }
      var bucketEnd := (newest.value + 1) * BucketMs(t);
      start := if bucketEnd > windowStart then bucketEnd else windowStart;
    }

    method Serialize() returns (env: Envelope)
      ensures IsSaved(env, State()) && env.version == 3
    {
      var m := ToList(minuteBuckets);
      var h := ToList(hourBuckets);
      var d := ToList(dayBuckets);
      env := Envelope(CURRENT_STATE_VERSION, m, h, d);
    }

    /** Restores a saved state; blank, legacy or unreadable text parses to None and changes nothing. */
    method Deserialize(parsed: Option<Envelope>)
      modifies this`minuteBuckets, this`hourBuckets, this`dayBuckets
      ensures State() == if parsed.None? then old(State()) else Restore(old(State()), parsed.value)
      ensures parsed.None? || parsed.value.version < 3 ==> State() == old(State())
    {
      if parsed.None? || parsed.value.version < CURRENT_STATE_VERSION {
        return;
      }
      minuteBuckets := Fill(parsed.value.minute);
      hourBuckets := Fill(parsed.value.hour);
      dayBuckets := Fill(parsed.value.day);
    }
  }
}
