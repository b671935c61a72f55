/** The sweep that joins several series over all of their times, carrying the last known values along. */
module AsOfJoin {
  import opened Wrappers
  import opened Ordering
  import opened Rounding
  import opened TimeSeries

  type History = map<string, seq<TsPoint>>
  type Values = map<string, real>

  // ---- What the sweep does ----

  /** The first index from `idx` on with a later time, which is where a sweep for `ts` stops. */
  function StopFrom(points: seq<TsPoint>, idx: nat, ts: int): (stop: nat)
    requires idx <= |points|
    ensures idx <= stop <= |points|
    ensures forall i :: idx <= i < stop ==> points[i].ts <= ts
    ensures stop < |points| ==> points[stop].ts > ts
    decreases |points| - idx
  {
    if idx < |points| && points[idx].ts <= ts then StopFrom(points, idx + 1, ts) else idx
  }

  function Stop(points: seq<TsPoint>, ts: int): nat {
    StopFrom(points, 0, ts)
  }

  /** The value of the last point that has one. */
  function LastValue(points: seq<TsPoint>): Option<real> {
    if points == [] then None
    else if points[|points| - 1].value.Some? then points[|points| - 1].value
    else LastValue(points[..|points| - 1])
  }

  function Swept(points: seq<TsPoint>, ts: int): Option<real> {
    LastValue(points[..Stop(points, ts)])
  }

  /** A later sweep goes on where an earlier one stopped. */
  lemma StopResumes(points: seq<TsPoint>, earlier: int, ts: int)
    requires earlier <= ts
    ensures StopFrom(points, Stop(points, earlier), ts) == Stop(points, ts)
  {
    StopIsUnique(points, Stop(points, earlier), StopFrom(points, Stop(points, earlier), ts), ts);
  }

  lemma StopIsUnique(points: seq<TsPoint>, from: nat, stop: nat, ts: int)
    requires from <= stop <= |points|
    requires forall i :: 0 <= i < stop ==> points[i].ts <= ts
    requires stop < |points| ==> points[stop].ts > ts
    ensures Stop(points, ts) == stop
  {
    var other := Stop(points, ts);
    assert other >= stop || other < |points|;
  }

  ghost predicate Knows(known: Values, key: string, value: Option<real>) {
    && (key in known <==> value.Some?)
    && (key in known ==> known[key] == value.value)
  }

  ghost predicate SameElsewhere(known: Values, before: Values, key: string) {
    forall k :: k != key ==> (k in known <==> k in before) && (k in before ==> known[k] == before[k])
  }

  /** Consumes one key's points up to `ts`. */
  method AdvanceKey(points: seq<TsPoint>, start: nat, ts: int, key: string, lastKnown: Values)
    returns (idx: nat, known: Values)
    requires start <= |points| && Knows(lastKnown, key, LastValue(points[..start]))
    ensures idx == StopFrom(points, start, ts)
    ensures Knows(known, key, LastValue(points[..idx])) && SameElsewhere(known, lastKnown, key)
  {
    idx, known := start, lastKnown;
    while idx < |points| && points[idx].ts <= ts
      invariant start <= idx <= |points|
      invariant StopFrom(points, start, ts) == StopFrom(points, idx, ts)
      invariant Knows(known, key, LastValue(points[..idx])) && SameElsewhere(known, lastKnown, key)
    {
      var val := points[idx].value;
      if val.Some? {
        known := known[key := val.value];
      }
      assert points[..idx + 1][..idx] == points[..idx];
      idx := idx + 1;
    }
  }

  /** How far the sweep has come for one key: its iterator and what it knows. */
  ghost predicate At(history: History, iterators: map<string, nat>, known: Values, key: string, ts: Option<int>) {
    && key in iterators
    && if key !in history then key !in known
       else if ts.None? then iterators[key] == 0 && key !in known
       else iterators[key] == Stop(history[key], ts.value) && Knows(known, key, Swept(history[key], ts.value))
  }

  lemma AtElsewhere(history: History, before: map<string, nat>, lastKnown: Values, iterators: map<string, nat>,
                    known: Values,
                    moved: string, key: string, ts: Option<int>)
    requires At(history, before, lastKnown, key, ts) && key != moved
    requires SameElsewhere(known, lastKnown, moved)
    requires key in iterators && iterators[key] == before[key]
    ensures At(history, iterators, known, key, ts)
  {
  }

  /** Moves every key on to `ts`. */
  method AdvanceAll(history: History, keyList: seq<string>, before: map<string, nat>, lastKnown: Values,
                    ghost prev: Option<int>, ts: int)
    returns (iterators: map<string, nat>, known: Values)
    requires Distinct(keyList)
    requires forall k :: k in keyList ==> At(history, before, lastKnown, k, prev)
    requires prev.Some? ==> prev.value <= ts
    requires lastKnown.Keys <= Elements(keyList)
    ensures forall k :: k in keyList ==> At(history, iterators, known, k, Some(ts))
    ensures known.Keys <= Elements(keyList)
  {
    iterators, known := before, lastKnown;
    for i := 0 to |keyList|
      invariant forall j :: 0 <= j < i ==> At(history, iterators, known, keyList[j], Some(ts))
      invariant forall j :: i <= j < |keyList| ==> At(history, iterators, known, keyList[j], prev)
      invariant known.Keys <= Elements(keyList)
    {
      var k := keyList[i];
      ghost var its, kn := iterators, known;
      iterators, known := AdvanceOne(history, k, iterators, known, prev, ts);
      forall j | 0 <= j < |keyList| && j != i
        ensures At(history, iterators, known, keyList[j], if j < i then Some(ts) else prev)
      {
        AtElsewhere(history, its, kn, iterators, known, k, keyList[j], if j < i then Some(ts) else prev);
      }
    }
  }

  method AdvanceOne(history: History, k: string, before: map<string, nat>, lastKnown: Values, ghost prev: Option<int>,
                    ts: int)
    returns (iterators: map<string, nat>, known: Values)
    requires At(history, before, lastKnown, k, prev)
    requires prev.Some? ==> prev.value <= ts
    ensures At(history, iterators, known, k, Some(ts))
    ensures SameElsewhere(known, lastKnown, k) && known.Keys <= lastKnown.Keys + {k}
    ensures before.Keys <= iterators.Keys
    ensures forall other :: other != k && other in before ==> iterators[other] == before[other]
  {
    iterators, known := before, lastKnown;
    if k !in history {
      return;
    }
    var points := history[k];
    if prev.Some? {
      StopResumes(points, prev.value, ts);
    } else {
      assert points[..0] == [];
    }
    var idx;
    idx, known := AdvanceKey(points, iterators[k], ts, k, known);
    iterators := iterators[k := idx];
  }

  /** What is known of every key at `ts`. */
  ghost function Snapshot(history: History, keys: set<string>, ts: int): Values {
    map k | k in keys && k in history && Swept(history[k], ts).Some? :: Swept(history[k], ts).value
  }

  lemma SnapshotFrom(history: History, keyList: seq<string>, iterators: map<string, nat>, known: Values, ts: int)
    requires forall k :: k in keyList ==> At(history, iterators, known, k, Some(ts))
    requires known.Keys <= Elements(keyList)
    ensures known == Snapshot(history, Elements(keyList), ts)
  {
    var snapshot := Snapshot(history, Elements(keyList), ts);
    forall k ensures k in known <==> k in snapshot {
      if k in keyList {
        assert At(history, iterators, known, k, Some(ts));
      }
    }
    forall k | k in known ensures known[k] == snapshot[k] {
      assert At(history, iterators, known, k, Some(ts));
    }
  }

  /** `Distinct().OrderBy()` over the times of all series. */
  method AllTimestamps(history: History) returns (times: seq<int>)
    ensures Increasing(times)
    ensures forall ts :: ts in times <==> IsTimeOf(history, ts)
  {
    times := Ascending(set k, i | k in history && 0 <= i < |history[k]| :: history[k][i].ts);
  }

  predicate IsTimeOf(history: History, ts: int) {
    exists k, i :: k in history && 0 <= i < |history[k]| && history[k][i].ts == ts
  }

  /** A formula sums its keys, shows one of them, or is computed from all of them. */
  datatype Formula = PathSum | Consumption | Computed(evaluate: Values -> Option<real>)

  /** The sum of what is known of each key. */
  function TotalAsOf(history: History, keyList: seq<string>, ts: int): real {
    if keyList == [] then 0.0
    else
      var key := keyList[|keyList| - 1];
      TotalAsOf(history, keyList[..|keyList| - 1], ts)
      + if key in history && Swept(history[key], ts).Some? then Swept(history[key], ts).value else 0.0
  }

  /** The result of the formula at one time, from the series alone. */
  ghost function ResultAt(history: History, keyList: seq<string>, formula: Formula, ts: int): Option<real> {
    match formula
    case PathSum => Some(TotalAsOf(history, keyList, ts))
    case Consumption => if keyList != [] && keyList[0] in history then Swept(history[keyList[0]], ts) else None
    case Computed(evaluate) =>
      match evaluate(Snapshot(history, Elements(keyList), ts))
      case None => None
      case Some(result) => Some(Round2(result))
  }

  /** The joined point at one time, where the formula has a result. */
  ghost function JoinedAt(history: History, keyList: seq<string>, formula: Formula, ts: int): seq<TsPoint> {
    var result := ResultAt(history, keyList, formula, ts);
    if result == None then [] else [TsPoint(ts, result)]
  }

  ghost function Joined(history: History, keyList: seq<string>, formula: Formula, times: seq<int>): seq<TsPoint> {
    if times == [] then []
    else Joined(history, keyList, formula, times[..|times| - 1])
         + JoinedAt(history, keyList, formula, times[|times| - 1])
  }

  /** `foreach (var k in keyList) if (lastKnownValues.TryGetValue(k, out double v)) sum += v;` */
  method SumKnown(history: History, keyList: seq<string>, lastKnown: Values, ts: int) returns (sum: real)
    requires lastKnown == Snapshot(history, Elements(keyList), ts)
    ensures sum == TotalAsOf(history, keyList, ts)
  {
    sum := 0.0;
    for i := 0 to |keyList|
      invariant sum == TotalAsOf(history, keyList[..i], ts)
    {
      assert keyList[..i + 1][..i] == keyList[..i] && keyList[i] in Elements(keyList);
      if keyList[i] in lastKnown {
        sum := sum + lastKnown[keyList[i]];
      }
    }
    assert keyList[..|keyList|] == keyList;
  }

  /** What the formula makes of the values known at `ts`. */
  method Evaluate(history: History, keyList: seq<string>, formula: Formula, lastKnown: Values, ts: int)
    returns (result: Option<real>)
    requires lastKnown == Snapshot(history, Elements(keyList), ts)
    ensures result == ResultAt(history, keyList, formula, ts)
  {
    match formula
    case PathSum =>
      var sum := SumKnown(history, keyList, lastKnown, ts);
      result := Some(sum);
    case Consumption =>
      assert keyList != [] ==> keyList[0] in Elements(keyList);
      result := if keyList != [] && keyList[0] in lastKnown then Some(lastKnown[keyList[0]]) else None;
    case Computed(evaluate) =>
      result := match evaluate(lastKnown) case None => None case Some(value) => Some(Round2(value));
  }

  method MergeHistory(history: History, keyList: seq<string>, formula: Formula)
    returns (mergedPoints: seq<TsPoint>, iterators: map<string, nat>, ghost times: seq<int>)
    requires Distinct(keyList)
    ensures Increasing(times) && forall ts :: ts in times <==> IsTimeOf(history, ts)
    ensures mergedPoints == Joined(history, keyList, formula, times)
    ensures forall k :: k in keyList && k in history ==> k in iterators && iterators[k] == |history[k]|
  {
    var allTimestamps := AllTimestamps(history);
    times := allTimestamps;
    mergedPoints := [];
    var lastKnownValues: Values := map[];
    iterators := map k | k in keyList :: 0;
    ghost var prev: Option<int> := None;
    for n := 0 to |allTimestamps|
      invariant prev == if n == 0 then None else Some(times[n - 1])
      invariant forall k :: k in keyList ==> At(history, iterators, lastKnownValues, k, prev)
      invariant lastKnownValues.Keys <= Elements(keyList)
      invariant mergedPoints == Joined(history, keyList, formula, times[..n])
    {
      var ts := allTimestamps[n];
      iterators, lastKnownValues := AdvanceAll(history, keyList, iterators, lastKnownValues, prev, ts);
      SnapshotFrom(history, keyList, iterators, lastKnownValues, ts);
      var result := Evaluate(history, keyList, formula, lastKnownValues, ts);
      if result.Some? {
        mergedPoints := mergedPoints + [TsPoint(ts, result)];
      }
      assert times[..n + 1][..n] == times[..n];
      prev := Some(ts);
    }
    assert times[..|times|] == times;
    forall k | k in keyList && k in history ensures k in iterators && iterators[k] == |history[k]| {
      AllConsumed(history, k, times);
    }
  }

  /** Once the last time is reached no point is left. */
  lemma AllConsumed(history: History, key: string, times: seq<int>)
    requires Increasing(times) && forall ts :: ts in times <==> IsTimeOf(history, ts)
    requires key in history
    ensures times == [] ==> history[key] == []
    ensures times != [] ==> Stop(history[key], times[|times| - 1]) == |history[key]|
  {
    var points := history[key];
    forall i | 0 <= i < |points| ensures times != [] && points[i].ts <= times[|times| - 1] {
      assert IsTimeOf(history, points[i].ts);
      var j :| 0 <= j < |times| && times[j] == points[i].ts;
    }
    assert points == [] || IsTimeOf(history, points[0].ts);
    if times != [] {
      StopIsUnique(points, 0, |points|, times[|times| - 1]);
    }
  }

  // ---- What it means ----

  /** Point `i` carries the newest value at or before `ts`. */
  predicate IsNewestAsOf(points: seq<TsPoint>, i: int, ts: int) {
    && 0 <= i < |points| && points[i].ts <= ts && points[i].value.Some?
    && forall j :: 0 <= j < |points| && points[j].ts <= ts && points[j].value.Some? ==>
         points[j].ts < points[i].ts || (points[j].ts == points[i].ts && j <= i)
  }

  function CountUpTo(points: seq<TsPoint>, ts: int): nat {
    if points == [] then 0
    else CountUpTo(points[..|points| - 1], ts) + if points[|points| - 1].ts <= ts then 1 else 0
  }

  lemma {:induction false} CountIsStop(points: seq<TsPoint>, ts: int)
    requires InTimeOrder(points)
    ensures CountUpTo(points, ts) == Stop(points, ts)
  {
    if points == [] {
      StopIsUnique(points, 0, 0, ts);
    } else {
      var n := |points| - 1;
      var init := points[..n];
      CountIsStop(init, ts);
      if points[n].ts <= ts {
        StopIsUnique(init, 0, n, ts);
        StopIsUnique(points, 0, n + 1, ts);
      } else {
        var stop := Stop(init, ts);
        StopIsUnique(points, 0, stop, ts);
      }
    }
  }

  lemma {:induction false} LastValueAt(points: seq<TsPoint>)
    ensures LastValue(points).None? <==> forall i :: 0 <= i < |points| ==> points[i].value.None?
    ensures LastValue(points).Some? ==> exists i :: 0 <= i < |points| && points[i].value == LastValue(points)
                                         && forall j :: i < j < |points| ==> points[j].value.None?
  {
    if points != [] && points[|points| - 1].value.None? {
      LastValueAt(points[..|points| - 1]);
    }
  }

  /** No point with a value stands behind a later one; points without values may stand anywhere. */
  ghost predicate ValuedInOrder(points: seq<TsPoint>) {
    forall i, j :: 0 <= i < j < |points| && points[j].value.Some? ==> points[i].ts <= points[j].ts
  }

  /** Then the valued points up to `ts` are those before the stop. */
  lemma BeforeStop(points: seq<TsPoint>, i: int, ts: int)
    requires ValuedInOrder(points) && 0 <= i < |points| && points[i].value.Some?
    ensures points[i].ts <= ts <==> i < Stop(points, ts)
  {
    var stop := Stop(points, ts);
    assert stop < i ==> points[stop].ts <= points[i].ts;
  }

  lemma SweptIsNewest(points: seq<TsPoint>, ts: int) returns (i: int)
    requires ValuedInOrder(points)
    ensures Swept(points, ts).Some? ==> IsNewestAsOf(points, i, ts) && Swept(points, ts) == points[i].value
    ensures Swept(points, ts).None? ==> forall j :: 0 <= j < |points| && points[j].ts <= ts ==> points[j].value.None?
  {
    i := 0;
    var prefix := points[..Stop(points, ts)];
    LastValueAt(prefix);
    if Swept(points, ts).Some? {
      i :| 0 <= i < |prefix| && prefix[i].value == LastValue(prefix)
        && forall j :: i < j < |prefix| ==> prefix[j].value.None?;
      forall j | 0 <= j < |points| && points[j].ts <= ts && points[j].value.Some? ensures j <= i {
        BeforeStop(points, j, ts);
        assert prefix[j] == points[j];
      }
    } else {
      forall j | 0 <= j < |points| && points[j].ts <= ts ensures points[j].value.None? {
        if points[j].value.Some? {
          BeforeStop(points, j, ts);
        }
        assert j < |prefix| ==> prefix[j] == points[j];
      }
    }
  }

  lemma NewestIsUnique(points: seq<TsPoint>, i: int, k: int, ts: int)
    requires IsNewestAsOf(points, i, ts) && IsNewestAsOf(points, k, ts)
    ensures i == k
  {
    assert points[i].ts <= points[k].ts <= points[i].ts;
  }

  /** The sweep knows, at each time, the newest value at or before it, and nothing exactly when there is none. */
  lemma SweepIsAsOf(points: seq<TsPoint>, ts: int)
    requires ValuedInOrder(points)
    ensures forall i :: IsNewestAsOf(points, i, ts) ==> Swept(points, ts) == points[i].value
    ensures Swept(points, ts).None? <==> !exists i :: IsNewestAsOf(points, i, ts)
  {
    var newest := SweptIsNewest(points, ts);
    forall i | IsNewestAsOf(points, i, ts) ensures Swept(points, ts).Some? && i == newest {
      NewestIsUnique(points, i, newest, ts);
    }
  }

  // ---- Exactly when ----

  /** Of the first `n` points, the newest valued one at or before `ts`, if there is one. */
  lemma {:induction false} NewestExists(points: seq<TsPoint>, ts: int, j: nat) returns (k: nat)
    requires j < |points| && points[j].value.Some? && points[j].ts <= ts
    ensures IsNewestAsOf(points, k, ts)
    ensures points[j].ts < points[k].ts || (points[j].ts == points[k].ts && j <= k)
    decreases |points|
  {
    var n := |points| - 1;
    var init, last := points[..n], points[n];
    if j == n {
      if m :| 0 <= m < n && init[m].value.Some? && last.ts < init[m].ts <= ts {
        k := NewestExists(init, ts, m);
      } else {
        k := n;
      }
    } else {
      k := NewestExists(init, ts, j);
      if last.value.Some? && init[k].ts <= last.ts <= ts {
        k := n;
      }
    }
    assert forall i :: 0 <= i < n ==> init[i] == points[i];
  }

  /** At every time the newest valued point has been consumed. */
  ghost predicate ConsumesNewest(points: seq<TsPoint>) {
    forall ts, i :: IsNewestAsOf(points, i, ts) ==> i < Stop(points, ts)
  }

  lemma ConsumesNewestIff(points: seq<TsPoint>)
    ensures ConsumesNewest(points) <==> ValuedInOrder(points)
  {
    if ValuedInOrder(points) {
      forall ts, i | IsNewestAsOf(points, i, ts) ensures i < Stop(points, ts) {
        BeforeStop(points, i, ts);
      }
    } else {
      var i, j :| 0 <= i < j < |points| && points[j].value.Some? && points[i].ts > points[j].ts;
      var k := NewestExists(points, points[j].ts, j);
      assert IsNewestAsOf(points, k, points[j].ts) && Stop(points, points[j].ts) <= i;
    }
  }

  /** A point of time 3 behind one of time 5: unknown at 4, and at 5 it hides the newer value. */
  lemma LaterPointFirst()
    ensures var points := [TsPoint(5, Some(1.0)), TsPoint(3, Some(2.0))];
            && IsNewestAsOf(points, 1, 4) && Swept(points, 4) == None
            && IsNewestAsOf(points, 0, 5) && Swept(points, 5) == Some(2.0)
  {
    var points := [TsPoint(5, Some(1.0)), TsPoint(3, Some(2.0))];
    StopIsUnique(points, 0, 0, 4);
    StopIsUnique(points, 0, 2, 5);
    assert points[..2] == points;
  }

  lemma {:induction false} CountBeyond(points: seq<TsPoint>, ts: int, stop: nat, j: nat)
    requires stop <= j < |points| && points[j].ts <= ts
    requires forall i :: 0 <= i < stop ==> points[i].ts <= ts
    ensures CountUpTo(points, ts) > stop
    decreases |points|
  {
    var init := points[..|points| - 1];
    if j < |points| - 1 {
      CountBeyond(init, ts, stop, j);
    } else {
      CountAtLeast(init, ts, stop);
    }
  }

  lemma {:induction false} CountAtLeast(points: seq<TsPoint>, ts: int, stop: nat)
    requires stop <= |points| && forall i :: 0 <= i < stop ==> points[i].ts <= ts
    ensures CountUpTo(points, ts) >= stop
  {
    if points != [] {
      CountAtLeast(points[..|points| - 1], ts, if stop == |points| then stop - 1 else stop);
    }
  }

  /** The iterator counts the points up to each time. */
  ghost predicate IteratorCounts(points: seq<TsPoint>) {
    forall ts :: CountUpTo(points, ts) == Stop(points, ts)
  }

  lemma IteratorCountsIff(points: seq<TsPoint>)
    ensures IteratorCounts(points) <==> InTimeOrder(points)
  {
    if InTimeOrder(points) {
      forall ts ensures CountUpTo(points, ts) == Stop(points, ts) {
        CountIsStop(points, ts);
      }
    } else {
      var i, j :| 0 <= i < j < |points| && points[i].ts > points[j].ts;
      var stop := Stop(points, points[j].ts);
      assert stop <= i;
      CountBeyond(points, points[j].ts, stop, j);
    }
  }

  ghost predicate InOrderWithin(joined: seq<TsPoint>, times: seq<int>) {
    && (forall i :: 0 <= i < |joined| ==> joined[i].ts in times)
    && forall i, j :: 0 <= i < j < |joined| ==> joined[i].ts < joined[j].ts
  }

  lemma AppendInOrder(init: seq<TsPoint>, times: seq<int>, last: seq<TsPoint>)
    requires times != [] && Increasing(times) && InOrderWithin(init, times[..|times| - 1])
    requires |last| <= 1 && forall p :: p in last ==> p.ts == times[|times| - 1]
    ensures InOrderWithin(init + last, times)
  {
    forall i | 0 <= i < |init| ensures init[i].ts in times && init[i].ts < times[|times| - 1] {
      assert init[i].ts in times[..|times| - 1];
    }
  }

  /** Joined points come in increasing time order, at times of the series only. */
  lemma {:induction false} JoinedInOrder(history: History, keyList: seq<string>, formula: Formula, times: seq<int>)
    requires Increasing(times)
    ensures InOrderWithin(Joined(history, keyList, formula, times), times)
  {
    if times != [] {
      var n := |times| - 1;
      JoinedInOrder(history, keyList, formula, times[..n]);
      AppendInOrder(Joined(history, keyList, formula, times[..n]), times,
                    JoinedAt(history, keyList, formula, times[n]));
    }
  }
}
