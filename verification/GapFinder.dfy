/** Finding and filling the gaps of a precalculated consumption series. */
module GapFinder {
  import opened Ordering
  import opened TimeSeries

  const DAY_MS := 86_400_000

  // ---- Gaps ----

  datatype Gap = Gap(start: int, end: int) {
    predicate Holds(t: int) { start <= t <= end }
  }

  /** More than one and a half intervals. */
  predicate IsWide(distance: int, interval: int) {
    2 * distance > 3 * interval
  }

  ghost predicate InOrder(gaps: seq<Gap>) {
    && (forall i :: 0 <= i < |gaps| ==> gaps[i].start <= gaps[i].end)
    && forall i, j :: 0 <= i < j < |gaps| ==> gaps[i].end < gaps[j].start
  }

  ghost predicate NoPointInside(gaps: seq<Gap>, points: seq<TsPoint>) {
    forall g, p :: g in gaps && p in points ==> !g.Holds(p.ts)
  }

  ghost predicate Within(gaps: seq<Gap>, first: int, last: int) {
    forall g :: g in gaps ==> first <= g.start && g.end <= last
  }

  /** In a gap, or within one and a half intervals of a point. */
  ghost predicate Covered(gaps: seq<Gap>, points: seq<TsPoint>, interval: int, t: int) {
    || (exists g :: g in gaps && g.Holds(t))
    || (exists p :: p in points && 2 * (t - p.ts) <= 3 * interval && 2 * (p.ts - t) <= 3 * interval)
  }

  ghost predicate CoveredUpTo(gaps: seq<Gap>, points: seq<TsPoint>, interval: int, first: int, last: int) {
    forall t :: first <= t <= last ==> Covered(gaps, points, interval, t)
  }

  ghost predicate PointsWithin(points: seq<TsPoint>, first: int, last: int) {
    forall p :: p in points ==> first <= p.ts <= last
  }

  /** What is known once the points before index `n` are handled. */
  ghost predicate Handled(gaps: seq<Gap>, points: seq<TsPoint>, n: nat, interval: int, startTs: int) {
    && 0 < n <= |points| && startTs <= points[n - 1].ts
    && InOrder(gaps) && NoPointInside(gaps, points)
    && Within(gaps, startTs, points[n - 1].ts - 1)
    && CoveredUpTo(gaps, points, interval, startTs, points[n - 1].ts)
  }

  lemma AppendGap(gaps: seq<Gap>, points: seq<TsPoint>, n: nat, interval: int, startTs: int, gap: Gap)
    requires Handled(gaps, points, n, interval, startTs)
    requires points[n - 1].ts < gap.start <= gap.end
    requires forall p :: p in points ==> !gap.Holds(p.ts)
    ensures InOrder(gaps + [gap]) && NoPointInside(gaps + [gap], points)
    ensures CoveredUpTo(gaps + [gap], points, interval, startTs, points[n - 1].ts)
  {
    var all := gaps + [gap];
    forall i, j | 0 <= i < j < |all| ensures all[i].end < all[j].start {
      assert gaps[i] in gaps;
    }
    forall t | startTs <= t <= points[n - 1].ts ensures Covered(all, points, interval, t) {
      assert Covered(gaps, points, interval, t);
      if g :| g in gaps && g.Holds(t) {
        assert g in all;
      }
    }
  }

  ghost predicate InGap(gaps: seq<Gap>, t: int) {
    exists g :: g in gaps && g.Holds(t)
  }

  /** Data is missing before the first point. */
  predicate MissingFront(points: seq<TsPoint>, startTs: int, interval: int, t: int) {
    points != [] && startTs <= t < points[0].ts && 2 * (points[0].ts - startTs) > 3 * interval
  }

  /** Data is missing between two neighbours; a consumption value stands for the interval from its time on. */
  predicate MissingBetween(points: seq<TsPoint>, i: int, interval: int, isConsumption: bool, t: int) {
    && 0 < i < |points|
    && points[i - 1].ts < t < points[i].ts && 2 * (points[i].ts - points[i - 1].ts) > 3 * interval
    && (isConsumption ==> points[i - 1].ts + interval <= t)
  }

  /** Data is missing behind the last point. */
  predicate MissingBack(points: seq<TsPoint>, targetEnd: int, interval: int, isConsumption: bool, t: int) {
    points != [] && (
      var last := points[|points| - 1].ts;
      if isConsumption then last + interval <= t <= targetEnd && last + interval < targetEnd
      else last < t <= targetEnd && 2 * (targetEnd - last) > 3 * interval)
  }

  ghost predicate MissingBefore(points: seq<TsPoint>, n: nat, startTs: int, interval: int, isConsumption: bool,
                                t: int) {
    || MissingFront(points, startTs, interval, t)
    || exists i :: i < n && MissingBetween(points, i, interval, isConsumption, t)
  }

  /** The gaps hold exactly the instants missing before the `n`th point. */
  ghost predicate Exact(gaps: seq<Gap>, points: seq<TsPoint>, n: nat, startTs: int, interval: int,
                        isConsumption: bool) {
    forall t :: InGap(gaps, t) <==> MissingBefore(points, n, startTs, interval, isConsumption, t)
  }

  lemma InGapAppend(gaps: seq<Gap>, added: seq<Gap>, t: int)
    ensures InGap(gaps + added, t) <==> InGap(gaps, t) || InGap(added, t)
  {
    if g :| g in gaps + added && g.Holds(t) {
      assert g in gaps || g in added;
    }
    if g :| g in gaps && g.Holds(t) {
      assert g in gaps + added;
    }
    if g :| g in added && g.Holds(t) {
      assert g in gaps + added;
    }
  }

  lemma ExactNext(gaps: seq<Gap>, added: seq<Gap>, points: seq<TsPoint>, n: nat, startTs: int, interval: int,
                  isConsumption: bool)
    requires Exact(gaps, points, n, startTs, interval, isConsumption) && 0 < n < |points|
    requires added == if IsWide(points[n].ts - points[n - 1].ts, interval)
                      then [Gap(if isConsumption then points[n - 1].ts + interval
                          else points[n - 1].ts + 1, points[n].ts - 1)]
                      else []
    requires interval > 0
    ensures Exact(gaps + added, points, n + 1, startTs, interval, isConsumption)
  {
    forall t ensures InGap(gaps + added, t) <==> MissingBefore(points, n + 1, startTs, interval, isConsumption, t) {
      InGapAppend(gaps, added, t);
      assert InGap(added, t) <==> MissingBetween(points, n, interval, isConsumption, t) by {
        if added != [] {
          assert added[0] in added;
        }
      }
    }
  }

  lemma CoverageGrows(gaps: seq<Gap>, more: seq<Gap>, points: seq<TsPoint>, interval: int, t: int)
    requires Covered(gaps, points, interval, t)
    ensures Covered(gaps + more, points, interval, t)
  {
    if g :| g in gaps && g.Holds(t) {
      assert g in gaps + more;
    }
  }

  /** From one point to a later instant, either not wide or with a gap that begins within an interval of the point. */
  lemma CoverageReaches(gaps: seq<Gap>, points: seq<TsPoint>, n: nat, interval: int, last: int, t: int)
    requires 0 < n <= |points| && interval > 0 && points[n - 1].ts < t <= last
    requires !IsWide(last - points[n - 1].ts, interval)
             || (gaps != [] && gaps[|gaps| - 1].start <= points[n - 1].ts + interval && gaps[|gaps| - 1].end >= last)
    ensures Covered(gaps, points, interval, t)
  {
    assert points[n - 1] in points;
    if IsWide(t - points[n - 1].ts, interval) {
      assert gaps[|gaps| - 1] in gaps && gaps[|gaps| - 1].Holds(t);
    }
  }

  lemma NextPoint(gaps: seq<Gap>, added: seq<Gap>, points: seq<TsPoint>, n: nat, interval: int, startTs: int)
    requires Handled(gaps, points, n, interval, startTs) && n < |points| && InTimeOrder(points) && interval > 0
    requires if IsWide(points[n].ts - points[n - 1].ts, interval)
             then |added| == 1 && points[n - 1].ts < added[0].start <= points[n - 1].ts + interval
                 && added[0].end == points[n].ts - 1
             else added == []
    ensures Handled(gaps + added, points, n + 1, interval, startTs)
  {
    if added != [] {
      assert added == [added[0]];
      AppendGap(gaps, points, n, interval, startTs, added[0]);
    } else {
      assert gaps + added == gaps;
    }
    NextPointCovered(gaps, added, points, n, interval, startTs);
  }

  lemma NextPointCovered(gaps: seq<Gap>, added: seq<Gap>, points: seq<TsPoint>, n: nat, interval: int, startTs: int)
    requires 0 < n < |points| && interval > 0
    requires CoveredUpTo(gaps, points, interval, startTs, points[n - 1].ts)
    requires if IsWide(points[n].ts - points[n - 1].ts, interval)
             then |added| == 1 && added[0].start <= points[n - 1].ts + interval && added[0].end == points[n].ts - 1
             else added == []
    ensures CoveredUpTo(gaps + added, points, interval, startTs, points[n].ts)
  {
    forall t | startTs <= t <= points[n].ts ensures Covered(gaps + added, points, interval, t) {
      if t <= points[n - 1].ts {
        CoverageGrows(gaps, added, points, interval, t);
      } else if t < points[n].ts {
        CoverageReaches(gaps + added, points, n, interval, points[n].ts - 1, t);
      } else {
        assert points[n] in points;
      }
    }
  }

  /** The gaps of a sorted series in the queried range, up to now. */
  method FindGaps(points: seq<TsPoint>, startTs: int, endTs: int, now: int, interval: int, isConsumption: bool)
    returns (gaps: seq<Gap>)
    requires startTs <= endTs && interval > 0
    requires InTimeOrder(points) && PointsWithin(points, startTs, endTs)
    ensures InOrder(gaps) && NoPointInside(gaps, points) && Within(gaps, startTs, endTs)
    ensures CoveredUpTo(gaps, points, interval, startTs, Smaller(endTs, now))
    ensures forall t :: points != [] ==>
              (InGap(gaps, t) <==>
                || MissingBefore(points, |points|, startTs, interval, isConsumption, t)
                || MissingBack(points, Smaller(endTs, now), interval, isConsumption, t))
    ensures points == [] ==> gaps == [Gap(startTs, endTs)]
  {
    gaps := [];
    if |points| == 0 {
      gaps := [Gap(startTs, endTs)];
      assert gaps[0] in gaps;
      return;
    }
    if IsWide(points[0].ts - startTs, interval) {
      gaps := gaps + [Gap(startTs, points[0].ts - 1)];
    }
    FirstPoint(gaps, points, interval, startTs);
    for i := 1 to |points|
      invariant Handled(gaps, points, i, interval, startTs)
      invariant Exact(gaps, points, i, startTs, interval, isConsumption)
    {
      ghost var before := gaps;
      if IsWide(points[i].ts - points[i - 1].ts, interval) {
        var gapStart := if isConsumption then points[i - 1].ts + interval else points[i - 1].ts + 1;
        gaps := gaps + [Gap(gapStart, points[i].ts - 1)];
        NextPoint(before, [Gap(gapStart, points[i].ts - 1)], points, i, interval, startTs);
        ExactNext(before, [Gap(gapStart, points[i].ts - 1)], points, i, startTs, interval, isConsumption);
      } else {
        NextPoint(before, [], points, i, interval, startTs);
        ExactNext(before, [], points, i, startTs, interval, isConsumption);
        assert before + [] == gaps;
      }
    }
    gaps := CloseGaps(gaps, points, startTs, Smaller(endTs, now), endTs, interval, isConsumption);
  }

  lemma FirstPoint(gaps: seq<Gap>, points: seq<TsPoint>, interval: int, startTs: int)
    requires points != [] && InTimeOrder(points) && startTs <= points[0].ts
    requires gaps == if IsWide(points[0].ts - startTs, interval) then [Gap(startTs, points[0].ts - 1)] else []
    requires interval > 0
    ensures Handled(gaps, points, 1, interval, startTs)
    ensures forall isConsumption :: Exact(gaps, points, 1, startTs, interval, isConsumption)
  {
    forall t ensures InGap(gaps, t) <==> MissingFront(points, startTs, interval, t) {
      if MissingFront(points, startTs, interval, t) {
        assert gaps[0] in gaps && gaps[0].Holds(t);
      }
    }
    forall t | startTs <= t <= points[0].ts ensures Covered(gaps, points, interval, t) {
      assert points[0] in points;
      if gaps != [] && t < points[0].ts {
        assert gaps[0] in gaps && gaps[0].Holds(t);
      }
    }
  }

  /** The gap behind the last point. */
  method CloseGaps(before: seq<Gap>, points: seq<TsPoint>, startTs: int, targetEnd: int, endTs: int, interval: int,
                   isConsumption: bool)
    returns (gaps: seq<Gap>)
    requires interval > 0 && InTimeOrder(points) && targetEnd <= endTs && PointsWithin(points, startTs, endTs)
    requires Handled(before, points, |points|, interval, startTs)
    ensures InOrder(gaps) && NoPointInside(gaps, points) && Within(gaps, startTs, endTs)
    ensures CoveredUpTo(gaps, points, interval, startTs, targetEnd)
    ensures forall t ::
              InGap(gaps, t) <==> InGap(before, t) || MissingBack(points, targetEnd, interval, isConsumption, t)
  {
    gaps := before;
    ghost var added := [];
    var last := points[|points| - 1].ts;
    assert points[|points| - 1] in points;
    if isConsumption {
      if targetEnd > last + interval {
        gaps := gaps + [Gap(last + interval, targetEnd)];
        added := [Gap(last + interval, targetEnd)];
        AppendGap(before, points, |points|, interval, startTs, Gap(last + interval, targetEnd));
      }
    } else if IsWide(targetEnd - last, interval) {
      gaps := gaps + [Gap(last + 1, targetEnd)];
      added := [Gap(last + 1, targetEnd)];
      AppendGap(before, points, |points|, interval, startTs, Gap(last + 1, targetEnd));
    }
    assert gaps == before + added;
    forall t | startTs <= t <= targetEnd ensures Covered(gaps, points, interval, t) {
      if t > last {
        CoverageReaches(gaps, points, |points|, interval, targetEnd, t);
      } else {
        CoverageGrows(before, added, points, interval, t);
      }
    }
    forall t
      ensures InGap(gaps, t) <==> InGap(before, t) || MissingBack(points, targetEnd, interval, isConsumption, t)
    {
      InGapAppend(before, added, t);
      if added != [] {
        assert added[0] in added;
      }
    }
  }

  // ---- Filling ----

  ghost predicate DistinctTimes(points: seq<TsPoint>) {
    forall i, j :: 0 <= i < j < |points| ==> points[i].ts != points[j].ts
  }

  /** The points calculated for one gap lie inside it, each at its own time. */
  ghost predicate Fits(calculated: seq<TsPoint>, gap: Gap) {
    DistinctTimes(calculated) && forall p :: p in calculated ==> gap.Holds(p.ts)
  }

  lemma AppendDistinct(points: seq<TsPoint>, more: seq<TsPoint>)
    requires DistinctTimes(points) && DistinctTimes(more)
    requires forall p, q :: p in points && q in more ==> p.ts != q.ts
    ensures DistinctTimes(points + more)
  {
    var all := points + more;
    forall i, j | 0 <= i < j < |all| ensures all[i].ts != all[j].ts {
      assert i < |points| ==> all[i] in points;
      assert j >= |points| ==> all[j] in more;
    }
  }

  /** Sorting points at distinct times puts the times in strictly increasing order. */
  lemma SortedIncreasing(points: seq<TsPoint>, sorted: seq<TsPoint>)
    requires DistinctTimes(points) && multiset(sorted) == multiset(points)
    requires SortedBy(sorted, (p: TsPoint) => p.ts)
    ensures forall i, j :: 0 <= i < j < |sorted| ==> sorted[i].ts < sorted[j].ts
  {
    assert Distinct(points);
    DistinctPermutation(points, sorted);
    var key := (p: TsPoint) => p.ts;
    forall i, j | 0 <= i < j < |sorted| ensures sorted[i].ts < sorted[j].ts {
      assert key(sorted[i]) <= key(sorted[j]);
      assert sorted[i] in multiset(points) && sorted[j] in multiset(points);
      var a :| 0 <= a < |points| && points[a] == sorted[i];
      var b :| 0 <= b < |points| && points[b] == sorted[j];
      assert a != b;
    }
  }

  predicate MayPersist(p: TsPoint, isConsumption: bool, interval: int, now: int) {
    p.value.Some? && (!isConsumption || p.ts + interval <= now)
  }

  ghost predicate InSomeGap(points: seq<TsPoint>, gaps: seq<Gap>) {
    forall p :: p in points ==> exists g :: g in gaps && g.Holds(p.ts)
  }

  /** Calculates every gap in turn, and inserts what is complete. */
  method CalculateGaps(gaps: seq<Gap>, calculated: seq<seq<TsPoint>>, isConsumption: bool, interval: int, now: int)
    returns (allCalculated: seq<TsPoint>, inserted: seq<TsPoint>)
    requires |calculated| == |gaps| && forall i :: 0 <= i < |gaps| ==> Fits(calculated[i], gaps[i])
    requires InOrder(gaps)
    ensures allCalculated == Flattened(calculated) && DistinctTimes(allCalculated) && InSomeGap(allCalculated, gaps)
    ensures inserted == Persistable(allCalculated, isConsumption, interval, now)
  {
    allCalculated, inserted := [], [];
    for i := 0 to |gaps|
      invariant allCalculated == Flattened(calculated[..i])
      invariant DistinctTimes(allCalculated) && InSomeGap(allCalculated, gaps[..i])
      invariant inserted == Persistable(allCalculated, isConsumption, interval, now)
    {
      assert calculated[..i + 1][..i] == calculated[..i];
      OneMoreGap(gaps, i, allCalculated, calculated[i]);
      PersistableAppend(allCalculated, calculated[i], isConsumption, interval, now);
      allCalculated := allCalculated + calculated[i];
      inserted := inserted + Persistable(calculated[i], isConsumption, interval, now);
    }
    assert calculated[..|gaps|] == calculated && gaps[..|gaps|] == gaps;
  }

  lemma OneMoreGap(gaps: seq<Gap>, i: nat, earlier: seq<TsPoint>, calculated: seq<TsPoint>)
    requires i < |gaps| && InOrder(gaps) && Fits(calculated, gaps[i])
    requires DistinctTimes(earlier) && InSomeGap(earlier, gaps[..i])
    ensures DistinctTimes(earlier + calculated) && InSomeGap(earlier + calculated, gaps[..i + 1])
  {
    GapsApart(gaps, i, earlier, calculated);
    AppendDistinct(earlier, calculated);
    forall p | p in earlier + calculated ensures exists g :: g in gaps[..i + 1] && g.Holds(p.ts) {
      if p in earlier {
        var g :| g in gaps[..i] && g.Holds(p.ts);
        assert g in gaps[..i + 1];
      } else {
        assert gaps[i] in gaps[..i + 1] && gaps[i].Holds(p.ts);
      }
    }
  }

  /** Points in the gaps are at none of the existing times. */
  lemma GapsAvoidPoints(existing: seq<TsPoint>, gaps: seq<Gap>, filled: seq<TsPoint>)
    requires NoPointInside(gaps, existing) && InSomeGap(filled, gaps)
    ensures forall p, q :: p in existing && q in filled ==> p.ts != q.ts
  {
    forall p, q | p in existing && q in filled ensures p.ts != q.ts {
      var g :| g in gaps && g.Holds(q.ts);
      assert !g.Holds(p.ts);
    }
  }

  /** Fills the gaps: the result is in strictly increasing time order, and nothing existing is overwritten. */
  method FillGaps(existing: seq<TsPoint>, gaps: seq<Gap>, calculated: seq<seq<TsPoint>>, isConsumption: bool,
                  interval: int, now: int)
    returns (result: seq<TsPoint>, inserted: seq<TsPoint>)
    requires |calculated| == |gaps| && forall i :: 0 <= i < |gaps| ==> Fits(calculated[i], gaps[i])
    requires InOrder(gaps) && NoPointInside(gaps, existing) && DistinctTimes(existing)
    ensures forall i, j :: 0 <= i < j < |result| ==> result[i].ts < result[j].ts
    ensures multiset(result) == multiset(existing + Flattened(calculated))
    ensures DistinctTimes(inserted)
    ensures forall p :: p in inserted <==>
      p in Flattened(calculated) && p.value.Some? && (isConsumption ==> p.ts + interval <= now)
    ensures forall p, q :: p in existing && q in inserted ==> p.ts != q.ts
  {
    var allCalculated;
    allCalculated, inserted := CalculateGaps(gaps, calculated, isConsumption, interval, now);
    GapsAvoidPoints(existing, gaps, allCalculated);
    AppendDistinct(existing, allCalculated);
    result := StableSort(existing + allCalculated, (p: TsPoint) => p.ts);
    SortedIncreasing(existing + allCalculated, result);
    PersistableDistinct(allCalculated, isConsumption, interval, now);
  }

  /** The points of the last week of a gap, if it reaches into that week. */
  function RecentOf(last: Gap, endTs: int, recent: seq<TsPoint>): seq<TsPoint> {
    if last.start < last.end && endTs - 7 * 24 * 60 * 60 * 1000 < last.end then recent else []
  }

  /** With much to fill, only the last week of the last gap is calculated at once. */
  method FillRecent(existing: seq<TsPoint>, gaps: seq<Gap>, endTs: int, recent: seq<TsPoint>)
    returns (result: seq<TsPoint>)
    requires gaps != [] && InOrder(gaps) && NoPointInside(gaps, existing) && DistinctTimes(existing)
    requires Fits(recent, Gap(Larger(gaps[|gaps| - 1].start, endTs - 7 * DAY_MS), gaps[|gaps| - 1].end))
    ensures forall i, j :: 0 <= i < j < |result| ==> result[i].ts < result[j].ts
    ensures multiset(result) == multiset(existing + RecentOf(gaps[|gaps| - 1], endTs, recent))
  {
    var lastGap := gaps[|gaps| - 1];
    var recentStart := Larger(lastGap.start, endTs - 7 * DAY_MS);
    var all := existing;
    if recentStart < lastGap.end {
      all := existing + recent;
      forall p | p in recent ensures lastGap in gaps && lastGap.Holds(p.ts) {
      }
      GapsAvoidPoints(existing, gaps, recent);
      AppendDistinct(existing, recent);
      assert multiset(all) == multiset(existing) + multiset(recent);
    }
    result := StableSort(all, (p: TsPoint) => p.ts);
    SortedIncreasing(all, result);
  }

  function Flattened(lists: seq<seq<TsPoint>>): seq<TsPoint> {
    if lists == [] then [] else Flattened(lists[..|lists| - 1]) + lists[|lists| - 1]
  }

  lemma GapsApart(gaps: seq<Gap>, i: nat, earlier: seq<TsPoint>, calculated: seq<TsPoint>)
    requires i < |gaps| && InOrder(gaps) && Fits(calculated, gaps[i])
    requires forall p :: p in earlier ==> exists g :: g in gaps[..i] && g.Holds(p.ts)
    ensures forall p, q :: p in earlier && q in calculated ==> p.ts != q.ts
  {
    forall p, q | p in earlier && q in calculated ensures p.ts != q.ts {
      var g :| g in gaps[..i] && g.Holds(p.ts);
      var k :| 0 <= k < i && gaps[..i][k] == g;
      assert gaps[k].end < gaps[i].start;
    }
  }

  /** The points that are inserted into the store. */
  function Persistable(points: seq<TsPoint>, isConsumption: bool, interval: int, now: int): seq<TsPoint> {
    if points == [] then []
    else
      var last := points[|points| - 1];
      Persistable(points[..|points| - 1], isConsumption, interval, now)
          + if MayPersist(last, isConsumption, interval, now) then [last] else []
  }

  lemma {:induction false} PersistableAppend(points: seq<TsPoint>, more: seq<TsPoint>, isConsumption: bool,
                                             interval: int, now: int)
    ensures Persistable(points + more, isConsumption, interval, now)
         == Persistable(points, isConsumption, interval, now) + Persistable(more, isConsumption, interval, now)
  {
    if more == [] {
      assert points + more == points;
    } else {
      var init := more[..|more| - 1];
      PersistableAppend(points, init, isConsumption, interval, now);
      assert (points + more)[..|points + more| - 1] == points + init;
    }
  }

  lemma {:induction false} PersistableDistinct(points: seq<TsPoint>, isConsumption: bool, interval: int, now: int)
    requires DistinctTimes(points)
    ensures var kept := Persistable(points, isConsumption, interval, now);
            DistinctTimes(kept) && forall p :: p in kept <==> p in points && MayPersist(p, isConsumption, interval, now)
  {
    if points != [] {
      var init, last := points[..|points| - 1], points[|points| - 1];
      PersistableDistinct(init, isConsumption, interval, now);
      assert points == init + [last];
      assert forall p :: p in init ==> p.ts != last.ts;
      AppendDistinct(Persistable(init, isConsumption, interval, now),
          if MayPersist(last, isConsumption, interval, now) then [last] else []);
    }
  }
}
