/** Two rings of log entries, one for debug messages and one for the rest, read together. */
module LogBuffers {
  import opened Wrappers
  import opened Ordering

  datatype LogSeverity = Debug | Info | Warning | Error

  datatype LogEntry = LogEntry(timestamp: int, severity: LogSeverity, message: string, source: string)

  const DEFAULT_CAPACITY := 5000
  const DEFAULT_COUNT := 200

  /** The last `n` of `s`, or all of it. */
  function Recent<T>(s: seq<T>, n: nat): (r: seq<T>)
    ensures |r| == Smaller(n, |s|)
  {
    if |s| <= n then s else s[|s| - n..]
  }

  // ---- Circular positions ----

  lemma Multiple(d: int, n: int)
    requires 0 < n
    ensures d >= 1 ==> d * n >= n
    ensures d <= -1 ==> d * n <= -n
  {
  }

  lemma ModFrom(x: int, q: int, r: int, n: int)
    requires 0 < n && 0 <= r < n && x == q * n + r
    ensures x % n == r && x / n == q
  {
    Multiple(x / n - q, n);
    assert (x / n - q) * n == r - x % n;
  }

  lemma ModSum(x: int, k: int, n: int)
    requires 0 < n
    ensures (x % n + k) % n == (x + k) % n
  {
    var y := x % n + k;
    assert x == x / n * n + x % n;
    ModFrom(x + k, x / n + y / n, y % n, n);
  }

  /** Within less than a turn, different positions stay different. */
  lemma ModApart(i: int, j: int, n: int)
    requires 0 < n && i < j < i + n
    ensures i % n != j % n
  {
    Multiple(j / n - i / n, n);
    assert (j / n - i / n) * n == j - i - (j % n - i % n);
  }

  lemma SlotFrom(x: int, k: int, i: int, n: int, q0: int, r0: int, q1: int, r1: int, q2: int, r2: int)
    requires 0 < n && 0 <= r2 < n
    requires x == q0 * n + r0 && r0 - k + n == q1 * n + r1 && r1 + i == q2 * n + r2
    ensures (x - k + i) % n == r2
  {
    assert (q0 + q1 - 1 + q2) * n == q0 * n + q1 * n - n + q2 * n;
    ModFrom(x - k + i, q0 + q1 - 1 + q2, r2, n);
  }

  lemma Divided(x: int, n: int) returns (q: int, r: int)
    requires 0 < n
    ensures q == x / n && r == x % n && 0 <= r < n && x == q * n + r
  {
    q, r := x / n, x % n;
  }

  /** The position `i` further on than `k` slots before the head. */
  lemma SlotPosition(x: int, k: int, i: int, n: int, start: int, slot: int)
    requires 0 < n && start == (x % n - k + n) % n && slot == (start + i) % n
    ensures slot == (x - k + i) % n
  {
    var q0, r0 := Divided(x, n);
    var q1, r1 := Divided(r0 - k + n, n);
    var q2, r2 := Divided(r1 + i, n);
    SlotFrom(x, k, i, n, q0, r0, q1, r1, q2, r2);
  }

  /** The ring holds the last entries of `added`: entry number `j` lies at `j % capacity`. */
  ghost predicate RingHolds(ring: seq<LogEntry>, head: int, count: int, added: seq<LogEntry>) {
    && |ring| > 0
    && head == |added| % |ring|
    && count == Smaller(|added|, |ring|)
    && forall j :: 0 <= j < |added| && |added| - |ring| <= j ==> ring[j % |ring|] == added[j]
  }

  lemma RingAdd(ring: seq<LogEntry>, head: nat, count: nat, added: seq<LogEntry>, e: LogEntry)
    requires RingHolds(ring, head, count, added)
    ensures RingHolds(ring[head := e], (head + 1) % |ring|, if count < |ring| then count + 1 else count, added + [e])
  {
    var n := |ring|;
    ModSum(|added|, 1, n);
    forall j | 0 <= j < |added| + 1 && |added| + 1 - n <= j ensures ring[head := e][j % n] == (added + [e])[j] {
      if j < |added| {
        ModApart(j, |added|, n);
      }
    }
  }

  /** What the slot holds that is read `i` further on than `k` slots before the head. */
  lemma RingSlot(ring: seq<LogEntry>, head: int, count: int, added: seq<LogEntry>, k: int, i: int, start: int,
                 slot: int)
    requires RingHolds(ring, head, count, added) && 0 <= i < k <= count
    requires start == (head - k + |ring|) % |ring| && slot == (start + i) % |ring|
    ensures ring[slot] == added[|added| - k + i]
  {
    SlotPosition(|added|, k, i, |ring|, start, slot);
  }

  // ---- The newest of two classes ----

  ghost predicate Chronological(s: seq<LogEntry>) {
    forall i, j :: 0 <= i < j < |s| ==> s[i].timestamp <= s[j].timestamp
  }

  /** `top` lists `n` newest entries of `all` (all of them if fewer), oldest first. */
  ghost predicate IsNewest(top: seq<LogEntry>, all: seq<LogEntry>, n: nat) {
    && Chronological(top)
    && |top| == Smaller(n, |all|)
    && multiset(top) <= multiset(all)
    && forall left, e :: left in multiset(all) - multiset(top) && e in top ==> left.timestamp <= e.timestamp
  }

  lemma SplitAt<T>(s: seq<T>, k: nat)
    requires k <= |s|
    ensures multiset(s) == multiset(s[..k]) + multiset(s[k..])
  {
    assert s == s[..k] + s[k..];
  }

  lemma EqualMultisets<T>(a: multiset<T>, b: multiset<T>)
    requires a <= b && |a| == |b|
    ensures a == b
  {
    assert b == a + (b - a);
    assert |b - a| == 0;
  }

  lemma FrontIsOlder(sorted: seq<LogEntry>, k: nat, left: LogEntry, e: LogEntry)
    requires Chronological(sorted) && k <= |sorted| && left in sorted[..k] && e in sorted[k..]
    ensures left.timestamp <= e.timestamp
  {
    var i :| 0 <= i < k && sorted[..k][i] == left;
    var j :| 0 <= j < |sorted| - k && sorted[k..][j] == e;
    assert sorted[i].timestamp <= sorted[k + j].timestamp;
  }

  /** Cutting the front off a sorted list leaves its newest entries. */
  lemma TailIsNewest(sorted: seq<LogEntry>, all: seq<LogEntry>, n: nat)
    requires Chronological(sorted) && multiset(sorted) == multiset(all)
    ensures IsNewest(Recent(sorted, n), all, n)
  {
    var top := Recent(sorted, n);
    var k := |sorted| - |top|;
    assert |sorted| == |multiset(sorted)| == |multiset(all)| == |all|;
    SplitAt(sorted, k);
    assert top == sorted[k..];
    assert multiset(all) - multiset(top) == multiset(sorted[..k]);
    forall left, e | left in multiset(all) - multiset(top) && e in top ensures left.timestamp <= e.timestamp {
      FrontIsOlder(sorted, k, left, e);
    }
  }

  /** An entry cut from the front of one class is no newer than what was taken. */
  lemma CutIsOlder(s: seq<LogEntry>, n: nat, rest: multiset<LogEntry>, top: seq<LogEntry>, cut: LogEntry, e: LogEntry)
    requires Chronological(s) && |s| > n && |top| == n
    requires multiset(top) <= multiset(Recent(s, n)) + rest
    requires forall left, t :: left in multiset(Recent(s, n)) + rest - multiset(top) && t in top
               ==> left.timestamp <= t.timestamp
    requires cut in s[..|s| - n] && e in top
    ensures cut.timestamp <= e.timestamp
  {
    var recent := Recent(s, n);
    var i :| 0 <= i < |s| - n && s[..|s| - n][i] == cut;
    forall x | x in recent ensures cut.timestamp <= x.timestamp {
      var j :| 0 <= j < n && recent[j] == x;
      assert s[i].timestamp <= s[|s| - n + j].timestamp;
    }
    if multiset(recent) <= multiset(top) {
      EqualMultisets(multiset(recent), multiset(top));
      assert e in multiset(top);
      assert e in recent;
    } else {
      var x :| x in multiset(recent) && multiset(recent)[x] > multiset(top)[x];
      assert x in multiset(recent) + rest - multiset(top);
      assert x in recent;
    }
  }

  /** The older part of a class and its last entries. */
  lemma SplitRecent(s: seq<LogEntry>, n: nat)
    ensures multiset(s) == multiset(s[..|s| - |Recent(s, n)|]) + multiset(Recent(s, n))
  {
    var k := |s| - |Recent(s, n)|;
    SplitAt(s, k);
    assert s[k..] == Recent(s, n);
  }

  lemma TailsAreRetained(debug: seq<LogEntry>, important: seq<LogEntry>, n: nat)
    ensures multiset(Recent(debug, n) + Recent(important, n))
              == multiset(Recent(debug, n)) + multiset(Recent(important, n))
    ensures multiset(debug + important) == multiset(debug) + multiset(important)
    ensures multiset(Recent(debug, n) + Recent(important, n)) <= multiset(debug + important)
  {
    SplitRecent(debug, n);
    SplitRecent(important, n);
  }

  lemma LeftFromTails(debug: seq<LogEntry>, important: seq<LogEntry>, n: nat, top: seq<LogEntry>, left: LogEntry)
    requires left in multiset(debug + important) - multiset(top)
    requires left !in debug[..|debug| - |Recent(debug, n)|]
               && left !in important[..|important| - |Recent(important, n)|]
    ensures left in multiset(Recent(debug, n) + Recent(important, n)) - multiset(top)
  {
    TailsAreRetained(debug, important, n);
    SplitRecent(debug, n);
    SplitRecent(important, n);
    assert left !in multiset(debug[..|debug| - |Recent(debug, n)|]);
    assert left !in multiset(important[..|important| - |Recent(important, n)|]);
  }

  /** If each class is in time order, the newest of the two tails are the newest of everything retained. */
  lemma NewestOfTails(debug: seq<LogEntry>, important: seq<LogEntry>, n: nat, top: seq<LogEntry>)
    requires n > 0 && Chronological(debug) && Chronological(important)
    requires IsNewest(top, Recent(debug, n) + Recent(important, n), n)
    ensures IsNewest(top, debug + important, n)
  {
    var d, i := Recent(debug, n), Recent(important, n);
    TailsAreRetained(debug, important, n);
    assert multiset(d + i) == multiset(d) + multiset(i) == multiset(i) + multiset(d);
    forall left, e | left in multiset(debug + important) - multiset(top) && e in top
        ensures left.timestamp <= e.timestamp {
      if left in debug[..|debug| - |d|] {
        CutIsOlder(debug, n, multiset(i), top, left, e);
      } else if left in important[..|important| - |i|] {
        CutIsOlder(important, n, multiset(d), top, left, e);
      } else {
        LeftFromTails(debug, important, n, top, left);
      }
    }
  }

  /** An entry that is newer than one of those taken behind it shows that these are not the newest. */
  lemma HidesNewer(s: seq<LogEntry>, i: nat, j: nat, top: seq<LogEntry>, n: nat)
    requires i < j < |s| && s[i].timestamp > s[j].timestamp
    requires multiset(top) == multiset(s[i + 1..])
    ensures !IsNewest(top, s, n)
  {
    SplitAt(s, i + 1);
    assert s[..i + 1][i] == s[i];
    assert s[i] in multiset(s) - multiset(top);
    assert s[i + 1..][j - i - 1] == s[j];
    assert s[j] in multiset(top);
    assert s[j] in top;
  }

  lemma AllIsNewest(top: seq<LogEntry>, all: seq<LogEntry>)
    requires Chronological(top) && multiset(top) == multiset(all)
    ensures IsNewest(top, all, |all|)
  {
    assert |top| == |multiset(top)| == |all|;
    assert multiset(all) - multiset(top) == multiset{};
  }

  /** Cut just behind an entry that is newer than a later one, a class hides it behind an older one. */
  lemma OutOfOrderHidesNewer(s: seq<LogEntry>) returns (n: nat, top: seq<LogEntry>)
    requires !Chronological(s)
    ensures n > 0 && IsNewest(top, Recent(s, n), n) && !IsNewest(top, s, n)
  {
    var i, j :| 0 <= i < j < |s| && s[i].timestamp > s[j].timestamp;
    n := |s| - i - 1;
    top := StableSort(s[i + 1..], (e: LogEntry) => e.timestamp);
    ChronologicalByTime(top);
    AllIsNewest(top, s[i + 1..]);
    HidesNewer(s, i, j, top, n);
  }

  lemma BesideNothing(top: seq<LogEntry>, s: seq<LogEntry>, n: nat)
    ensures IsNewest(top, s + [], n) <==> IsNewest(top, s, n)
  {
    assert s + [] == s;
  }

  lemma ChronologicalByTime(sorted: seq<LogEntry>)
    requires SortedBy(sorted, (e: LogEntry) => e.timestamp)
    ensures Chronological(sorted)
  {
    var time := (e: LogEntry) => e.timestamp;
    forall i, j | 0 <= i < j < |sorted| ensures sorted[i].timestamp <= sorted[j].timestamp {
      assert time(sorted[i]) <= time(sorted[j]);
    }
  }

  ghost predicate NewestBeside(debug: seq<LogEntry>, important: seq<LogEntry>, n: nat, top: seq<LogEntry>) {
    IsNewest(top, Recent(debug, n) + Recent(important, n), n) ==> IsNewest(top, debug + important, n)
  }

  /** Beside any ordered class, in whichever ring, the newest of the tails are always the newest of everything. */
  ghost predicate AlwaysNewest(s: seq<LogEntry>) {
    forall other, n: nat, top :: Chronological(other) && n > 0 ==>
      NewestBeside(s, other, n, top) && NewestBeside(other, s, n, top)
  }

  /** That is so exactly for a class in time order. */
  lemma AlwaysNewestIff(s: seq<LogEntry>)
    ensures AlwaysNewest(s) <==> Chronological(s)
  {
    if Chronological(s) {
      forall other, n: nat, top | Chronological(other) && n > 0
        ensures NewestBeside(s, other, n, top) && NewestBeside(other, s, n, top)
      {
        if IsNewest(top, Recent(s, n) + Recent(other, n), n) {
          NewestOfTails(s, other, n, top);
        }
        if IsNewest(top, Recent(other, n) + Recent(s, n), n) {
          NewestOfTails(other, s, n, top);
        }
      }
    } else {
      var n, top := OutOfOrderHidesNewer(s);
      BesideNothing(top, Recent(s, n), n);
      BesideNothing(top, s, n);
      assert Chronological([]) && Recent<LogEntry>([], n) == [];
      assert !NewestBeside(s, [], n, top);
    }
  }

  class LogBuffer {
    const debugBuffer: array<LogEntry>
    const importantBuffer: array<LogEntry>
    const capacity: nat
    var debugHead: nat
    var debugCount: nat
    var importantHead: nat
    var importantCount: nat
    ghost var debugAdded: seq<LogEntry>
    ghost var importantAdded: seq<LogEntry>

    ghost predicate Valid()
      reads this, debugBuffer, importantBuffer
    {
      && debugBuffer != importantBuffer
      && debugBuffer.Length == importantBuffer.Length == capacity
      && RingHolds(debugBuffer[..], debugHead, debugCount, debugAdded)
      && RingHolds(importantBuffer[..], importantHead, importantCount, importantAdded)
    }

    constructor (requested: int)
      ensures Valid() && fresh(debugBuffer) && fresh(importantBuffer)
      ensures capacity == if requested > 0 then requested else 5000
      ensures debugAdded == [] && importantAdded == []
    {
      capacity := if requested > 0 then requested else DEFAULT_CAPACITY;
      debugBuffer := new LogEntry[if requested > 0 then requested else DEFAULT_CAPACITY];
      importantBuffer := new LogEntry[if requested > 0 then requested else DEFAULT_CAPACITY];
      debugHead, debugCount, importantHead, importantCount := 0, 0, 0, 0;
      debugAdded, importantAdded := [], [];
    }

    /** Debug entries only push out debug entries, the others only each other. */
    method Add(entry: Option<LogEntry>)
      requires Valid()
      modifies this`debugHead, this`debugCount, this`importantHead, this`importantCount, this`debugAdded,
                 this`importantAdded, debugBuffer, importantBuffer
      ensures Valid()
      ensures debugAdded == old(debugAdded) + if entry.Some? && entry.value.severity == Debug then [entry.value] else []
      ensures importantAdded
              == old(importantAdded) + if entry.Some? && entry.value.severity != Debug then [entry.value] else []
    {
      if entry == None {
        return;
      }
      var e := entry.value;
      if e.severity == Debug {
        RingAdd(debugBuffer[..], debugHead, debugCount, debugAdded, e);
        debugBuffer[debugHead] := e;
        debugHead := (debugHead + 1) % capacity;
        if debugCount < capacity { debugCount := debugCount + 1; }
        debugAdded := debugAdded + [e];
      } else {
        RingAdd(importantBuffer[..], importantHead, importantCount, importantAdded, e);
        importantBuffer[importantHead] := e;
        importantHead := (importantHead + 1) % capacity;
        if importantCount < capacity { importantCount := importantCount + 1; }
        importantAdded := importantAdded + [e];
      }
    }

    /** Everything still stored: the last `capacity` entries of each class. */
    ghost function Retained(): seq<LogEntry>
      reads this
    {
      Recent(debugAdded, capacity) + Recent(importantAdded, capacity)
    }

    method GetLatest(requested: int) returns (latest: seq<LogEntry>)
      requires Valid()
      ensures var n := if requested <= 0 then 200 else requested;
              && |latest| == Smaller(n, |Retained()|)
              && Chronological(latest)
              && multiset(latest) <= multiset(Retained())
              && (Chronological(Recent(debugAdded, capacity)) && Chronological(Recent(importantAdded, capacity))
                  ==> IsNewest(latest, Retained(), n))
    {
      var n := if requested <= 0 then DEFAULT_COUNT else requested;
      var debug := ReadRing(debugBuffer, debugHead, debugCount, n, debugAdded);
      var important := ReadRing(importantBuffer, importantHead, importantCount, n, importantAdded);
      var all := debug + important;
      var sorted := SortByTime(all);
      latest := if |sorted| > n then sorted[|sorted| - n..] else sorted;
      TailIsNewest(sorted, all, n);
      LatestIsRetained(Recent(debugAdded, capacity), Recent(importantAdded, capacity), n, latest);
    }

    function Count(): (n: nat)
      requires Valid()
      reads this, debugBuffer, importantBuffer
      ensures n == |Retained()|
    {
      debugCount + importantCount
    }
  }

  /** The last `n` entries of one ring, in the order they were added. */
  method ReadRing(ring: array<LogEntry>, head: nat, count: nat, n: nat, ghost added: seq<LogEntry>)
    returns (read: seq<LogEntry>)
    requires RingHolds(ring[..], head, count, added)
    ensures read == Recent(Recent(added, ring.Length), n)
  {
    var k := Smaller(n, count);
    var start := (head - k + ring.Length) % ring.Length;
    read := [];
    for i := 0 to k
      invariant |read| == i && forall j :: 0 <= j < i ==> read[j] == added[|added| - k + j]
    {
      var slot := (start + i) % ring.Length;
      RingSlot(ring[..], head, count, added, k, i, start, slot);
      read := read + [ring[slot]];
    }
    assert read == added[|added| - k..];
  }

  /** Only the order by time is promised, not the order of entries with equal times. */
  method SortByTime(all: seq<LogEntry>) returns (sorted: seq<LogEntry>)
    ensures multiset(sorted) == multiset(all) && Chronological(sorted)
  {
    sorted := StableSort(all, (e: LogEntry) => e.timestamp);
    ChronologicalByTime(sorted);
  }

  lemma LatestIsRetained(debug: seq<LogEntry>, important: seq<LogEntry>, n: nat, latest: seq<LogEntry>)
    requires n > 0 && IsNewest(latest, Recent(debug, n) + Recent(important, n), n)
    ensures |latest| == Smaller(n, |debug + important|)
    ensures multiset(latest) <= multiset(debug + important)
    ensures Chronological(debug) && Chronological(important) ==> IsNewest(latest, debug + important, n)
  {
    TailsAreRetained(debug, important, n);
    if Chronological(debug) && Chronological(important) {
      NewestOfTails(debug, important, n, latest);
    }
  }
}
