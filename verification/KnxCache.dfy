/** The bounded cache of group values, registered addresses, and when a value is shown or pulled. */
module KnxCache {
  import opened Wrappers
  import opened Ordering
  import opened Binary
  import opened KnxCemi

  const MAX_CACHED := 4096
  const EVICTION_TARGET := 3686  // (int)(4096 * 0.9)

  /** Times are ticks of 100 ns. */
  datatype CachedValue = CachedValue(payload: seq<byte>, seen: int, changed: int)

  type Cache = map<GroupAddress, CachedValue>

  /** The cache entry a telegram leaves; an unchanged payload keeps its time of change. */
  function Refreshed(cache: Cache, dest: GroupAddress, payload: seq<byte>, now: int): Cache {
    var same := dest in cache && cache[dest].payload == payload;
    cache[dest := CachedValue(payload, now, if same then cache[dest].changed else now)]
  }

  function Unregistered(cache: Cache, known: set<GroupAddress>): set<GroupAddress> {
    cache.Keys - known
  }

  /** `kept` is what the bound leaves of `cache`: the oldest-seen unregistered entries are gone. */
  ghost predicate Bounded(cache: Cache, known: set<GroupAddress>, kept: Cache) {
    var evicted := cache.Keys - kept.Keys;
    && kept == cache - evicted
    && evicted <= Unregistered(cache, known)
    && |evicted| == (if |cache| <= MAX_CACHED then 0
        else Smaller(|Unregistered(cache, known)|, |cache| - EVICTION_TARGET))
    && forall e, u :: e in evicted && u in Unregistered(cache, known) - evicted ==> cache[e].seen <= cache[u].seen
  }

  /** What one frame does to the cache. */
  ghost predicate FrameStep(cache: Cache, known: set<GroupAddress>, data: seq<byte>, now: int, after: Cache) {
    match Receive(data)
    case Ignored => after == cache
    case Telegram(dest, payload, _) =>
      var refreshed := Refreshed(cache, dest, payload, now);
      if dest in cache then after == refreshed else Bounded(refreshed, known, after)
  }

  function SeenAt(cache: Cache, ga: int): int {
    if 0 <= ga < 65536 && ga in cache then cache[ga].seen else 0
  }

  class KnxConnection {
    var rawCache: Cache
    var knownAddresses: set<GroupAddress>
    const staleWindow: int

    constructor (staleSeconds: int)
      ensures rawCache == map[] && knownAddresses == {}
      ensures staleWindow == if staleSeconds > 0 then staleSeconds * 10_000_000 else 0
    {
      rawCache, knownAddresses := map[], {};
      staleWindow := if staleSeconds > 0 then staleSeconds * 10_000_000 else 0;
    }

    method RegisterAddress(ga: GroupAddress)
      modifies this`knownAddresses
      ensures knownAddresses == if ga != 0 then old(knownAddresses) + {ga} else old(knownAddresses)
    {
      if ga != 0 {
        knownAddresses := knownAddresses + {ga};
      }
    }

    /** Takes in one frame; a telegram refreshes its entry, and a new entry may push the oldest ones out. */
    method OnFrame(data: seq<byte>, now: int) returns (pushed: bool)
      modifies this`rawCache
      ensures FrameStep(old(rawCache), knownAddresses, data, now, rawCache)
      ensures pushed <==> Receive(data).Telegram? && Receive(data).isWrite
    {
      match Receive(data)
      case Ignored =>
        pushed := false;
      case Telegram(dest, payload, isWrite) =>
        var added := dest !in rawCache;
        var same := dest in rawCache && rawCache[dest].payload == payload;
        rawCache := rawCache[dest := CachedValue(payload, now, if same then rawCache[dest].changed else now)];
        if added {
          EnforceCacheBound();
        }
        pushed := isWrite;
    }

    /** Evicts the oldest-seen unregistered entries once the cap is exceeded. */
    method EnforceCacheBound()
      modifies this`rawCache
      ensures Bounded(old(rawCache), knownAddresses, rawCache)
    {
      if |rawCache| <= MAX_CACHED {
        BoundedAsIs(rawCache, knownAddresses);
        return;
      }
      var candidates := Candidates();
      ghost var cache := rawCache;
      var sorted := OldestFirst(rawCache, candidates);
      var n := Smaller(|sorted|, |rawCache| - EVICTION_TARGET);
      EvictedAreOldest(cache, knownAddresses, candidates, n);
      Remove(sorted[..n]);
    }

    method Remove(evictable: seq<GroupAddress>)
      modifies this`rawCache
      ensures rawCache == old(rawCache) - Elements(evictable)
    {
      for i := 0 to |evictable|
        invariant rawCache == old(rawCache) - Elements(evictable[..i])
      {
        rawCache := rawCache - {evictable[i]};
        assert Elements(evictable[..i + 1]) == Elements(evictable[..i]) + {evictable[i]};
      }
      assert evictable[..|evictable|] == evictable;
    }

    /** The unregistered keys in whatever order the dictionary yields them. */
    method Candidates() returns (keys: seq<GroupAddress>)
      ensures Distinct(keys)
      ensures forall ga :: ga in keys <==> ga in Unregistered(rawCache, knownAddresses)
    {
      keys := [];
      var todo := rawCache.Keys;
      while todo != {}
        invariant todo <= rawCache.Keys && Distinct(keys)
        invariant forall ga :: ga in keys <==> ga in rawCache && ga !in knownAddresses && ga !in todo
      {
        ghost var some := Element(todo);
        var ga :| ga in todo;
        todo := todo - {ga};
        if ga !in knownAddresses {
          keys := keys + [ga];
        }
      }
    }

    function GetCachedValue(ga: GroupAddress, now: int): Option<seq<byte>>
      reads this
    {
      Visible(rawCache, staleWindow, ga, now)
    }

    predicate NeedsPull(ga: GroupAddress, now: int)
      reads this
    {
      PullNeeded(rawCache, staleWindow, ga, now)
    }
  }

  function Visible(cache: Cache, window: int, ga: GroupAddress, now: int): Option<seq<byte>> {
    if ga !in cache then None
    else if window > 0 && now - cache[ga].seen > window then None
    else Some(cache[ga].payload)
  }

  const SWEEP_INTERVAL := 600_000_000  // 60 s

  function RefreshAfter(window: int): int {
    if window - SWEEP_INTERVAL < window / 2 then window / 2 else window - SWEEP_INTERVAL
  }

  predicate PullNeeded(cache: Cache, window: int, ga: GroupAddress, now: int) {
    if ga !in cache then true
    else if window <= 0 then false
    else now - cache[ga].seen >= RefreshAfter(window)
  }

  /** The candidates ordered by the time they were last seen. */
  function OldestFirst(cache: Cache, candidates: seq<GroupAddress>): (sorted: seq<GroupAddress>)
    ensures |sorted| == |candidates| && multiset(sorted) == multiset(candidates)
    ensures forall i, j :: 0 <= i < j < |sorted| ==> SeenAt(cache, sorted[i]) <= SeenAt(cache, sorted[j])
  {
    StableSort(candidates, ga => SeenAt(cache, ga))
  }

  lemma BoundedAsIs(cache: Cache, known: set<GroupAddress>)
    requires |cache| <= MAX_CACHED
    ensures Bounded(cache, known, cache)
  {
    assert cache.Keys - cache.Keys == {};
    assert cache - {} == cache;
  }

  lemma SortedCandidates(cache: Cache, known: set<GroupAddress>, candidates: seq<GroupAddress>)
    requires Distinct(candidates) && forall ga :: ga in candidates <==> ga in Unregistered(cache, known)
    ensures var sorted := OldestFirst(cache, candidates);
            Distinct(sorted) && Elements(sorted) == Unregistered(cache, known)
  {
    var sorted := OldestFirst(cache, candidates);
    DistinctPermutation(candidates, sorted);
    forall ga: GroupAddress ensures ga in sorted <==> ga in Unregistered(cache, known) {
      assert ga in sorted <==> ga in multiset(sorted);
      assert ga in candidates <==> ga in multiset(candidates);
    }
  }

  /** Whatever lies behind the first `n` of a sorted run was seen no earlier than any of them. */
  lemma LaterIsNewer(cache: Cache, sorted: seq<GroupAddress>, n: nat, e: GroupAddress, u: GroupAddress)
    requires forall i, j :: 0 <= i < j < |sorted| ==> SeenAt(cache, sorted[i]) <= SeenAt(cache, sorted[j])
    requires n <= |sorted| && e in sorted[..n] && u in sorted && u !in sorted[..n]
    ensures SeenAt(cache, e) <= SeenAt(cache, u)
  {
    var i :| 0 <= i < n && sorted[..n][i] == e;
    var j :| 0 <= j < |sorted| && sorted[j] == u;
    assert forall k :: 0 <= k < n ==> sorted[..n][k] == sorted[k] && sorted[k] in sorted[..n];
  }

  /** Dropping the first `n` of the sorted candidates is what the bound asks for. */
  lemma EvictedAreOldest(cache: Cache, known: set<GroupAddress>, candidates: seq<GroupAddress>, n: nat)
    requires Distinct(candidates) && forall ga :: ga in candidates <==> ga in Unregistered(cache, known)
    requires |cache| > MAX_CACHED && n == Smaller(|candidates|, |cache| - EVICTION_TARGET)
    ensures Bounded(cache, known, cache - Elements(OldestFirst(cache, candidates)[..n]))
  {
    var sorted := OldestFirst(cache, candidates);
    var evicted := Elements(sorted[..n]);
    var kept := cache - evicted;
    SortedCandidates(cache, known, candidates);
    ElementsCount(sorted);
    ElementsCount(sorted[..n]);
    assert evicted <= Elements(sorted);
    assert cache.Keys - kept.Keys == evicted;
    forall e, u | e in evicted && u in Unregistered(cache, known) - evicted ensures cache[e].seen <= cache[u].seen {
      LaterIsNewer(cache, sorted, n, e, u);
    }
  }
}
