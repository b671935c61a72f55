/** Runs of the bounded cache against one that never forgets, and the read sweep against staleness. */
module KnxCacheRuns {
  import opened Wrappers
  import opened Binary
  import opened KnxCemi
  import opened KnxCache

  datatype Event = Register(ga: GroupAddress) | Frame(data: seq<byte>, now: int)

  datatype State = State(cache: Cache, known: set<GroupAddress>)

  const STARTED := State(map[], {})

  ghost predicate Next(s: State, e: Event, t: State) {
    match e
    case Register(ga) => t == s.(known := if ga != 0 then s.known + {ga} else s.known)
    case Frame(data, now) => t.known == s.known && FrameStep(s.cache, s.known, data, now, t.cache)
  }

  ghost predicate IsRun(states: seq<State>, events: seq<Event>) {
    && |states| == |events| + 1
    && states[0] == STARTED
    && forall i :: 0 <= i < |events| ==> Next(states[i], events[i], states[i + 1])
  }

  predicate IsTelegramTo(e: Event, ga: GroupAddress) {
    e.Frame? && Receive(e.data).Telegram? && Receive(e.data).dest == ga
  }

  function Absorb(cache: Cache, e: Event): Cache {
    match e
    case Register(_) => cache
    case Frame(data, now) =>
      match Receive(data)
      case Ignored => cache
      case Telegram(dest, payload, _) => Refreshed(cache, dest, payload, now)
  }

  /** Every telegram ever received, with no bound on their number. */
  function Unbounded(events: seq<Event>): Cache {
    if events == [] then map[] else Absorb(Unbounded(events[..|events| - 1]), events[|events| - 1])
  }

  /** The address was registered, and no telegram for it came before that. */
  predicate RegisteredFirst(events: seq<Event>, ga: GroupAddress) {
    events != [] && (
      var before, last := events[..|events| - 1], events[|events| - 1];
      RegisteredFirst(before, ga) || (last == Register(ga) && ga != 0 && ga !in Unbounded(before)))
  }

  /** Event `i` is the last telegram to the address. */
  predicate IsLatest(events: seq<Event>, i: nat, ga: GroupAddress) {
    && i < |events| && IsTelegramTo(events[i], ga)
    && forall j :: i < j < |events| ==> !IsTelegramTo(events[j], ga)
  }

  lemma AbsorbOne(cache: Cache, e: Event, ga: GroupAddress)
    ensures !IsTelegramTo(e, ga) ==> (ga in Absorb(cache, e) <==> ga in cache)
    ensures !IsTelegramTo(e, ga) && ga in cache ==> Absorb(cache, e)[ga] == cache[ga]
    ensures IsTelegramTo(e, ga) ==>
              && ga in Absorb(cache, e)
              && Absorb(cache, e)[ga].payload == Receive(e.data).payload
              && Absorb(cache, e)[ga].seen == e.now
  {
  }

  /** The unbounded cache holds exactly the latest telegram of each address. */
  lemma {:induction false} UnboundedIsLatestTelegram(events: seq<Event>, ga: GroupAddress) returns (i: nat)
    ensures ga in Unbounded(events) ==>
              && IsLatest(events, i, ga)
              && Receive(events[i].data).payload == Unbounded(events)[ga].payload
              && events[i].now == Unbounded(events)[ga].seen
    ensures ga !in Unbounded(events) ==> forall j :: 0 <= j < |events| ==> !IsTelegramTo(events[j], ga)
  {
    i := 0;
    if events != [] {
      var n := |events| - 1;
      AbsorbOne(Unbounded(events[..n]), events[n], ga);
      if IsTelegramTo(events[n], ga) {
        i := n;
      } else {
        i := UnboundedIsLatestTelegram(events[..n], ga);
        assert forall j :: 0 <= j < n ==> events[..n][j] == events[j];
      }
    }
  }

  /** From event `i` on, every telegram to the address has the payload of event `i`. */
  ghost predicate ConstantFrom(events: seq<Event>, i: nat, ga: GroupAddress) {
    && i < |events| && IsTelegramTo(events[i], ga)
    && forall j :: i <= j < |events| && IsTelegramTo(events[j], ga)
        ==> Receive(events[j].data).payload == Receive(events[i].data).payload
  }

  /** The telegram to the address before event `i`, if there is one, has another payload than event `i`. */
  ghost predicate ChangesAt(events: seq<Event>, i: nat, ga: GroupAddress) {
    i < |events| && IsTelegramTo(events[i], ga)
    && forall j: nat :: IsLatest(events[..i], j, ga)
        ==> Receive(events[j].data).payload != Receive(events[i].data).payload
  }

  lemma LatestIsUnique(events: seq<Event>, i: nat, j: nat, ga: GroupAddress)
    requires IsLatest(events, i, ga) && IsLatest(events, j, ga)
    ensures i == j
  {
  }

  /** A telegram that is the first one or carries another payload than the one before. */
  lemma ChangesAtEnd(events: seq<Event>, ga: GroupAddress)
    requires events != [] && IsTelegramTo(events[|events| - 1], ga)
    requires var before := Unbounded(events[..|events| - 1]);
             ga in before ==> before[ga].payload != Receive(events[|events| - 1].data).payload
    ensures ChangesAt(events, |events| - 1, ga)
  {
    var n := |events| - 1;
    var last := UnboundedIsLatestTelegram(events[..n], ga);
    forall j: nat | IsLatest(events[..n], j, ga)
        ensures Receive(events[j].data).payload != Receive(events[n].data).payload {
      LatestIsUnique(events[..n], j, last, ga);
    }
  }

  lemma ConstantLonger(events: seq<Event>, i: nat, ga: GroupAddress)
    requires events != [] && ConstantFrom(events[..|events| - 1], i, ga) && ChangesAt(events[..|events| - 1], i, ga)
    requires IsTelegramTo(events[|events| - 1], ga) ==>
               Receive(events[|events| - 1].data).payload == Receive(events[i].data).payload
    ensures ConstantFrom(events, i, ga) && ChangesAt(events, i, ga)
  {
    assert events[..|events| - 1][..i] == events[..i];
  }

  lemma AbsorbChanged(cache: Cache, e: Event, ga: GroupAddress)
    requires ga in Absorb(cache, e)
    ensures var same := ga in cache && (IsTelegramTo(e, ga) ==> cache[ga].payload == Receive(e.data).payload);
            Absorb(cache, e)[ga].changed == if same then cache[ga].changed else e.now
  {
  }

  /** The time of change is that of the telegram with which the present payload began. */
  lemma {:induction false} ChangedIsStartOfPayload(events: seq<Event>, ga: GroupAddress) returns (i: nat)
    requires ga in Unbounded(events)
    ensures ConstantFrom(events, i, ga) && ChangesAt(events, i, ga)
    ensures Unbounded(events)[ga].changed == events[i].now
              && Unbounded(events)[ga].payload == Receive(events[i].data).payload
  {
    var n := |events| - 1;
    var before := Unbounded(events[..n]);
    AbsorbOne(before, events[n], ga);
    AbsorbChanged(before, events[n], ga);
    if ga in before && (IsTelegramTo(events[n], ga) ==> before[ga].payload == Receive(events[n].data).payload) {
      i := ChangedIsStartOfPayload(events[..n], ga);
      ConstantLonger(events, i, ga);
    } else {
      i := n;
      ChangesAtEnd(events, ga);
    }
  }

  /** A cached entry is the latest telegram of its address. */
  predicate Current(cache: Cache, all: Cache, ga: GroupAddress) {
    ga in cache ==> ga in all && cache[ga].payload == all[ga].payload && cache[ga].seen == all[ga].seen
  }

  predicate Kept(cache: Cache, all: Cache, ga: GroupAddress) {
    ga in all ==> ga in cache && cache[ga] == all[ga]
  }

  ghost predicate Agrees(s: State, events: seq<Event>) {
    && (|s.cache| <= MAX_CACHED || s.cache.Keys <= s.known)
    && (forall ga :: Current(s.cache, Unbounded(events), ga))
    && (forall ga :: RegisteredFirst(events, ga) ==> ga in s.known && Kept(s.cache, Unbounded(events), ga))
  }

  lemma RefreshedStaysCurrent(cache: Cache, all: Cache, dest: GroupAddress, payload: seq<byte>, now: int, kept: Cache,
                              ga: GroupAddress)
    requires Current(cache, all, ga)
    requires var r := Refreshed(cache, dest, payload, now); ga in kept ==> ga in r && kept[ga] == r[ga]
    ensures Current(kept, Refreshed(all, dest, payload, now), ga)
  {
  }

  lemma RefreshedStaysKept(cache: Cache, all: Cache, dest: GroupAddress, payload: seq<byte>, now: int, kept: Cache,
                           ga: GroupAddress)
    requires Current(cache, all, ga) && Kept(cache, all, ga)
    requires var r := Refreshed(cache, dest, payload, now); ga in r ==> ga in kept && kept[ga] == r[ga]
    ensures Kept(kept, Refreshed(all, dest, payload, now), ga)
  {
  }

  lemma SubsetOfSameSize<T>(a: set<T>, b: set<T>)
    requires a <= b && |a| == |b|
    ensures a == b
  {
    assert b == a + (b - a);
  }

  /** The bound leaves few enough entries, or only registered ones. */
  lemma BoundHolds(cache: Cache, known: set<GroupAddress>, kept: Cache)
    requires Bounded(cache, known, kept)
    ensures |kept| <= MAX_CACHED || kept.Keys <= known
    ensures forall ga :: ga in cache && ga in known ==> ga in kept
    ensures forall ga :: ga in kept ==> ga in cache && kept[ga] == cache[ga]
  {
    var evicted := cache.Keys - kept.Keys;
    assert |cache.Keys - evicted| == |cache| - |evicted|;
    assert kept.Keys == cache.Keys - evicted;
    if |evicted| == |Unregistered(cache, known)| {
      SubsetOfSameSize(evicted, Unregistered(cache, known));
    }
  }

  lemma RegisterAgrees(s: State, events: seq<Event>, ga: GroupAddress, t: State)
    requires Agrees(s, events) && Next(s, Register(ga), t)
    ensures Agrees(t, events + [Register(ga)])
  {
    var all := events + [Register(ga)];
    assert all[..|events|] == events;
    assert Unbounded(all) == Unbounded(events);
    forall other | RegisteredFirst(all, other)
      ensures other in t.known && Kept(t.cache, Unbounded(all), other)
    {
      assert RegisteredFirst(events, other) || other !in Unbounded(events);
    }
  }

  /** A telegram that leaves both caches with the same entry, and drops at most unregistered others. */
  lemma TelegramAgrees(s: State, events: seq<Event>, dest: GroupAddress, payload: seq<byte>, now: int, kept: Cache)
    requires Agrees(s, events)
    requires var refreshed := Refreshed(s.cache, dest, payload, now);
             if dest in s.cache then kept == refreshed else Bounded(refreshed, s.known, kept)
    ensures |kept| <= MAX_CACHED || kept.Keys <= s.known
    ensures forall ga :: ga in kept ==> ga in Refreshed(s.cache, dest, payload, now)
                                        && kept[ga] == Refreshed(s.cache, dest, payload, now)[ga]
    ensures forall ga :: ga in s.known && ga in Refreshed(s.cache, dest, payload, now) ==> ga in kept
  {
    if dest !in s.cache {
      BoundHolds(Refreshed(s.cache, dest, payload, now), s.known, kept);
    } else {
      assert Refreshed(s.cache, dest, payload, now).Keys == s.cache.Keys;
    }
  }

  lemma FrameAgrees(s: State, events: seq<Event>, e: Event, t: State)
    requires Agrees(s, events) && Next(s, e, t) && e.Frame?
    ensures Agrees(t, events + [e])
  {
    var all := events + [e];
    assert all[..|events|] == events;
    assert forall ga :: RegisteredFirst(all, ga) <==> RegisteredFirst(events, ga);
    assert Unbounded(all) == Absorb(Unbounded(events), e);
    match Receive(e.data)
    case Ignored =>
    case Telegram(dest, payload, _) =>
      TelegramAgrees(s, events, dest, payload, e.now, t.cache);
      forall ga ensures Current(t.cache, Unbounded(all), ga) {
        RefreshedStaysCurrent(s.cache, Unbounded(events), dest, payload, e.now, t.cache, ga);
      }
      forall ga | RegisteredFirst(all, ga) ensures ga in t.known && Kept(t.cache, Unbounded(all), ga) {
        assert RegisteredFirst(events, ga);
        RefreshedStaysKept(s.cache, Unbounded(events), dest, payload, e.now, t.cache, ga);
      }
  }

  /** After every event of every run the bounded cache agrees with the unbounded one. */
  lemma {:induction false} CacheAgreesWithUnbounded(states: seq<State>, events: seq<Event>)
    requires IsRun(states, events)
    ensures Agrees(states[|events|], events)
  {
    if events != [] {
      var n := |events| - 1;
      CacheAgreesWithUnbounded(states[..n + 1], events[..n]);
      assert events == events[..n] + [events[n]];
      match events[n]
      case Register(ga) => RegisterAgrees(states[n], events[..n], ga, states[n + 1]);
      case Frame(_, _) => FrameAgrees(states[n], events[..n], events[n], states[n + 1]);
    }
  }

  /** The address is registered, and whatever was received for it is still cached. */
  ghost predicate Complete(s: State, events: seq<Event>, ga: GroupAddress) {
    ga in s.known && (ga in Unbounded(events) ==> ga in s.cache)
  }

  lemma StepKeepsRegistered(s: State, e: Event, t: State, ga: GroupAddress)
    requires Next(s, e, t) && ga in s.known && (ga in s.cache || IsTelegramTo(e, ga))
    ensures ga in t.known && ga in t.cache
  {
    if e.Frame? && Receive(e.data).Telegram? && Receive(e.data).dest !in s.cache {
      var telegram := Receive(e.data);
      BoundHolds(Refreshed(s.cache, telegram.dest, telegram.payload, e.now), s.known, t.cache);
    }
  }

  /** A telegram for a registered address is cached, whatever was lost before. */
  lemma TelegramCompletes(states: seq<State>, events: seq<Event>, m: nat, ga: GroupAddress)
    requires IsRun(states, events) && m < |events|
    requires ga in states[m].known && IsTelegramTo(events[m], ga)
    ensures Complete(states[m + 1], events[..m + 1], ga)
  {
    StepKeepsRegistered(states[m], events[m], states[m + 1], ga);
  }

  lemma StepKeepsComplete(s: State, events: seq<Event>, e: Event, t: State, ga: GroupAddress)
    requires Next(s, e, t) && Complete(s, events, ga)
    ensures Complete(t, events + [e], ga)
    ensures ga in s.cache ==> ga in t.cache
  {
    assert (events + [e])[..|events|] == events;
    AbsorbOne(Unbounded(events), e, ga);
    if ga in s.cache || IsTelegramTo(e, ga) {
      StepKeepsRegistered(s, e, t, ga);
    }
  }

  /** From then on nothing received for the address is ever lost. */
  lemma {:induction false} CompleteStays(states: seq<State>, events: seq<Event>, m: nat, n: nat, ga: GroupAddress)
    requires IsRun(states, events) && m <= n <= |events| && Complete(states[m], events[..m], ga)
    ensures Complete(states[n], events[..n], ga)
    ensures ga in states[m].cache ==> ga in states[n].cache
  {
    if m < n {
      CompleteStays(states, events, m, n - 1, ga);
      StepKeepsComplete(states[n - 1], events[..n - 1], events[n - 1], states[n], ga);
      assert events[..n - 1] + [events[n - 1]] == events[..n];
    }
  }

  /**
   * Once a registered address is cached, or nothing has been received for it yet, it is never evicted: after
   * every later event readers and the read sweep cannot tell that the cache is bounded.
   */
  lemma RegisteredReadersSeeEverything(states: seq<State>, events: seq<Event>, m: nat, ga: GroupAddress, window: int,
                                       now: int)
    requires IsRun(states, events) && m <= |events| && Complete(states[m], events[..m], ga)
    ensures ga in states[m].cache ==> ga in states[|events|].cache
    ensures Visible(states[|events|].cache, window, ga, now) == Visible(Unbounded(events), window, ga, now)
    ensures PullNeeded(states[|events|].cache, window, ga, now) == PullNeeded(Unbounded(events), window, ga, now)
  {
    CompleteStays(states, events, m, |events|, ga);
    CacheAgreesWithUnbounded(states, events);
    assert events[..|events|] == events;
    assert Current(states[|events|].cache, Unbounded(events), ga);
  }

  /** For any address, what is shown is the latest telegram or nothing. */
  lemma ShownIsLatest(states: seq<State>, events: seq<Event>, ga: GroupAddress, window: int, now: int)
    requires IsRun(states, events)
    ensures var shown := Visible(states[|events|].cache, window, ga, now);
            shown == None || shown == Visible(Unbounded(events), window, ga, now)
  {
    CacheAgreesWithUnbounded(states, events);
    assert Current(states[|events|].cache, Unbounded(events), ga);
  }

  // ---- Sizes and ages ----

  /** At most 4096 entries stay; beyond that the bound leaves 3686, or all registered ones if these are more. */
  lemma BoundedSize(cache: Cache, known: set<GroupAddress>, kept: Cache)
    requires Bounded(cache, known, kept)
    ensures var registered := |cache.Keys * known|;
            |kept| == if |cache| <= 4096 then |cache| else if registered > 3686 then registered else 3686
  {
    var evicted, registered := cache.Keys - kept.Keys, cache.Keys * known;
    assert kept.Keys == cache.Keys - evicted && |kept| == |kept.Keys| && |cache| == |cache.Keys|;
    assert Unregistered(cache, known) == cache.Keys - registered;
    CountWithout(cache.Keys, evicted);
    CountWithout(cache.Keys, registered);
  }

  lemma CountWithout<T>(a: set<T>, b: set<T>)
    requires b <= a
    ensures |a - b| == |a| - |b|
  {
    assert a == (a - b) + b;
  }

  /** What a configured number of seconds means: up to that age a value is shown, without a number it always is. */
  lemma ShownByAge(cache: Cache, staleSeconds: int, ga: GroupAddress, now: int)
    ensures var window := if staleSeconds > 0 then staleSeconds * 10_000_000 else 0;
            var shown := ga in cache && (staleSeconds <= 0 || now - cache[ga].seen <= staleSeconds * 10_000_000);
            Visible(cache, window, ga, now) == if shown then Some(cache[ga].payload) else None
  {
  }

  /** A value is pulled 60 s before that age is over, but not before half of it; without a number only if missing. */
  lemma PulledByAge(cache: Cache, staleSeconds: int, ga: GroupAddress, now: int)
    ensures var window := if staleSeconds > 0 then staleSeconds * 10_000_000 else 0;
            PullNeeded(cache, window, ga, now) <==>
              ga !in cache || (staleSeconds > 0 && (
                var age := now - cache[ga].seen;
                age >= (staleSeconds - 60) * 10_000_000 && 2 * age >= staleSeconds * 10_000_000))
  {
  }

  // ---- The read sweep ----

  /** A value that is not shown is always due for a pull. */
  lemma HiddenNeedsPull(cache: Cache, window: int, ga: GroupAddress, now: int)
    requires Visible(cache, window, ga, now) == None
    ensures PullNeeded(cache, window, ga, now)
  {
  }

  /** Sweep checks at most `gap` apart, beginning no later than the value is hidden and going on until it is due. */
  ghost predicate Sweeps(checks: seq<int>, gap: int, seen: int, window: int) {
    && checks != []
    && (forall i :: 0 <= i < |checks| - 1 ==> checks[i] <= checks[i + 1] <= checks[i] + gap)
    && seen <= checks[0] <= seen + window
    && checks[|checks| - 1] >= seen + RefreshAfter(window)
  }

  ghost predicate PulledWhileVisible(cache: Cache, window: int, ga: GroupAddress, checks: seq<int>) {
    exists i :: 0 <= i < |checks| && PullNeeded(cache, window, ga, checks[i])
        && Visible(cache, window, ga, checks[i]) != None
  }

  /** However such a sweep is timed, it finds the silent value due while it is still shown. */
  ghost predicate AlwaysPulledInTime(cache: Cache, window: int, ga: GroupAddress, gap: int)
    requires ga in cache
  {
    forall checks :: Sweeps(checks, gap, cache[ga].seen, window) ==> PulledWhileVisible(cache, window, ga, checks)
  }

  lemma {:induction false} FirstDueCheck(cache: Cache, window: int, ga: GroupAddress, gap: int, checks: seq<int>)
    requires ga in cache && window > 0 && gap <= window - RefreshAfter(window) + 1
    requires Sweeps(checks, gap, cache[ga].seen, window)
    ensures PulledWhileVisible(cache, window, ga, checks)
    decreases |checks|
  {
    var seen := cache[ga].seen;
    if PullNeeded(cache, window, ga, checks[0]) {
      assert Visible(cache, window, ga, checks[0]) != None;
    } else {
      var rest := checks[1..];
      assert checks[0] < seen + RefreshAfter(window);
      assert checks[1] == rest[0];
      forall i | 0 <= i < |rest| - 1 ensures rest[i] <= rest[i + 1] <= rest[i] + gap {
        assert rest[i] == checks[i + 1] && rest[i + 1] == checks[i + 2];
      }
      FirstDueCheck(cache, window, ga, gap, rest);
      var i :| 0 <= i < |rest| && PullNeeded(cache, window, ga, rest[i]) && Visible(cache, window, ga, rest[i]) != None;
      assert rest[i] == checks[i + 1];
    }
  }

  /**
   * A silent value is always pulled in time exactly when no gap exceeds the time from its being due to its
   * being hidden.
   */
  lemma SweepKeepsValueVisibleIff(cache: Cache, window: int, ga: GroupAddress, gap: int)
    requires ga in cache && window >= 2 && gap >= 0
    ensures AlwaysPulledInTime(cache, window, ga, gap) <==> gap <= window - RefreshAfter(window) + 1
  {
    if gap <= window - RefreshAfter(window) + 1 {
      forall checks | Sweeps(checks, gap, cache[ga].seen, window)
        ensures PulledWhileVisible(cache, window, ga, checks)
      {
        FirstDueCheck(cache, window, ga, gap, checks);
      }
    } else {
      var early := cache[ga].seen + RefreshAfter(window) - 1;
      var checks := [early, early + gap];
      assert Sweeps(checks, gap, cache[ga].seen, window);
      assert !PulledWhileVisible(cache, window, ga, checks);
    }
  }

  /** For checks at most 60 s apart that is a window of at least 120 s. */
  lemma SixtySecondSweepIff(cache: Cache, staleSeconds: int, ga: GroupAddress)
    requires ga in cache && staleSeconds > 0
    ensures AlwaysPulledInTime(cache, staleSeconds * 10_000_000, ga, 60 * 10_000_000) <==> staleSeconds >= 120
  {
    SweepKeepsValueVisibleIff(cache, staleSeconds * 10_000_000, ga, SWEEP_INTERVAL);
  }

  /** The sweep waits 60 s after sending its reads: once sending takes 200 ns no window is long enough. */
  lemma SendingTimeIsNotCovered(cache: Cache, staleSeconds: int, ga: GroupAddress, sending: int)
    requires ga in cache && staleSeconds > 0 && sending >= 2
    ensures !AlwaysPulledInTime(cache, staleSeconds * 10_000_000, ga, 60 * 10_000_000 + sending)
  {
    SweepKeepsValueVisibleIff(cache, staleSeconds * 10_000_000, ga, SWEEP_INTERVAL + sending);
  }
}
