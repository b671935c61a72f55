/** Consumption of cumulative meters per hour, day, month and year. */
module Rollover {
  import opened Wrappers
  import opened Rounding

  datatype Granularity = Hourly | Daily | Monthly | Yearly

  /** A point in time down to the hour; what is finer makes no difference here. */
  datatype Moment = Moment(year: int, month: int, day: int, hour: int)

  function Period(now: Moment, g: Granularity): int {
    match g
    case Hourly => now.hour
    case Daily => now.day
    case Monthly => now.month
    case Yearly => now.year
  }

  /** The start of the current period. */
  function StartOf(now: Moment, g: Granularity): Moment {
    match g
    case Hourly => now
    case Daily => now.(hour := 0)
    case Monthly => now.(hour := 0, day := 1)
    case Yearly => now.(hour := 0, day := 1, month := 1)
  }

  // ---- One meter, one granularity ----

  /** The reading a period began with, and which period that is; a saved state may lack the latter for years. */
  datatype Counter = Counter(base: real, last: Option<int>)

  datatype Sample = Sample(value: real, now: Moment)

  function Delta(c: Counter, value: real): real {
    Round4(Positive(value - c.base))
  }

  predicate RollsOver(c: Counter, now: Moment, g: Granularity) {
    c.last != Some(Period(now, g))
  }

  function Rolled(c: Counter, s: Sample, g: Granularity): Counter {
    if RollsOver(c, s.now, g) then Counter(s.value, Some(Period(s.now, g))) else c
  }

  function After(c: Counter, samples: seq<Sample>, g: Granularity): Counter {
    if samples == [] then c
    else Rolled(After(c, samples[..|samples| - 1], g), samples[|samples| - 1], g)
  }

  /** The sum of the persisted deltas. */
  function Persisted(c: Counter, samples: seq<Sample>, g: Granularity): real {
    if samples == [] then 0.0
    else
      var init, s := samples[..|samples| - 1], samples[|samples| - 1];
      var before := After(c, init, g);
      Persisted(c, init, g) + if RollsOver(before, s.now, g) then Delta(before, s.value) else 0.0
  }

  function Rollovers(c: Counter, samples: seq<Sample>, g: Granularity): nat {
    if samples == [] then 0
    else
      var init, s := samples[..|samples| - 1], samples[|samples| - 1];
      Rollovers(c, init, g) + if RollsOver(After(c, init, g), s.now, g) then 1 else 0
  }

  /** What clamping at zero hides: how far each rollover reads below its base. */
  function Lost(c: Counter, samples: seq<Sample>, g: Granularity): real {
    if samples == [] then 0.0
    else
      var init, s := samples[..|samples| - 1], samples[|samples| - 1];
      var before := After(c, init, g);
      Lost(c, init, g) + if RollsOver(before, s.now, g) then Positive(before.base - s.value) else 0.0
  }

  /** The sum of the persisted deltas before rounding. */
  function Unrounded(c: Counter, samples: seq<Sample>, g: Granularity): real {
    if samples == [] then 0.0
    else
      var init, s := samples[..|samples| - 1], samples[|samples| - 1];
      var before := After(c, init, g);
      Unrounded(c, init, g) + if RollsOver(before, s.now, g) then Positive(s.value - before.base) else 0.0
  }

  /** Before rounding, the persisted deltas telescope up to what clamping hides. */
  lemma {:induction false} UnroundedTelescopes(c: Counter, samples: seq<Sample>, g: Granularity)
    ensures Unrounded(c, samples, g) == After(c, samples, g).base - c.base + Lost(c, samples, g)
  {
    if samples != [] {
      UnroundedTelescopes(c, samples[..|samples| - 1], g);
    }
  }

  /** Rounding adds half a ten-thousandth for each rollover at most. */
  lemma {:induction false} RoundingOfPersisted(c: Counter, samples: seq<Sample>, g: Granularity)
    ensures var bound := Rollovers(c, samples, g) as real * 0.00005;
            -bound <= Persisted(c, samples, g) - Unrounded(c, samples, g) <= bound
  {
    if samples != [] {
      RoundingOfPersisted(c, samples[..|samples| - 1], g);
    }
  }

  /** Everything accounted for so far: what is persisted and the live delta. */
  function Total(c: Counter, samples: seq<Sample>, g: Granularity): real
    requires samples != []
  {
    Persisted(c, samples, g) + Delta(After(c, samples, g), samples[|samples| - 1].value)
  }

  /** All that clamping hides, in the live delta too. */
  function Hidden(c: Counter, samples: seq<Sample>, g: Granularity): (h: real)
    requires samples != []
  {
    Lost(c, samples, g) + Positive(After(c, samples, g).base - samples[|samples| - 1].value)
  }

  /** Persisted and live deltas together give the change of the meter, plus what clamping hides. */
  lemma TotalIsChange(c: Counter, samples: seq<Sample>, g: Granularity)
    requires samples != []
    ensures var error := Total(c, samples, g) - (samples[|samples| - 1].value - c.base + Hidden(c, samples, g));
            var bound := (Rollovers(c, samples, g) + 1) as real * 0.00005;
            -bound <= error <= bound
  {
    UnroundedTelescopes(c, samples, g);
    RoundingOfPersisted(c, samples, g);
  }

  /** The meter never falls, and starts no lower than the counter's base. */
  ghost predicate NeverFalls(c: Counter, samples: seq<Sample>) {
    && (samples != [] ==> c.base <= samples[0].value)
    && forall i, j :: 0 <= i < j < |samples| ==> samples[i].value <= samples[j].value
  }

  lemma {:induction false} NothingHidden(c: Counter, samples: seq<Sample>, g: Granularity)
    requires NeverFalls(c, samples)
    ensures Lost(c, samples, g) == 0.0
    ensures samples != [] ==> After(c, samples, g).base <= samples[|samples| - 1].value
    ensures samples != [] ==> Hidden(c, samples, g) == 0.0
  {
    if |samples| > 1 {
      var init := samples[..|samples| - 1];
      assert samples[|samples| - 2].value <= samples[|samples| - 1].value;
      NothingHidden(c, init, g);
    } else if |samples| == 1 {
      assert samples[..0] == [];
    }
  }

  /**
   * For a meter that never falls, persisted plus live is the meter's change, within half a ten-thousandth
   * for each rollover and one for the live delta, whatever gaps there are between samples.
   */
  lemma TelescopesWhenNeverFalling(c: Counter, samples: seq<Sample>, g: Granularity)
    requires samples != [] && NeverFalls(c, samples)
    ensures var error := Total(c, samples, g) - (samples[|samples| - 1].value - c.base);
            var bound := (Rollovers(c, samples, g) + 1) as real * 0.00005;
            -bound <= error <= bound
  {
    NothingHidden(c, samples, g);
    TotalIsChange(c, samples, g);
  }

  /** So any two granularities agree within their rounding. */
  lemma GranularitiesAgree(c: Counter, d: Counter, samples: seq<Sample>, g: Granularity, h: Granularity)
    requires samples != [] && c.base == d.base && NeverFalls(c, samples)
    ensures var difference := Total(c, samples, g) - Total(d, samples, h);
            var bound := (Rollovers(c, samples, g) + Rollovers(d, samples, h) + 2) as real * 0.00005;
            -bound <= difference <= bound
  {
    TelescopesWhenNeverFalling(c, samples, g);
    TelescopesWhenNeverFalling(d, samples, h);
  }

  // ---- Exactly when nothing is hidden ----

  /** No rollover reads below its base, nor does the last reading. */
  predicate NeverBelowBase(c: Counter, samples: seq<Sample>, g: Granularity) {
    samples != [] ==>
      RolloversNotBelowBase(c, samples, g) && After(c, samples, g).base <= samples[|samples| - 1].value
  }

  predicate RolloversNotBelowBase(c: Counter, samples: seq<Sample>, g: Granularity) {
    samples != [] ==>
      var init, s := samples[..|samples| - 1], samples[|samples| - 1];
      var before := After(c, init, g);
      RolloversNotBelowBase(c, init, g) && (RollsOver(before, s.now, g) ==> before.base <= s.value)
  }

  lemma {:induction false} LostIff(c: Counter, samples: seq<Sample>, g: Granularity)
    ensures Lost(c, samples, g) >= 0.0
    ensures Lost(c, samples, g) == 0.0 <==> RolloversNotBelowBase(c, samples, g)
  {
    if samples != [] {
      LostIff(c, samples[..|samples| - 1], g);
    }
  }

  /** Before rounding, the total is the change of the meter exactly if no such reading falls below its base. */
  lemma UnroundedTotalIsChangeIff(c: Counter, samples: seq<Sample>, g: Granularity)
    requires samples != []
    ensures Unrounded(c, samples, g) + Positive(samples[|samples| - 1].value - After(c, samples, g).base)
         == samples[|samples| - 1].value - c.base
       <==> NeverBelowBase(c, samples, g)
  {
    UnroundedTelescopes(c, samples, g);
    LostIff(c, samples, g);
  }

  // ---- The engine ----

  function Suffix(g: Granularity): string {
    match g
    case Hourly => "_hourly"
    case Daily => "_daily"
    case Monthly => "_monthly"
    case Yearly => "_yearly"
  }

  function Name(key: string, g: Granularity): string {
    key + Suffix(g)
  }

  lemma NamesDiffer(key: string)
    ensures forall g, h :: Name(key, g) == Name(key, h) ==> g == h
  {
    forall g, h | Name(key, g) == Name(key, h) ensures g == h {
      assert Name(key, g)[|key|..] == Suffix(g) && Name(key, h)[|key|..] == Suffix(h);
      assert |Suffix(Hourly)| == 7 && |Suffix(Daily)| == 6 && |Suffix(Monthly)| == 8 && |Suffix(Yearly)| == 7;
      assert Suffix(Hourly)[1] == 'h' && Suffix(Yearly)[1] == 'y';
    }
  }

  type Live = map<string, real>
  type Closed = map<string, (real, Moment)>

  /** `KeyNotFound` is the exception a dictionary raises for a missing key. */
  datatype Outcome = Processed(live: Live, persisted: Closed) | KeyNotFound

  /** One granularity's two dictionaries: base and last period by key. */
  datatype Table = Table(base: map<string, real>, last: map<string, int>) {
    function Lookup(key: string): Option<Counter> {
      if key in base then Some(Counter(base[key], if key in last then Some(last[key]) else None)) else None
    }

    /** The counter of a key; zero where there is none. */
    function Get(key: string): Counter {
      if Lookup(key).Some? then Lookup(key).value else Counter(0.0, None)
    }

    function Put(key: string, value: real, period: int): Table {
      Table(base[key := value], last[key := period])
    }
  }

  ghost predicate SameEntry<V>(a: map<string, V>, b: map<string, V>, key: string) {
    (key in a <==> key in b) && (key in a ==> a[key] == b[key])
  }

  /** Only this key's entries may differ. */
  ghost predicate SameElsewhere(after: Table, table: Table, key: string) {
    forall other :: other != key ==>
      SameEntry(after.base, table.base, other) && SameEntry(after.last, table.last, other)
  }

  function Advanced(c: Option<Counter>, s: Sample, g: Granularity): Option<Counter> {
    if c == None then None else Some(Rolled(c.value, s, g))
  }

  /** A delta is persisted for the granularity exactly if its period is over. */
  ghost predicate Closes(persisted: Closed, key: string, c: Counter, s: Sample, g: Granularity) {
    && (Name(key, g) in persisted <==> RollsOver(c, s.now, g))
    && (Name(key, g) in persisted ==> persisted[Name(key, g)] == (Delta(c, s.value), StartOf(s.now, g)))
  }

  /** The counters of one key. */
  datatype Counters = Counters(hour: Counter, day: Counter, month: Counter, year: Counter) {
    function At(g: Granularity): Counter {
      match g
      case Hourly => hour
      case Daily => day
      case Monthly => month
      case Yearly => year
    }
  }

  function Close(before: Closed, key: string, c: Counter, s: Sample, g: Granularity): Closed {
    if RollsOver(c, s.now, g) then before[Name(key, g) := (Delta(c, s.value), StartOf(s.now, g))] else before
  }

  function CloseAll(key: string, c: Counters, s: Sample): Closed {
    Close(Close(Close(Close(map[], key, c.hour, s, Hourly), key, c.day, s, Daily), key, c.month, s, Monthly), key,
        c.year, s, Yearly)
  }

  function LiveAll(key: string, c: Counters, value: real): Live {
    map[Name(key, Hourly) := Delta(c.hour, value), Name(key, Daily) := Delta(c.day, value),
        Name(key, Monthly) := Delta(c.month, value), Name(key, Yearly) := Delta(c.year, value)]
  }

  /** The four granularities' figures and no others. */
  ghost predicate NamesOnly(outcome: Outcome, key: string) {
    && outcome.Processed?
    && forall name :: name in outcome.live || name in outcome.persisted ==> exists g :: name == Name(key, g)
  }

  /**
   * For every granularity: a delta is persisted if its period is over, and the live delta counts from the base
   * now in force.
   */
  ghost predicate Reports(outcome: Outcome, key: string, before: Counters, after: Counters, s: Sample) {
    && outcome.Processed? && NamesOnly(outcome, key)
    && forall g ::
         && Closes(outcome.persisted, key, before.At(g), s, g)
         && Name(key, g) in outcome.live
         && outcome.live[Name(key, g)] == Delta(after.At(g), s.value)
  }

  lemma ClosesOne(key: string, before: Counters, s: Sample, g: Granularity)
    ensures Closes(CloseAll(key, before, s), key, before.At(g), s, g)
  {
    NamesDiffer(key);
  }

  lemma LiveOne(key: string, after: Counters, value: real, g: Granularity)
    ensures Name(key, g) in LiveAll(key, after, value)
              && LiveAll(key, after, value)[Name(key, g)] == Delta(after.At(g), value)
  {
    NamesDiffer(key);
  }

  lemma OnlyNamed(key: string, before: Counters, after: Counters, s: Sample)
    ensures NamesOnly(Processed(LiveAll(key, after, s.value), CloseAll(key, before, s)), key)
  {
    assert forall g: Granularity :: Name(key, g) == Name(key, g);
    forall name | name in LiveAll(key, after, s.value) || name in CloseAll(key, before, s)
      ensures name == Name(key, Hourly) || name == Name(key, Daily) || name == Name(key, Monthly)
                || name == Name(key, Yearly) {
    }
  }

  /** The figures do not overwrite each other. */
  lemma ReportsAll(key: string, before: Counters, after: Counters, s: Sample)
    ensures Reports(Processed(LiveAll(key, after, s.value), CloseAll(key, before, s)), key, before, after, s)
  {
    OnlyNamed(key, before, after, s);
    forall g
      ensures Closes(CloseAll(key, before, s), key, before.At(g), s, g)
      ensures Name(key, g) in LiveAll(key, after, s.value)
                && LiveAll(key, after, s.value)[Name(key, g)] == Delta(after.At(g), s.value)
    {
      ClosesOne(key, before, s, g);
      LiveOne(key, after, s.value, g);
    }
  }

  /**
   * Closes a key's period if it is over. Reading an entry that is not there fails; a missing year counts as
   * one that is over.
   */
  method Roll(table: Table, key: string, s: Sample, g: Granularity, before: Closed)
    returns (ok: bool, after: Table, persisted: Closed)
    ensures SameElsewhere(after, table, key) && after.base.Keys == table.base.Keys
    ensures key in table.last ==> key in after.last
    ensures key in after.last ==> key in table.last || g == Yearly
    ensures key in table.base && (key in table.last || g == Yearly) ==>
              && ok && key in after.last
              && after.Lookup(key) == Advanced(table.Lookup(key), s, g)
              && persisted == Close(before, key, table.Get(key), s, g)
    ensures ok ==> key in table.last || g == Yearly
  {
    ok, after, persisted := false, table, before;
    if key !in table.last && g != Yearly {
      return;
    }
    if key !in table.last || Period(s.now, g) != table.last[key] {
      if key !in table.base {
        return;
      }
      persisted := persisted[Name(key, g) := (Round4(Positive(s.value - table.base[key])), StartOf(s.now, g))];
      after := table.Put(key, s.value, Period(s.now, g));
    }
    ok := true;
  }

  /** The saved state: a table for each granularity. */
  datatype State = State(hours: Table, days: Table, months: Table, years: Table) {
    function At(g: Granularity): Table {
      match g
      case Hourly => hours
      case Daily => days
      case Monthly => months
      case Yearly => years
    }

    /** The key has been read or seeded before. */
    predicate Knows(key: string) {
      key in hours.last
    }

    /** The entries a reading needs are there; a saved state may lack some. */
    predicate Complete(key: string) {
      && key in hours.last && key in hours.base && key in days.last && key in days.base
      && key in months.last && key in months.base && key in years.base
    }

    function Of(key: string): Counters {
      Counters(hours.Get(key), days.Get(key), months.Get(key), years.Get(key))
    }
  }

  const EMPTY_STATE := State(Table(map[], map[]), Table(map[], map[]), Table(map[], map[]), Table(map[], map[]))

  /** Nothing but this key's entries differs. */
  ghost predicate OnlyChanges(after: State, before: State, key: string) {
    forall g :: SameElsewhere(after.At(g), before.At(g), key)
  }

  /** The key's counters have moved on by a reading. */
  ghost predicate Moves(after: State, before: State, key: string, s: Sample) {
    after.Complete(key) && forall g :: after.Of(key).At(g) == Rolled(before.Of(key).At(g), s, g)
  }

  lemma OnlyChangesInAll(after: State, before: State, key: string)
    requires SameElsewhere(after.hours, before.hours, key) && SameElsewhere(after.days, before.days, key)
    requires SameElsewhere(after.months, before.months, key) && SameElsewhere(after.years, before.years, key)
    ensures OnlyChanges(after, before, key)
  {
    forall g ensures SameElsewhere(after.At(g), before.At(g), key) {
      match g
      case Hourly =>
      case Daily =>
      case Monthly =>
      case Yearly =>
    }
  }

  lemma GetAdvanced(after: Table, before: Table, key: string, s: Sample, g: Granularity)
    requires key in before.base && after.Lookup(key) == Advanced(before.Lookup(key), s, g)
    ensures after.Get(key) == Rolled(before.Get(key), s, g)
  {
  }

  lemma MovesInAll(after: State, before: State, key: string, s: Sample)
    requires after.Complete(key) && before.Complete(key)
    requires after.hours.Lookup(key) == Advanced(before.hours.Lookup(key), s, Hourly)
    requires after.days.Lookup(key) == Advanced(before.days.Lookup(key), s, Daily)
    requires after.months.Lookup(key) == Advanced(before.months.Lookup(key), s, Monthly)
    requires after.years.Lookup(key) == Advanced(before.years.Lookup(key), s, Yearly)
    ensures Moves(after, before, key, s)
  {
    forall g ensures after.Of(key).At(g) == Rolled(before.Of(key).At(g), s, g) {
      match g
      case Hourly => GetAdvanced(after.hours, before.hours, key, s, g);
      case Daily => GetAdvanced(after.days, before.days, key, s, g);
      case Monthly => GetAdvanced(after.months, before.months, key, s, g);
      case Yearly => GetAdvanced(after.years, before.years, key, s, g);
    }
  }

  // ---- An answer, read off the saved entries themselves ----

  /** `figure` is what a reading adds to a base, never less than 0, to four decimals. */
  ghost predicate IsDelta(figure: real, value: real, base: real) {
    IsNearest(figure, if value > base then value - base else 0.0, 10_000)
  }

  /**
   * One figure of an answer: it is persisted exactly if the stored period differs from that of the reading, with
   * the delta to the stored base and the start of the period; the reading's period is stored in any case, and the
   * live figure counts from the base that is stored then.
   */
  ghost predicate Figure(outcome: Outcome, name: string, key: string, before: Table, after: Table, value: real,
                         period: int, start: Moment) {
    && outcome.Processed? && key in before.base && key in after.base && key in after.last
    && after.last[key] == period
    && (name in outcome.persisted <==> key !in before.last || before.last[key] != period)
    && after.base[key] == (if name in outcome.persisted then value else before.base[key])
    && (name in outcome.persisted ==>
          IsDelta(outcome.persisted[name].0, value, before.base[key]) && outcome.persisted[name].1 == start)
    && name in outcome.live && IsDelta(outcome.live[name], value, after.base[key])
  }

  ghost predicate Figures(outcome: Outcome, key: string, before: State, after: State, value: real, now: Moment) {
    && Figure(outcome, key + "_hourly", key, before.hours, after.hours, value, now.hour, now)
    && Figure(outcome, key + "_daily", key, before.days, after.days, value, now.day,
              Moment(now.year, now.month, now.day, 0))
    && Figure(outcome, key + "_monthly", key, before.months, after.months, value, now.month,
              Moment(now.year, now.month, 1, 0))
    && Figure(outcome, key + "_yearly", key, before.years, after.years, value, now.year, Moment(now.year, 1, 1, 0))
    && outcome.live.Keys == {key + "_hourly", key + "_daily", key + "_monthly", key + "_yearly"}
    && outcome.persisted.Keys <= outcome.live.Keys
  }

  lemma DeltaIsDelta(c: Counter, value: real)
    ensures IsDelta(Delta(c, value), value, c.base)
  {
    Round4IsNearest(Positive(value - c.base));
  }

  lemma FigureOf(outcome: Outcome, key: string, before: State, after: State, s: Sample, g: Granularity)
    requires before.Complete(key) && Moves(after, before, key, s)
    requires Reports(outcome, key, before.Of(key), after.Of(key), s)
    ensures Figure(outcome, Name(key, g), key, before.At(g), after.At(g), s.value, Period(s.now, g), StartOf(s.now, g))
  {
    var was, now := before.Of(key).At(g), after.Of(key).At(g);
    assert now == Rolled(was, s, g) && Closes(outcome.persisted, key, was, s, g);
    DeltaIsDelta(was, s.value);
    DeltaIsDelta(now, s.value);
  }

  lemma FiguresOfAll(outcome: Outcome, key: string, before: State, after: State, s: Sample)
    requires before.Complete(key) && Moves(after, before, key, s)
    requires Reports(outcome, key, before.Of(key), after.Of(key), s)
    ensures Figures(outcome, key, before, after, s.value, s.now)
  {
    FigureOf(outcome, key, before, after, s, Hourly);
    FigureOf(outcome, key, before, after, s, Daily);
    FigureOf(outcome, key, before, after, s, Monthly);
    FigureOf(outcome, key, before, after, s, Yearly);
    FigureNames(outcome, key);
  }

  lemma FigureNames(outcome: Outcome, key: string)
    requires NamesOnly(outcome, key) && forall g :: Name(key, g) in outcome.live
    ensures outcome.live.Keys == {key + "_hourly", key + "_daily", key + "_monthly", key + "_yearly"}
    ensures outcome.persisted.Keys <= outcome.live.Keys
  {
    assert Name(key, Hourly) == key + "_hourly" && Name(key, Daily) == key + "_daily";
    assert Name(key, Monthly) == key + "_monthly" && Name(key, Yearly) == key + "_yearly";
    forall name | name in outcome.live || name in outcome.persisted
      ensures name in {key + "_hourly", key + "_daily", key + "_monthly", key + "_yearly"} {
      var g :| name == Name(key, g);
    }
  }

  /** The entries of a key that has been read once. */
  ghost predicate BeginsWith(state: State, key: string, value: real, now: Moment) {
    && key in state.hours.base && state.hours.base[key] == value && key in state.hours.last
    && key in state.days.base && state.days.base[key] == value && key in state.days.last
    && key in state.months.base && state.months.base[key] == value && key in state.months.last
    && key in state.years.base && state.years.base[key] == value && key in state.years.last
    && state.hours.last[key] == now.hour && state.days.last[key] == now.day
    && state.months.last[key] == now.month && state.years.last[key] == now.year
  }

  class CalculationEngine {
    var state: State
    var trackedKeys: set<string>

    constructor ()
      ensures trackedKeys == {} && state == EMPTY_STATE
    {
      trackedKeys, state := {}, EMPTY_STATE;
    }

    method RegisterKey(key: string, isConsumption: bool)
      modifies this`trackedKeys
      ensures trackedKeys == old(trackedKeys) + if isConsumption then {key} else {}
    {
      if isConsumption {
        trackedKeys := trackedKeys + {key};
      }
    }

    /** Takes over a saved state, entry by entry; a file from before there were yearly figures has no years. */
    method Load(saved: State)
      modifies this`state
      ensures forall g :: state.At(g) == Loaded(old(state).At(g), saved.At(g))
      ensures forall g :: Overrides(state.At(g).base, saved.At(g).base, old(state).At(g).base)
      ensures forall g :: Overrides(state.At(g).last, saved.At(g).last, old(state).At(g).last)
    {
      state := State(Loaded(state.hours, saved.hours), Loaded(state.days, saved.days),
                     Loaded(state.months, saved.months), Loaded(state.years, saved.years));
    }

    /** Sets all entries of a key. */
    method Begin(key: string, bases: Granularity -> real, now: Moment)
      modifies this`state
      ensures OnlyChanges(state, old(state), key) && state.Complete(key)
      ensures forall g :: state.At(g).Lookup(key) == Some(Counter(bases(g), Some(Period(now, g))))
    {
      ghost var before := state;
      state := State(state.hours.Put(key, bases(Hourly), now.hour), state.days.Put(key, bases(Daily), now.day),
                     state.months.Put(key, bases(Monthly), now.month), state.years.Put(key, bases(Yearly), now.year));
      OnlyChangesInAll(state, before, key);
    }

    /** Sets the bases of a key; the year starts with the base of the month. */
    method SeedState(key: string, hour: real, day: real, month: real, now: Moment)
      modifies this`state
      ensures OnlyChanges(state, old(state), key) && state.Complete(key)
      ensures state.hours.Lookup(key) == Some(Counter(hour, Some(now.hour)))
      ensures state.days.Lookup(key) == Some(Counter(day, Some(now.day)))
      ensures state.months.Lookup(key) == Some(Counter(month, Some(now.month)))
      ensures state.years.Lookup(key) == Some(Counter(month, Some(now.year)))
    {
      Begin(key, g => if g == Hourly then hour else if g == Daily then day else month, now);
      assert state.At(Hourly) == state.hours && state.At(Daily) == state.days;
      assert state.At(Monthly) == state.months && state.At(Yearly) == state.years;
    }

    /** Rolls every period over that has ended; a missing entry ends this with an exception. */
    method Update(key: string, value: real, now: Moment) returns (outcome: Outcome)
      requires state.Knows(key)
      modifies this`state
      ensures SameElsewhere(state.hours, old(state.hours), key) && SameElsewhere(state.days, old(state.days), key)
      ensures SameElsewhere(state.months, old(state.months), key) && SameElsewhere(state.years, old(state.years), key)
      ensures state.Knows(key) && (state.Complete(key) <==> old(state).Complete(key))
      ensures !state.Complete(key) ==> outcome == KeyNotFound
      ensures state.Complete(key) ==>
                && state.hours.Lookup(key) == Advanced(old(state).hours.Lookup(key), Sample(value, now), Hourly)
                && state.days.Lookup(key) == Advanced(old(state).days.Lookup(key), Sample(value, now), Daily)
                && state.months.Lookup(key) == Advanced(old(state).months.Lookup(key), Sample(value, now), Monthly)
                && state.years.Lookup(key) == Advanced(old(state).years.Lookup(key), Sample(value, now), Yearly)
                && outcome == Processed(LiveAll(key, state.Of(key), value),
                    CloseAll(key, old(state).Of(key), Sample(value, now)))
    {
      var s := Sample(value, now);
      var ok, hours, persisted := Roll(state.hours, key, s, Hourly, map[]);
      state := state.(hours := hours);
      if !ok {
        return KeyNotFound;
      }
      var days;
      ok, days, persisted := Roll(state.days, key, s, Daily, persisted);
      state := state.(days := days);
      if !ok {
        return KeyNotFound;
      }
      var months;
      ok, months, persisted := Roll(state.months, key, s, Monthly, persisted);
      state := state.(months := months);
      if !ok {
        return KeyNotFound;
      }
      var years;
      ok, years, persisted := Roll(state.years, key, s, Yearly, persisted);
      state := state.(years := years);
      if !ok || key !in hours.base || key !in days.base || key !in months.base || key !in years.base {
        return KeyNotFound;
      }
      outcome := Processed(LiveAll(key, state.Of(key), value), persisted);
    }

    /** A later reading of a key. */
    method Advance(key: string, value: real, now: Moment) returns (outcome: Outcome)
      requires state.Knows(key)
      modifies this`state
      ensures OnlyChanges(state, old(state), key)
      ensures state.Knows(key) && (state.Complete(key) <==> old(state).Complete(key))
      ensures outcome == KeyNotFound <==> !state.Complete(key)
      ensures state.Complete(key) ==>
                && Moves(state, old(state), key, Sample(value, now))
                && Reports(outcome, key, old(state).Of(key), state.Of(key), Sample(value, now))
    {
      ghost var before := state;
      outcome := Update(key, value, now);
      OnlyChangesInAll(state, before, key);
      if state.Complete(key) {
        MovesInAll(state, before, key, Sample(value, now));
        ReportsAll(key, before.Of(key), state.Of(key), Sample(value, now));
      }
    }

    /** Takes in a reading; what is no number is None. */
    method Process(key: string, raw: Option<real>, now: Moment) returns (outcome: Outcome)
      modifies this`state
      ensures OnlyChanges(state, old(state), key)
      ensures raw == None || key !in trackedKeys ==> outcome == Processed(map[], map[]) && state == old(state)
      ensures raw.Some? && key in trackedKeys && !old(state).Knows(key) ==>
                && outcome == Processed(map[], map[]) && state.Complete(key) && BeginsWith(state, key, raw.value, now)
                && forall g :: state.At(g).Lookup(key) == Some(Counter(raw.value, Some(Period(now, g))))
      ensures raw.Some? && key in trackedKeys && old(state).Knows(key) ==>
                && state.Knows(key) && (state.Complete(key) <==> old(state).Complete(key))
                && (outcome == KeyNotFound <==> !state.Complete(key))
                && (state.Complete(key) ==>
                      && Figures(outcome, key, old(state), state, raw.value, now)
                      && Moves(state, old(state), key, Sample(raw.value, now))
                      && Reports(outcome, key, old(state).Of(key), state.Of(key), Sample(raw.value, now)))
    {
      if raw == None || key !in trackedKeys {
        return Processed(map[], map[]);
      }
      var value := raw.value;
      if key !in state.hours.last {
        Begin(key, _ => value, now);
        assert state.At(Hourly).Lookup(key).Some? && state.At(Daily).Lookup(key).Some?;
        assert state.At(Monthly).Lookup(key).Some? && state.At(Yearly).Lookup(key).Some?;
        return Processed(map[], map[]);
      }
      ghost var before := state;
      outcome := Advance(key, value, now);
      if state.Complete(key) {
        FiguresOfAll(outcome, key, before, state, Sample(value, now));
      }
    }
  }

  /** Saved entries hold, all others are as before. */
  ghost predicate Overrides<V>(after: map<string, V>, saved: map<string, V>, before: map<string, V>) {
    && after.Keys == before.Keys + saved.Keys
    && forall key :: key in after ==> after[key] == if key in saved then saved[key] else before[key]
  }

  function Loaded(table: Table, saved: Table): Table {
    Table(table.base + saved.base, table.last + saved.last)
  }

  // ---- A run of readings ----

  /** What the outcomes have persisted for one granularity of the key. */
  function PersistedSum(outcomes: seq<Outcome>, key: string, g: Granularity): real {
    if outcomes == [] then 0.0
    else
      var last := outcomes[|outcomes| - 1];
      PersistedSum(outcomes[..|outcomes| - 1], key, g)
      + if last.Processed? && Name(key, g) in last.persisted then last.persisted[Name(key, g)].0 else 0.0
  }

  /** How many answers persist an entry of this name. */
  function Entries(outcomes: seq<Outcome>, name: string): nat {
    if outcomes == [] then 0
    else
      var last := outcomes[|outcomes| - 1];
      Entries(outcomes[..|outcomes| - 1], name) + if last.Processed? && name in last.persisted then 1 else 0
  }

  /** How many of these values differ from the one before them; `first` comes before all. */
  function Changes(first: Option<int>, xs: seq<int>): nat {
    if xs == [] then 0
    else
      var init := xs[..|xs| - 1];
      var previous := if init == [] then first else Some(init[|init| - 1]);
      Changes(first, init) + if previous == Some(xs[|xs| - 1]) then 0 else 1
  }

  function Periods(samples: seq<Sample>, g: Granularity): seq<int> {
    seq(|samples|, i requires 0 <= i < |samples| => Period(samples[i].now, g))
  }

  /** A counter closes as often as the period changes from one reading to the next. */
  lemma {:induction false} RolloversAreChanges(c: Counter, samples: seq<Sample>, g: Granularity)
    ensures Rollovers(c, samples, g) == Changes(c.last, Periods(samples, g))
    ensures After(c, samples, g).last == if samples == [] then c.last else Some(Period(samples[|samples| - 1].now, g))
  {
    if samples != [] {
      var init := samples[..|samples| - 1];
      RolloversAreChanges(c, init, g);
      assert Periods(samples, g)[..|samples| - 1] == Periods(init, g);
    }
  }

  /** Entries are persisted exactly where the hour, day, month or year changes from one reading to the next. */
  ghost predicate PersistsAtChanges(outcomes: seq<Outcome>, key: string, before: State, samples: seq<Sample>)
    requires before.Complete(key)
  {
    && Entries(outcomes, key + "_hourly")
         == Changes(Some(before.hours.last[key]), seq(|samples|, i requires 0 <= i < |samples| => samples[i].now.hour))
    && Entries(outcomes, key + "_daily")
         == Changes(Some(before.days.last[key]), seq(|samples|, i requires 0 <= i < |samples| => samples[i].now.day))
    && Entries(outcomes, key + "_monthly")
         == Changes(Some(before.months.last[key]),
                    seq(|samples|, i requires 0 <= i < |samples| => samples[i].now.month))
    && Entries(outcomes, key + "_yearly")
         == Changes(if key in before.years.last then Some(before.years.last[key]) else None,
                    seq(|samples|, i requires 0 <= i < |samples| => samples[i].now.year))
  }

  lemma EntriesAtChanges(before: State, after: Counters, key: string, samples: seq<Sample>, outcomes: seq<Outcome>)
    requires before.Complete(key) && RunOf(before.Of(key), after, key, samples, outcomes)
    ensures PersistsAtChanges(outcomes, key, before, samples)
  {
    forall g ensures Entries(outcomes, Name(key, g)) == Changes(before.Of(key).At(g).last, Periods(samples, g)) {
      RolloversAreChanges(before.Of(key).At(g), samples, g);
    }
    assert Periods(samples, Hourly) == seq(|samples|, i requires 0 <= i < |samples| => samples[i].now.hour);
    assert Periods(samples, Daily) == seq(|samples|, i requires 0 <= i < |samples| => samples[i].now.day);
    assert Periods(samples, Monthly) == seq(|samples|, i requires 0 <= i < |samples| => samples[i].now.month);
    assert Periods(samples, Yearly) == seq(|samples|, i requires 0 <= i < |samples| => samples[i].now.year);
    assert Name(key, Hourly) == key + "_hourly" && Name(key, Daily) == key + "_daily";
    assert Name(key, Monthly) == key + "_monthly" && Name(key, Yearly) == key + "_yearly";
  }

  /** The counters after these samples, and what has been answered to them. */
  ghost predicate RunOf(before: Counters, after: Counters, key: string, samples: seq<Sample>, outcomes: seq<Outcome>) {
    && |outcomes| == |samples|
    && (forall g :: after.At(g) == After(before.At(g), samples, g))
    && (forall g :: PersistedSum(outcomes, key, g) == Persisted(before.At(g), samples, g))
    && (forall g :: Entries(outcomes, Name(key, g)) == Rollovers(before.At(g), samples, g))
  }

  lemma RunNext(before: Counters, now: Counters, next: Counters, key: string, samples: seq<Sample>,
                outcomes: seq<Outcome>,
                s: Sample, outcome: Outcome)
    requires RunOf(before, now, key, samples, outcomes) && Reports(outcome, key, now, next, s)
    requires forall g :: next.At(g) == Rolled(now.At(g), s, g)
    ensures RunOf(before, next, key, samples + [s], outcomes + [outcome])
  {
    assert (outcomes + [outcome])[..|outcomes|] == outcomes && (samples + [s])[..|samples|] == samples;
    forall g
      ensures next.At(g) == After(before.At(g), samples + [s], g)
      ensures PersistedSum(outcomes + [outcome], key, g) == Persisted(before.At(g), samples + [s], g)
      ensures Entries(outcomes + [outcome], Name(key, g)) == Rollovers(before.At(g), samples + [s], g)
    {
      assert Closes(outcome.persisted, key, now.At(g), s, g);
    }
  }

  /** One more reading of a complete key. */
  method ProcessNext(engine: CalculationEngine, key: string, s: Sample) returns (outcome: Outcome)
    requires key in engine.trackedKeys && engine.state.Complete(key)
    modifies engine`state
    ensures engine.state.Complete(key) && LiveFigures(outcome, key, engine.state.Of(key), s.value)
    ensures Reports(outcome, key, old(engine.state).Of(key), engine.state.Of(key), s)
    ensures forall g :: engine.state.Of(key).At(g) == Rolled(old(engine.state).Of(key).At(g), s, g)
  {
    outcome := engine.Process(key, Some(s.value), s.now);
  }

  /**
   * Readings of a complete key one after the other: for every granularity, what has been persisted together with
   * the last live figure is the total of the run.
   */
  method ProcessAll(engine: CalculationEngine, key: string, samples: seq<Sample>) returns (outcomes: seq<Outcome>)
    requires key in engine.trackedKeys && engine.state.Complete(key)
    modifies engine`state
    ensures engine.state.Complete(key) && RunOf(old(engine.state).Of(key), engine.state.Of(key), key, samples, outcomes)
    ensures samples != [] ==> EndsWithTotal(old(engine.state).Of(key), key, samples, outcomes)
    ensures PersistsAtChanges(outcomes, key, old(engine.state), samples)
  {
    ghost var start := engine.state;
    ghost var before := engine.state.Of(key);
    outcomes := [];
    for i := 0 to |samples|
      invariant engine.state.Complete(key) && RunOf(before, engine.state.Of(key), key, samples[..i], outcomes)
      invariant i > 0 ==> LiveFigures(outcomes[i - 1], key, engine.state.Of(key), samples[i - 1].value)
    {
      ghost var now := engine.state.Of(key);
      var outcome := ProcessNext(engine, key, samples[i]);
      RunNext(before, now, engine.state.Of(key), key, samples[..i], outcomes, samples[i], outcome);
      outcomes := outcomes + [outcome];
      assert samples[..i + 1] == samples[..i] + [samples[i]];
    }
    assert samples[..|samples|] == samples;
    EntriesAtChanges(start, engine.state.Of(key), key, samples, outcomes);
    if samples != [] {
      TotalFromFigures(before, engine.state.Of(key), key, samples, outcomes);
    }
  }

  ghost predicate LiveFigures(outcome: Outcome, key: string, counters: Counters, value: real) {
    && outcome.Processed?
    && forall g :: Name(key, g) in outcome.live && outcome.live[Name(key, g)] == Delta(counters.At(g), value)
  }

  /** Persisted and last live figures together are the total, for every granularity. */
  ghost predicate EndsWithTotal(before: Counters, key: string, samples: seq<Sample>, outcomes: seq<Outcome>)
    requires samples != []
  {
    outcomes != [] && outcomes[|outcomes| - 1].Processed? && forall g ::
      && Name(key, g) in outcomes[|outcomes| - 1].live
      && PersistedSum(outcomes, key, g) + outcomes[|outcomes| - 1].live[Name(key, g)] == Total(before.At(g), samples, g)
  }

  lemma TotalFromFigures(before: Counters, after: Counters, key: string, samples: seq<Sample>, outcomes: seq<Outcome>)
    requires samples != [] && RunOf(before, after, key, samples, outcomes)
    requires LiveFigures(outcomes[|outcomes| - 1], key, after, samples[|samples| - 1].value)
    ensures EndsWithTotal(before, key, samples, outcomes)
  {
    forall g ensures PersistedSum(outcomes, key, g) + outcomes[|outcomes| - 1].live[Name(key, g)]
        == Total(before.At(g), samples, g) {
      assert after.At(g) == After(before.At(g), samples, g);
    }
  }

  /** A known key without some entry, such as its year, answers every reading with the exception. */
  method ProcessIncomplete(engine: CalculationEngine, key: string, samples: seq<Sample>)
    returns (outcomes: seq<Outcome>)
    requires key in engine.trackedKeys && engine.state.Knows(key) && !engine.state.Complete(key)
    modifies engine`state
    ensures |outcomes| == |samples| && forall i :: 0 <= i < |outcomes| ==> outcomes[i] == KeyNotFound
  {
    outcomes := [];
    for i := 0 to |samples|
      invariant engine.state.Knows(key) && !engine.state.Complete(key)
      invariant |outcomes| == i && forall k :: 0 <= k < i ==> outcomes[k] == KeyNotFound
    {
      var outcome := engine.Process(key, Some(samples[i].value), samples[i].now);
      outcomes := outcomes + [outcome];
    }
  }

  /** So does every key of a file from before there were yearly figures. */
  method ProcessOlderFile(key: string, saved: State, samples: seq<Sample>) returns (outcomes: seq<Outcome>)
    requires saved.Knows(key) && key !in saved.years.base
    ensures |outcomes| == |samples| && forall i :: 0 <= i < |outcomes| ==> outcomes[i] == KeyNotFound
  {
    var engine := new CalculationEngine();
    engine.RegisterKey(key, true);
    engine.Load(saved);
    assert engine.state.At(Hourly) == engine.state.hours && engine.state.At(Yearly) == engine.state.years;
    outcomes := ProcessIncomplete(engine, key, samples);
  }
}
