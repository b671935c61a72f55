/** Autarky dispatch: one source budget shared by the controllable consumers in priority order. */
module EnergyDispatch {
  import opened Wrappers
  import opened Rounding
  import opened Ordering

  const GRID_IMPORT_DEADBAND_KW := 0.2

  function SupplyPart(kw: real, deadband: real): real {
    if kw > deadband then kw else 0.0
  }

  datatype Sources = Sources(hasBattery: bool, batteryMinSocPct: real, batteryMaxDischargeKw: real)

  /** Source headroom; without a battery there is no limit. */
  datatype Budget = Unlimited | Limited(kw: real)

  function Headroom(sources: Option<Sources>, pvKw: real, batteryKw: real, socPct: real): (b: Budget)
    ensures b.Limited? ==> b.kw >= 0.0
  {
    if sources.Some? && sources.value.hasBattery then
      var discharge := SupplyPart(batteryKw, GRID_IMPORT_DEADBAND_KW);
      var battery := if socPct > sources.value.batteryMinSocPct
                     then Positive(sources.value.batteryMaxDischargeKw - discharge) else 0.0;
      Limited(SupplyPart(pvKw, GRID_IMPORT_DEADBAND_KW) + battery)
    else Unlimited
  }

  /** Configuration, measured power and last allocation of one consumer. */
  datatype Load = Load(
    basePower: real, hasOptionalTier: bool, maxOptional: real, minOptional: real, standbyOptional: real,
    rampPercent: real, maxPower: real, priority: int, actualPower: real, allocatedOptional: real)

  predicate Controllable(l: Load) {
    l.hasOptionalTier && l.maxOptional > 0.0
  }

  function Guaranteed(l: Load): real {
    Min(Positive(l.minOptional), Positive(l.maxOptional))
  }

  predicate Demanding(l: Load) {
    Positive(l.actualPower - l.basePower) > Max(0.1, l.standbyOptional)
  }

  function PhysicalMax(l: Load): real {
    Min(l.maxOptional, Positive(l.maxPower - l.basePower))
  }

  /** What the ramp adds in one cycle. */
  function RampStep(l: Load): real {
    PhysicalMax(l) * Positive(l.rampPercent) / 100.0
  }

  function Requested(l: Load): real {
    var g := Guaranteed(l);
    if !Demanding(l) then g
    else if l.allocatedOptional >= g && (l.allocatedOptional > 0.0 || g > 0.0) then l.allocatedOptional + RampStep(l)
    else if g > 0.0 then g
    else RampStep(l)
  }

  /** The most a consumer can be granted this cycle. */
  function Cap(l: Load): real {
    Min(PhysicalMax(l), Requested(l))
  }

  lemma CapNonNegative(l: Load)
    requires Controllable(l)
    ensures 0.0 <= Cap(l) <= PhysicalMax(l)
  {
    assert RampStep(l) >= 0.0 by {
      ProductNonNegative(PhysicalMax(l), Positive(l.rampPercent));
    }
  }

  lemma ProductNonNegative(a: real, b: real)
    requires a >= 0.0 && b >= 0.0
    ensures a * b >= 0.0
  {
  }

  // ---- Sharing the budget ----

  function Sum(xs: seq<real>): real {
    if xs == [] then 0.0 else Sum(xs[..|xs| - 1]) + xs[|xs| - 1]
  }

  /** The headroom left when the consumers with these caps have been served one after the other. */
  function Remaining(b: Budget, caps: seq<real>): Budget {
    if b.Unlimited? || caps == [] then b
    else
      var left := Remaining(b, caps[..|caps| - 1]).kw;
      Limited(Positive(left - Min(caps[|caps| - 1], left)))
  }

  function Grant(b: Budget, cap: real): real {
    if b.Unlimited? then cap else Min(cap, b.kw)
  }

  function Grants(b: Budget, caps: seq<real>): (gs: seq<real>)
    ensures |gs| == |caps|
  {
    if caps == [] then []
    else Grants(b, caps[..|caps| - 1]) + [Grant(Remaining(b, caps[..|caps| - 1]), caps[|caps| - 1])]
  }

  ghost predicate NonNegative(xs: seq<real>) {
    forall i :: 0 <= i < |xs| ==> xs[i] >= 0.0
  }

  lemma {:induction false} SumNonNegative(xs: seq<real>)
    requires NonNegative(xs)
    ensures Sum(xs) >= 0.0
  {
    if xs != [] {
      SumNonNegative(xs[..|xs| - 1]);
    }
  }

  /**
   * Closed form: the grants to any number of consumers sum to the smaller of the headroom and
   * their caps, and what is left is the rest of the headroom.
   */
  lemma {:induction false} GrantsClosedForm(headroom: real, caps: seq<real>)
    requires headroom >= 0.0 && NonNegative(caps)
    ensures Sum(Grants(Limited(headroom), caps)) == Min(headroom, Sum(caps))
    ensures Remaining(Limited(headroom), caps) == Limited(headroom - Min(headroom, Sum(caps)))
  {
    if caps != [] {
      var init := caps[..|caps| - 1];
      GrantsClosedForm(headroom, init);
      SumNonNegative(init);
      var gs := Grants(Limited(headroom), caps);
      assert gs[..|gs| - 1] == Grants(Limited(headroom), init);
    }
  }

  lemma {:induction false} SumRemove(xs: seq<real>, i: nat)
    requires i < |xs|
    ensures Sum(xs) == Sum(xs[..i] + xs[i + 1..]) + xs[i]
  {
    var rest := xs[..i] + xs[i + 1..];
    if i == |xs| - 1 {
      assert rest == xs[..i];
    } else {
      var init := xs[..|xs| - 1];
      SumRemove(init, i);
      assert rest[..|rest| - 1] == init[..i] + init[i + 1..];
    }
  }

  lemma {:induction false} SumPermutation(xs: seq<real>, ys: seq<real>)
    requires multiset(xs) == multiset(ys)
    ensures Sum(xs) == Sum(ys)
  {
    if xs == [] {
      assert |multiset(ys)| == 0;
    } else {
      var i := WithoutLast(xs, ys);
      SumRemove(ys, i);
      SumPermutation(xs[..|xs| - 1], ys[..i] + ys[i + 1..]);
    }
  }

  /** The total that is handed out does not depend on the order of the consumers. */
  lemma TotalIndependentOfOrder(b: Budget, caps: seq<real>, caps': seq<real>)
    requires multiset(caps) == multiset(caps')
    requires b.Limited? ==> b.kw >= 0.0
    requires NonNegative(caps)
    ensures Sum(Grants(b, caps)) == Sum(Grants(b, caps'))
  {
    forall i | 0 <= i < |caps'| ensures caps'[i] >= 0.0 {
      assert caps'[i] in multiset(caps);
    }
    SumPermutation(caps, caps');
    if b.Limited? {
      GrantsClosedForm(b.kw, caps);
      GrantsClosedForm(b.kw, caps');
    } else {
      UnlimitedGrants(caps);
      UnlimitedGrants(caps');
    }
  }

  lemma {:induction false} UnlimitedGrants(caps: seq<real>)
    ensures Grants(Unlimited, caps) == caps
  {
    if caps != [] {
      UnlimitedGrants(caps[..|caps| - 1]);
    }
  }

  lemma {:induction false} GrantAt(b: Budget, caps: seq<real>, i: nat)
    requires i < |caps|
    ensures Grants(b, caps)[i] == Grant(Remaining(b, caps[..i]), caps[i])
  {
    if i < |caps| - 1 {
      GrantAt(b, caps[..|caps| - 1], i);
      assert caps[..|caps| - 1][..i] == caps[..i];
    }
  }

  lemma {:induction false} SumPrefix(xs: seq<real>, i: nat)
    requires i <= |xs| && NonNegative(xs)
    ensures Sum(xs[..i]) <= Sum(xs)
  {
    if i == |xs| {
      assert xs[..i] == xs;
    } else {
      SumPrefix(xs[..|xs| - 1], i);
      assert xs[..|xs| - 1][..i] == xs[..i];
    }
  }

  /** What a consumer gets, from the caps before it. */
  lemma GrantFromPrefix(headroom: real, caps: seq<real>, i: nat)
    requires headroom >= 0.0 && NonNegative(caps) && i < |caps|
    ensures Grants(Limited(headroom), caps)[i] == Min(caps[i], headroom - Min(headroom, Sum(caps[..i])))
  {
    GrantAt(Limited(headroom), caps, i);
    GrantsClosedForm(headroom, caps[..i]);
  }

  lemma SumNext(xs: seq<real>, i: nat)
    requires i < |xs|
    ensures Sum(xs[..i + 1]) == Sum(xs[..i]) + xs[i]
  {
    assert xs[..i + 1][..i] == xs[..i];
  }

  lemma PrefixesGrow(caps: seq<real>, i: nat, j: nat)
    requires NonNegative(caps) && i <= j <= |caps|
    ensures Sum(caps[..i]) <= Sum(caps[..j])
  {
    SumPrefix(caps[..j], i);
    assert caps[..j][..i] == caps[..i];
  }

  /** When a consumer gets less than its cap, everybody after it gets nothing. */
  lemma ShortChangedLeavesNothing(headroom: real, caps: seq<real>, i: nat, j: nat)
    requires headroom >= 0.0 && NonNegative(caps) && i < j < |caps|
    requires Grants(Limited(headroom), caps)[i] < caps[i]
    ensures Grants(Limited(headroom), caps)[j] == 0.0
  {
    var before, later := Sum(caps[..i]), Sum(caps[..j]);
    assert before + caps[i] <= later by {
      SumNext(caps, i);
      PrefixesGrow(caps, i + 1, j);
    }
    GrantFromPrefix(headroom, caps, i);
    GrantFromPrefix(headroom, caps, j);
    SpentBefore(headroom, before, caps[i], later, caps[j]);
  }

  lemma SpentBefore(headroom: real, before: real, cap: real, later: real, laterCap: real)
    requires before + cap <= later && laterCap >= 0.0
    requires Min(cap, headroom - Min(headroom, before)) < cap
    ensures Min(laterCap, headroom - Min(headroom, later)) == 0.0
  {
  }

  function Rounded(xs: seq<real>): seq<real> {
    seq(|xs|, i requires 0 <= i < |xs| => Round2(xs[i]))
  }

  lemma {:induction false} RoundedSum(xs: seq<real>)
    ensures Sum(xs) - 0.005 * |xs| as real <= Sum(Rounded(xs)) <= Sum(xs) + 0.005 * |xs| as real
  {
    if xs != [] {
      RoundedSum(xs[..|xs| - 1]);
      assert Rounded(xs)[..|xs| - 1] == Rounded(xs[..|xs| - 1]);
    }
  }

  /** The rounded allocations exceed the headroom by at most half a hundredth per consumer. */
  lemma RoundedAllocationsWithinHeadroom(headroom: real, caps: seq<real>)
    requires headroom >= 0.0 && NonNegative(caps)
    ensures Sum(Rounded(Grants(Limited(headroom), caps))) <= Min(headroom, Sum(caps)) + 0.005 * |caps| as real
    ensures Sum(Rounded(Grants(Limited(headroom), caps))) >= Min(headroom, Sum(caps)) - 0.005 * |caps| as real
  {
    GrantsClosedForm(headroom, caps);
    RoundedSum(Grants(Limited(headroom), caps));
  }

  // ---- The dispatch cycle ----

  datatype Status =
    | Idle
    | UncontrollableLoad
    | CurtailedToMinimum
    | Curtailed
    | SourceLimited
    | Unrestricted
    | Ready

  /** What a cycle decides for one consumer. */
  datatype Allocation = Allocation(optional: real, power: real, unused: real, demanding: bool, status: Status)

  function UncontrollableAllocation(l: Load): Allocation {
    Allocation(0.0, Max(l.basePower, l.actualPower), 0.0, false, UncontrollableLoad)
  }

  function CurtailedAllocation(l: Load): Allocation {
    var g := Guaranteed(l);
    Allocation(Round2(g), Round2(l.basePower + g), 0.0, Demanding(l), if g > 0.0 then CurtailedToMinimum else Curtailed)
  }

  function AutarkyAllocation(l: Load, available: Budget): Allocation {
    var granted := Grant(available, Cap(l));
    var limited := granted < PhysicalMax(l) && available.Limited? && available.kw < PhysicalMax(l);
    Allocation(Round2(granted), Round2(l.basePower + granted), 0.0, Demanding(l),
               if limited then SourceLimited else if Demanding(l) then Unrestricted else Ready)
  }

  predicate Curtailing(gridKw: real) {
    SupplyPart(gridKw, 0.0) > GRID_IMPORT_DEADBAND_KW
  }

  function PriorityAt(loads: seq<Load>, i: int): int {
    if 0 <= i < |loads| then loads[i].priority else 0
  }

  /** The indices of the controllable consumers, in list order. */
  function ControllableIndices(loads: seq<Load>): (r: seq<int>)
    ensures forall i :: i in r <==> 0 <= i < |loads| && Controllable(loads[i])
  {
    if loads == [] then []
    else
      var n := |loads| - 1;
      ControllableIndices(loads[..n]) + if Controllable(loads[n]) then [n] else []
  }

  lemma {:induction false} ControllableIndicesDistinct(loads: seq<Load>)
    ensures Distinct(ControllableIndices(loads))
  {
    if loads != [] {
      var init := loads[..|loads| - 1];
      ControllableIndicesDistinct(init);
      assert |loads| - 1 !in ControllableIndices(init);
    }
  }

  /** `controllable.OrderBy(c => c.Priority)` */
  function DispatchOrder(loads: seq<Load>): seq<int> {
    StableSort(ControllableIndices(loads), i => PriorityAt(loads, i))
  }

  function CapAt(loads: seq<Load>, i: int): real {
    if 0 <= i < |loads| then Cap(loads[i]) else 0.0
  }

  /** The caps of the consumers in dispatch order. */
  function CapsInOrder(loads: seq<Load>, order: seq<int>): seq<real> {
    seq(|order|, n requires 0 <= n < |order| => CapAt(loads, order[n]))
  }

  class EnergyConsumer {
    var basePowerKw: real
    var hasOptionalTier: bool
    var maxOptionalKw: real
    var minOptionalKw: real
    var standbyOptionalKw: real
    var rampPercentPerCycle: real
    var maxPowerKw: real
    var priority: int
    var actualPowerKw: real

    var isActivelyDemanding: bool
    var allocatedOptionalKw: real
    var allocatedPowerKw: real
    var unusedPowerKw: real
    var status: Status

    function Snapshot(): Load
      reads this
    {
      Load(basePowerKw, hasOptionalTier, maxOptionalKw, minOptionalKw, standbyOptionalKw, rampPercentPerCycle,
           maxPowerKw, priority, actualPowerKw, allocatedOptionalKw)
    }

    function Decision(): Allocation
      reads this
    {
      Allocation(allocatedOptionalKw, allocatedPowerKw, unusedPowerKw, isActivelyDemanding, status)
    }
  }

  function Snapshots(consumers: seq<EnergyConsumer>): (r: seq<Load>)
    reads consumers
    ensures |r| == |consumers| && forall i :: 0 <= i < |r| ==> r[i] == consumers[i].Snapshot()
  {
    seq(|consumers|, i requires 0 <= i < |consumers| reads consumers => consumers[i].Snapshot())
  }

  function Optionals(consumers: seq<EnergyConsumer>): (r: seq<real>)
    reads consumers
    ensures |r| == |consumers| && forall i :: 0 <= i < |r| ==> r[i] == consumers[i].allocatedOptionalKw
  {
    seq(|consumers|, i requires 0 <= i < |consumers| reads consumers => consumers[i].allocatedOptionalKw)
  }

  /** Uncontrollable consumers are settled first; the indices of the others are collected. */
  method Classify(consumers: seq<EnergyConsumer>) returns (controllable: seq<int>)
    requires Distinct(consumers)
    modifies consumers`allocatedOptionalKw, consumers`allocatedPowerKw, consumers`unusedPowerKw,
             consumers`isActivelyDemanding, consumers`status
    ensures controllable == ControllableIndices(old(Snapshots(consumers)))
    ensures forall i :: 0 <= i < |consumers| ==>
      if Controllable(old(consumers[i].Snapshot())) then consumers[i].Snapshot() == old(consumers[i].Snapshot())
      else consumers[i].Decision() == UncontrollableAllocation(old(consumers[i].Snapshot()))
  {
    ghost var loads := Snapshots(consumers);
    controllable := [];
    for n := 0 to |consumers|
      invariant controllable == ControllableIndices(loads[..n])
      invariant forall i :: n <= i < |consumers| ==> consumers[i].Snapshot() == loads[i]
      invariant forall i :: 0 <= i < n ==>
        if Controllable(loads[i]) then consumers[i].Snapshot() == loads[i]
        else consumers[i].Decision() == UncontrollableAllocation(loads[i])
    {
      var c := consumers[n];
      assert loads[..n + 1][..n] == loads[..n];
      if !c.hasOptionalTier || c.maxOptionalKw <= 0.0 {
        c.allocatedOptionalKw := 0.0;
        c.allocatedPowerKw := Max(c.basePowerKw, c.actualPowerKw);
        c.unusedPowerKw := 0.0;
        c.isActivelyDemanding := false;
        c.status := UncontrollableLoad;
      } else {
        controllable := controllable + [n];
      }
    }
    assert loads[..|loads|] == loads;
  }

  /** The dispatch order names every controllable consumer exactly once. */
  lemma DispatchOrderNamesControllable(loads: seq<Load>)
    ensures Distinct(DispatchOrder(loads))
    ensures forall i :: i in DispatchOrder(loads) <==> 0 <= i < |loads| && Controllable(loads[i])
  {
    var listed, order := ControllableIndices(loads), DispatchOrder(loads);
    ControllableIndicesDistinct(loads);
    forall i ensures i in order <==> i in listed {
      assert i in order <==> i in multiset(order);
      assert i in listed <==> i in multiset(listed);
    }
    DistinctPermutation(listed, order);
  }

  /** The decision for the n-th controllable consumer in dispatch order. */
  function ControllableAllocation(l: Load, curtail: bool, available: Budget): Allocation {
    if curtail then CurtailedAllocation(l) else AutarkyAllocation(l, available)
  }

  /** What one consumer leaves of the budget; curtailment leaves it alone. */
  function BudgetAfter(available: Budget, cap: real, curtail: bool): Budget {
    if curtail || available.Unlimited? then available
    else Limited(Positive(available.kw - Min(cap, available.kw)))
  }

  /** Budget the n-th consumer in dispatch order finds. */
  function BudgetAt(b: Budget, loads: seq<Load>, order: seq<int>, n: nat): Budget
    requires n <= |order|
  {
    Remaining(b, CapsInOrder(loads, order)[..n])
  }

  lemma {:induction false} SortByEqualKeys(xs: seq<int>, f: int -> int, g: int -> int)
    requires forall x :: f(x) == g(x)
    ensures StableSort(xs, f) == StableSort(xs, g)
  {
    if xs != [] {
      SortByEqualKeys(xs[..|xs| - 1], f, g);
      InsertByEqualKeys(StableSort(xs[..|xs| - 1], f), xs[|xs| - 1], f, g);
    }
  }

  lemma {:induction false} InsertByEqualKeys(xs: seq<int>, x: int, f: int -> int, g: int -> int)
    requires forall x :: f(x) == g(x)
    ensures Insert(xs, x, f) == Insert(xs, x, g)
  {
    if xs != [] {
      InsertByEqualKeys(xs[..|xs| - 1], x, f, g);
    }
  }

  /** `controllable.OrderBy(c => c.Priority)` on the consumers themselves. */
  method Prioritize(consumers: seq<EnergyConsumer>, controllable: seq<int>, ghost loads: seq<Load>)
    returns (queue: seq<EnergyConsumer>)
    requires Distinct(consumers) && |loads| == |consumers| && controllable == ControllableIndices(loads)
    requires forall i :: 0 <= i < |consumers| ==> consumers[i].priority == loads[i].priority
    ensures var order := DispatchOrder(loads);
            && |queue| == |order|
            && forall n :: 0 <= n < |order| ==>
                 0 <= order[n] < |consumers| && Controllable(loads[order[n]]) && queue[n] == consumers[order[n]]
    ensures Distinct(queue)
    ensures forall i :: 0 <= i < |consumers| && consumers[i] in queue ==> Controllable(loads[i])
  {
    var priorities: seq<int> :=
      seq(|consumers|, i requires 0 <= i < |consumers| reads consumers => consumers[i].priority);
    var order := StableSort(controllable, i => if 0 <= i < |priorities| then priorities[i] else 0);
    assert order == DispatchOrder(loads) by {
      SortByEqualKeys(controllable, i => PriorityAt(loads, i), i => if 0 <= i < |priorities| then priorities[i] else 0);
    }
    DispatchOrderNamesControllable(loads);
    forall n | 0 <= n < |order| ensures 0 <= order[n] < |consumers| && Controllable(loads[order[n]]) {
      assert order[n] in order;
    }
    queue := seq(|order|, n requires 0 <= n < |order| => consumers[order[n]]);
    forall i | 0 <= i < |consumers| && consumers[i] in queue ensures Controllable(loads[i]) {
      var n :| 0 <= n < |queue| && queue[n] == consumers[i];
      assert order[n] == i;
    }
  }

  /** Caps of the loads themselves, in order. */
  function Caps(loads: seq<Load>): seq<real> {
    seq(|loads|, n requires 0 <= n < |loads| => Cap(loads[n]))
  }

  method RequestedOf(c: EnergyConsumer, guaranteed: real, physicalMax: real) returns (requested: real)
    requires c.isActivelyDemanding == Demanding(c.Snapshot())
    requires guaranteed == Guaranteed(c.Snapshot()) && physicalMax == PhysicalMax(c.Snapshot())
    ensures requested == Requested(c.Snapshot())
  {
    requested := guaranteed;
    if c.isActivelyDemanding {
      var step := physicalMax * Positive(c.rampPercentPerCycle) / 100.0;
      requested :=
        if c.allocatedOptionalKw >= guaranteed && (c.allocatedOptionalKw > 0.0 || guaranteed > 0.0)
        then c.allocatedOptionalKw + step
        else if guaranteed > 0.0 then guaranteed else step;
    }
  }

  /** Uncurtailed: takes what the consumer asks for out of the shared budget, as far as it lasts. */
  method Serve(c: EnergyConsumer, guaranteed: real, available: Budget) returns (remaining: Budget)
    requires c.isActivelyDemanding == Demanding(c.Snapshot()) && guaranteed == Guaranteed(c.Snapshot())
    modifies c`allocatedOptionalKw, c`allocatedPowerKw, c`unusedPowerKw, c`status
    ensures c.Decision() == AutarkyAllocation(old(c.Snapshot()), available)
    ensures remaining == BudgetAfter(available, Cap(old(c.Snapshot())), false)
  {
    var physicalMax := Min(c.maxOptionalKw, Positive(c.maxPowerKw - c.basePowerKw));
    var requested := RequestedOf(c, guaranteed, physicalMax);
    var maxOpt := Min(physicalMax, requested);
    remaining := available;
    if available.Limited? {
      maxOpt := Min(maxOpt, available.kw);
      remaining := Limited(Positive(available.kw - maxOpt));
    }
    c.allocatedOptionalKw := Round2(maxOpt);
    c.allocatedPowerKw := Round2(c.basePowerKw + maxOpt);
    c.unusedPowerKw := 0.0;
    var sourceLimited := maxOpt < physicalMax && available.Limited? && available.kw < physicalMax;
    c.status := if sourceLimited then SourceLimited else if c.isActivelyDemanding then Unrestricted else Ready;
  }

  /** The body of the dispatch loop for one controllable consumer. */
  method DispatchOne(c: EnergyConsumer, curtail: bool, available: Budget) returns (remaining: Budget)
    modifies c`allocatedOptionalKw, c`allocatedPowerKw, c`unusedPowerKw, c`isActivelyDemanding, c`status
    ensures c.Decision() == ControllableAllocation(old(c.Snapshot()), curtail, available)
    ensures remaining == BudgetAfter(available, Cap(old(c.Snapshot())), curtail)
  {
    var actualOpt := Positive(c.actualPowerKw - c.basePowerKw);
    c.isActivelyDemanding := actualOpt > Max(0.1, c.standbyOptionalKw);
    var guaranteed := Min(Positive(c.minOptionalKw), Positive(c.maxOptionalKw));
    if curtail {
      c.allocatedOptionalKw := Round2(guaranteed);
      c.allocatedPowerKw := Round2(c.basePowerKw + guaranteed);
      c.unusedPowerKw := 0.0;
      c.status := if guaranteed > 0.0 then CurtailedToMinimum else Curtailed;
      return available;
    }
    remaining := Serve(c, guaranteed, available);
  }

  /** Serves the controllable consumers one after the other. */
  method DispatchQueue(queue: seq<EnergyConsumer>, ghost loads: seq<Load>, curtail: bool, headroom: Budget)
    requires Distinct(queue) && |loads| == |queue|
    requires forall n :: 0 <= n < |queue| ==> queue[n].Snapshot() == loads[n]
    modifies queue`allocatedOptionalKw, queue`allocatedPowerKw, queue`unusedPowerKw, queue`isActivelyDemanding,
               queue`status
    ensures forall n :: 0 <= n < |queue| ==>
      queue[n].Decision() == ControllableAllocation(loads[n], curtail, Remaining(headroom, Caps(loads)[..n]))
  {
    var remaining := headroom;
    for n := 0 to |queue|
      invariant remaining == if curtail then headroom else Remaining(headroom, Caps(loads)[..n])
      invariant forall m :: n <= m < |queue| ==> queue[m].Snapshot() == loads[m]
      invariant forall m :: 0 <= m < n ==>
        queue[m].Decision() == ControllableAllocation(loads[m], curtail, Remaining(headroom, Caps(loads)[..m]))
    {
      assert Caps(loads)[..n + 1][..n] == Caps(loads)[..n];
      remaining := DispatchOne(queue[n], curtail, remaining);
    }
  }

  /** The two loops over the consumers. */
  method Allocate(consumers: seq<EnergyConsumer>, curtail: bool, headroom: Budget)
    requires Distinct(consumers)
    modifies consumers`allocatedOptionalKw, consumers`allocatedPowerKw, consumers`unusedPowerKw,
             consumers`isActivelyDemanding, consumers`status
    ensures forall i :: 0 <= i < |consumers| && !Controllable(old(consumers[i].Snapshot())) ==>
      consumers[i].Decision() == UncontrollableAllocation(old(consumers[i].Snapshot()))
    ensures var loads := old(Snapshots(consumers));
            var order := DispatchOrder(loads);
            forall n :: 0 <= n < |order| && 0 <= order[n] < |consumers| ==>
              consumers[order[n]].Decision() ==
              ControllableAllocation(loads[order[n]], curtail, BudgetAt(headroom, loads, order, n))
  {
    ghost var loads := Snapshots(consumers);
    var controllable := Classify(consumers);
    var queue := Prioritize(consumers, controllable, loads);
    ghost var order := DispatchOrder(loads);
    ghost var queued := seq(|order|, n requires 0 <= n < |order| => loads[order[n]]);
    assert Caps(queued) == CapsInOrder(loads, order);
    DispatchQueue(queue, queued, curtail, headroom);
  }

  // ---- What a cycle hands out ----

  lemma CapsAreNonNegative(loads: seq<Load>)
    ensures NonNegative(CapsInOrder(loads, DispatchOrder(loads)))
  {
    var order := DispatchOrder(loads);
    DispatchOrderNamesControllable(loads);
    forall n | 0 <= n < |order| ensures CapAt(loads, order[n]) >= 0.0 {
      assert order[n] in order;
      CapNonNegative(loads[order[n]]);
    }
  }

  /** The allocation of the n-th consumer of an uncurtailed cycle is its rounded grant. */
  lemma AllocationIsRoundedGrant(loads: seq<Load>, headroom: real, k: nat, n: nat)
    requires n < k <= |DispatchOrder(loads)|
    ensures var order := DispatchOrder(loads);
            0 <= order[n] < |loads| ==>
              AutarkyAllocation(loads[order[n]], BudgetAt(Limited(headroom), loads, order, n)).optional
              == Round2(Grants(Limited(headroom), CapsInOrder(loads, order)[..k])[n])
  {
    var order := DispatchOrder(loads);
    var caps := CapsInOrder(loads, order)[..k];
    GrantAt(Limited(headroom), caps, n);
    assert caps[..n] == CapsInOrder(loads, order)[..n];
    assert caps[n] == CapAt(loads, order[n]);
  }

  /**
   * The allocations of an uncurtailed cycle are the rounded grants, and for every k the grants to
   * the first k consumers in priority order sum to min(headroom, sum of their caps).
   */
  lemma CycleSharesHeadroom(loads: seq<Load>, headroom: real, k: nat)
    requires headroom >= 0.0 && k <= |DispatchOrder(loads)|
    ensures var order := DispatchOrder(loads);
            var caps := CapsInOrder(loads, order)[..k];
            && Sum(Grants(Limited(headroom), caps)) == Min(headroom, Sum(caps))
            && forall n :: 0 <= n < k && 0 <= order[n] < |loads| ==>
                 AutarkyAllocation(loads[order[n]], BudgetAt(Limited(headroom), loads, order, n)).optional
                 == Round2(Grants(Limited(headroom), caps)[n])
  {
    var order := DispatchOrder(loads);
    CapsAreNonNegative(loads);
    GrantsClosedForm(headroom, CapsInOrder(loads, order)[..k]);
    forall n | 0 <= n < k {
      AllocationIsRoundedGrant(loads, headroom, k, n);
    }
  }

  // ---- What all consumers together are allocated ----

  /** The sum of the entries at these places. */
  function SumAt(places: seq<int>, xs: seq<real>): real {
    if places == [] then 0.0
    else
      var last := places[|places| - 1];
      SumAt(places[..|places| - 1], xs) + if 0 <= last < |xs| then xs[last] else 0.0
  }

  lemma {:induction false} SumAtRemove(places: seq<int>, i: nat, xs: seq<real>)
    requires i < |places|
    ensures SumAt(places, xs)
              == SumAt(places[..i] + places[i + 1..], xs) + if 0 <= places[i] < |xs| then xs[places[i]] else 0.0
  {
    var rest := places[..i] + places[i + 1..];
    if i == |places| - 1 {
      assert rest == places[..i];
    } else {
      var init := places[..|places| - 1];
      SumAtRemove(init, i, xs);
      assert rest[..|rest| - 1] == init[..i] + init[i + 1..];
    }
  }

  lemma {:induction false} SumAtPermutation(a: seq<int>, b: seq<int>, xs: seq<real>)
    requires multiset(a) == multiset(b)
    ensures SumAt(a, xs) == SumAt(b, xs)
  {
    if a == [] {
      assert |multiset(b)| == 0;
    } else {
      var i := WithoutLast(a, b);
      SumAtRemove(b, i, xs);
      SumAtPermutation(a[..|a| - 1], b[..i] + b[i + 1..], xs);
    }
  }

  lemma {:induction false} SumAtLonger(places: seq<int>, xs: seq<real>, x: real)
    requires forall i :: i in places ==> 0 <= i < |xs|
    ensures SumAt(places, xs + [x]) == SumAt(places, xs)
  {
    if places != [] {
      var init, last := places[..|places| - 1], places[|places| - 1];
      assert places == init + [last];
      assert last in places && forall i :: i in init ==> i in places;
      SumAtLonger(init, xs, x);
    }
  }

  /** Where the others get nothing, the sum of all entries is that of the controllable consumers. */
  lemma {:induction false} SumOfControllable(loads: seq<Load>, xs: seq<real>)
    requires |xs| == |loads| && forall i :: 0 <= i < |xs| && !Controllable(loads[i]) ==> xs[i] == 0.0
    ensures Sum(xs) == SumAt(ControllableIndices(loads), xs)
  {
    if xs != [] {
      var n := |xs| - 1;
      var init := ControllableIndices(loads[..n]);
      SumOfControllable(loads[..n], xs[..n]);
      SumAtLonger(init, xs[..n], xs[n]);
      assert xs == xs[..n] + [xs[n]];
      if Controllable(loads[n]) {
        assert (init + [n])[..|init|] == init;
      } else {
        assert init + [] == init;
      }
    }
  }

  lemma {:induction false} SumAtIsSum(places: seq<int>, xs: seq<real>, ys: seq<real>)
    requires |ys| == |places| && forall n :: 0 <= n < |places| ==> 0 <= places[n] < |xs| && xs[places[n]] == ys[n]
    ensures SumAt(places, xs) == Sum(ys)
  {
    if places != [] {
      SumAtIsSum(places[..|places| - 1], xs, ys[..|ys| - 1]);
    }
  }

  /** `given` lists what an uncurtailed cycle allocates to each consumer. */
  ghost predicate IsCycle(loads: seq<Load>, headroom: real, given: seq<real>) {
    && |given| == |loads|
    && (forall i :: 0 <= i < |loads| && !Controllable(loads[i]) ==> given[i] == 0.0)
    && var order := DispatchOrder(loads);
       forall n :: 0 <= n < |order| && 0 <= order[n] < |loads| ==>
         given[order[n]] == AutarkyAllocation(loads[order[n]], BudgetAt(Limited(headroom), loads, order, n)).optional
  }

  lemma GivenInOrder(loads: seq<Load>, headroom: real, given: seq<real>, n: nat)
    requires IsCycle(loads, headroom, given) && n < |DispatchOrder(loads)|
    ensures var order := DispatchOrder(loads);
            0 <= order[n] < |loads| && given[order[n]]
                == Rounded(Grants(Limited(headroom), CapsInOrder(loads, order)))[n]
  {
    var order := DispatchOrder(loads);
    DispatchOrderNamesControllable(loads);
    assert order[n] in order;
    AllocationIsRoundedGrant(loads, headroom, |order|, n);
    assert CapsInOrder(loads, order)[..|order|] == CapsInOrder(loads, order);
  }

  /** All that an uncurtailed cycle allocates exceeds the headroom by at most half a hundredth per consumer. */
  lemma CycleWithinHeadroom(loads: seq<Load>, headroom: real, given: seq<real>)
    requires headroom >= 0.0 && IsCycle(loads, headroom, given)
    ensures var order := DispatchOrder(loads);
            && Sum(given) <= Min(headroom, Sum(CapsInOrder(loads, order))) + 0.005 * |order| as real
            && Sum(given) >= Min(headroom, Sum(CapsInOrder(loads, order))) - 0.005 * |order| as real
  {
    var order := DispatchOrder(loads);
    var rounded := Rounded(Grants(Limited(headroom), CapsInOrder(loads, order)));
    SumOfControllable(loads, given);
    SumAtPermutation(ControllableIndices(loads), order, given);
    forall n | 0 <= n < |order| ensures 0 <= order[n] < |given| && given[order[n]] == rounded[n] {
      GivenInOrder(loads, headroom, given, n);
    }
    SumAtIsSum(order, given, rounded);
    CapsAreNonNegative(loads);
    RoundedAllocationsWithinHeadroom(headroom, CapsInOrder(loads, order));
  }

  /** Lower priority numbers come first, equal ones in list order. */
  lemma DispatchOrderIsStable(loads: seq<Load>, priority: int)
    ensures SortedBy(DispatchOrder(loads), i => PriorityAt(loads, i))
    ensures Equals(DispatchOrder(loads), i => PriorityAt(loads, i), priority)
         == Equals(ControllableIndices(loads), i => PriorityAt(loads, i), priority)
  {
    StableSortKeepsOrder(ControllableIndices(loads), i => PriorityAt(loads, i), priority);
  }

  // ---- The outcome in the measured and configured quantities ----

  /** The guaranteed minimum of a consumer with an optional tier. */
  ghost function LeastKw(l: Load): real {
    if l.minOptional <= 0.0 || l.maxOptional <= 0.0 then 0.0
    else if l.minOptional < l.maxOptional then l.minOptional
    else l.maxOptional
  }

  /** The most its optional tier can draw. */
  ghost function MostKw(l: Load): real {
    var room := if l.maxPower > l.basePower then l.maxPower - l.basePower else 0.0;
    if l.maxOptional < room then l.maxOptional else room
  }

  /** It draws visibly more than its base. */
  ghost predicate Draws(l: Load) {
    l.actualPower - l.basePower > 0.1 && l.actualPower - l.basePower > l.standbyOptional
  }

  /** What it may have this cycle: its minimum, or a step more than last time, but never more than it can draw. */
  ghost function WantedKw(l: Load): real {
    var step := if l.rampPercent > 0.0 then MostKw(l) * l.rampPercent / 100.0 else 0.0;
    var wanted :=
      if !Draws(l) then LeastKw(l)
      else if l.allocatedOptional > 0.0 && l.allocatedOptional >= LeastKw(l) then l.allocatedOptional + step
      else if LeastKw(l) > 0.0 then LeastKw(l)
      else step;
    if wanted < MostKw(l) then wanted else MostKw(l)
  }

  lemma RampStepIs(l: Load)
    ensures RampStep(l) == if l.rampPercent > 0.0 then PhysicalMax(l) * l.rampPercent / 100.0 else 0.0
  {
    if l.rampPercent <= 0.0 {
      assert PhysicalMax(l) * 0.0 == 0.0;
    }
  }

  lemma LimitsAre(l: Load)
    requires Controllable(l)
    ensures Guaranteed(l) == LeastKw(l) && PhysicalMax(l) == MostKw(l) && (Demanding(l) <==> Draws(l))
  {
  }

  lemma CapIsWanted(l: Load)
    requires Controllable(l)
    ensures Cap(l) == WantedKw(l)
  {
    LimitsAre(l);
    RampStepIs(l);
    var step := if l.rampPercent > 0.0 then MostKw(l) * l.rampPercent / 100.0 else 0.0;
    WantedFromStep(l, step);
  }

  lemma WantedFromStep(l: Load, step: real)
    requires Guaranteed(l) == LeastKw(l) && PhysicalMax(l) == MostKw(l) && (Demanding(l) <==> Draws(l))
    requires step == RampStep(l) == if l.rampPercent > 0.0 then MostKw(l) * l.rampPercent / 100.0 else 0.0
    ensures Cap(l) == WantedKw(l)
  {
  }

  /** What PV and, above its reserve, the battery can still give. */
  ghost function SupplyKw(s: Sources, pvKw: real, batteryKw: real, socPct: real): real {
    var pv := if pvKw > 0.2 then pvKw else 0.0;
    var discharging := if batteryKw > 0.2 then batteryKw else 0.0;
    if socPct <= s.batteryMinSocPct || s.batteryMaxDischargeKw <= discharging then pv
    else pv + s.batteryMaxDischargeKw - discharging
  }

  lemma HeadroomIsSupply(sources: Option<Sources>, pvKw: real, batteryKw: real, socPct: real)
    ensures Headroom(sources, pvKw, batteryKw, socPct)
         == if sources.Some? && sources.value.hasBattery
            then Limited(SupplyKw(sources.value, pvKw, batteryKw, socPct)) else Unlimited
  {
  }

  /** Consumer `j` is served before consumer `i`: a lower priority number, or the same and earlier in the list. */
  ghost predicate Ahead(loads: seq<Load>, j: int, i: int)
    requires 0 <= j < |loads| && 0 <= i < |loads|
  {
    && loads[j].hasOptionalTier && loads[j].maxOptional > 0.0
    && (loads[j].priority < loads[i].priority || (loads[j].priority == loads[i].priority && j < i))
  }

  /** What each consumer wants; one without an optional tier nothing. */
  ghost function Wants(loads: seq<Load>): (r: seq<real>)
    ensures |r| == |loads|
  {
    seq(|loads|, i requires 0 <= i < |loads| =>
      if loads[i].hasOptionalTier && loads[i].maxOptional > 0.0 then WantedKw(loads[i]) else 0.0)
  }

  /** What those of the first `k` consumers want that are served before consumer `i`. */
  ghost function WantedAhead(loads: seq<Load>, wants: seq<real>, i: int, k: nat): real
    requires 0 <= i < |loads| == |wants| && k <= |loads|
  {
    if k == 0 then 0.0
    else WantedAhead(loads, wants, i, k - 1) + if Ahead(loads, k - 1, i) then wants[k - 1] else 0.0
  }

  ghost function ListAhead(loads: seq<Load>, i: int, k: nat): seq<int>
    requires 0 <= i < |loads| && k <= |loads|
  {
    if k == 0 then [] else ListAhead(loads, i, k - 1) + if Ahead(loads, k - 1, i) then [k - 1] else []
  }

  lemma {:induction false} ListAheadLists(loads: seq<Load>, i: int, k: nat)
    requires 0 <= i < |loads| && k <= |loads|
    ensures Distinct(ListAhead(loads, i, k))
    ensures forall j :: j in ListAhead(loads, i, k) <==> 0 <= j < k && Ahead(loads, j, i)
  {
    if k > 0 {
      ListAheadLists(loads, i, k - 1);
      assert k - 1 !in ListAhead(loads, i, k - 1);
    }
  }

  lemma {:induction false} ControllableIndicesAscend(loads: seq<Load>)
    ensures Ascends(ControllableIndices(loads))
  {
    if loads != [] {
      var init := loads[..|loads| - 1];
      ControllableIndicesAscend(init);
      AscendsAppend(ControllableIndices(init), |loads| - 1);
      assert ControllableIndices(init) + [] == ControllableIndices(init);
    }
  }

  lemma OrderWithin(loads: seq<Load>)
    ensures SortedWithin(DispatchOrder(loads), i => PriorityAt(loads, i))
  {
    ControllableIndicesAscend(loads);
    StableSortWithin(ControllableIndices(loads), i => PriorityAt(loads, i));
  }

  lemma EarlierInOrder(loads: seq<Load>, m: nat, n: nat)
    requires m < n < |DispatchOrder(loads)|
    ensures var a, b := DispatchOrder(loads)[m], DispatchOrder(loads)[n];
            PriorityAt(loads, a) < PriorityAt(loads, b) || (PriorityAt(loads, a) == PriorityAt(loads, b) && a < b)
  {
    OrderWithin(loads);
  }

  lemma EarlierIsAhead(loads: seq<Load>, m: nat, n: nat)
    requires m < |DispatchOrder(loads)| && n < |DispatchOrder(loads)|
    ensures var order := DispatchOrder(loads);
            0 <= order[m] < |loads| && 0 <= order[n] < |loads| && (Ahead(loads, order[m], order[n]) <==> m < n)
  {
    var a, b := DispatchOrder(loads)[m], DispatchOrder(loads)[n];
    DispatchOrderNamesControllable(loads);
    assert a in DispatchOrder(loads) && b in DispatchOrder(loads);
    if m < n {
      EarlierInOrder(loads, m, n);
    } else if n < m {
      EarlierInOrder(loads, n, m);
    }
  }

  lemma AheadIsEarlier(loads: seq<Load>, n: nat, j: int)
    requires n < |DispatchOrder(loads)| && 0 <= DispatchOrder(loads)[n] < |loads|
    ensures j in DispatchOrder(loads)[..n] <==> 0 <= j < |loads| && Ahead(loads, j, DispatchOrder(loads)[n])
  {
    var order := DispatchOrder(loads);
    if j in order[..n] {
      var m :| 0 <= m < n && order[m] == j;
      EarlierIsAhead(loads, m, n);
    }
    if 0 <= j < |loads| && Ahead(loads, j, order[n]) {
      DispatchOrderNamesControllable(loads);
      var m :| 0 <= m < |order| && order[m] == j;
      EarlierIsAhead(loads, m, n);
      assert order[..n][m] == j;
    }
  }

  /** The consumers before the n-th in dispatch order are those served before it. */
  lemma PrefixIsAhead(loads: seq<Load>, n: nat)
    requires n < |DispatchOrder(loads)|
    ensures var order := DispatchOrder(loads);
            && 0 <= order[n] < |loads|
            && multiset(order[..n]) == multiset(ListAhead(loads, order[n], |loads|))
  {
    var order := DispatchOrder(loads);
    EarlierIsAhead(loads, n, n);
    DispatchOrderNamesControllable(loads);
    var ahead := ListAhead(loads, order[n], |loads|);
    ListAheadLists(loads, order[n], |loads|);
    forall j ensures j in order[..n] <==> j in ahead {
      AheadIsEarlier(loads, n, j);
    }
    SameElements(order[..n], ahead);
  }

  lemma SumAtAppend(places: seq<int>, p: int, xs: seq<real>)
    requires 0 <= p < |xs|
    ensures SumAt(places + [p], xs) == SumAt(places, xs) + xs[p]
  {
    assert (places + [p])[..|places|] == places;
  }

  lemma {:induction false} SumOfAhead(loads: seq<Load>, wants: seq<real>, i: int, k: nat)
    requires 0 <= i < |loads| == |wants| && k <= |loads|
    ensures SumAt(ListAhead(loads, i, k), wants) == WantedAhead(loads, wants, i, k)
  {
    if k > 0 {
      SumOfAhead(loads, wants, i, k - 1);
      var init := ListAhead(loads, i, k - 1);
      SumAtAppend(init, k - 1, wants);
      assert ListAhead(loads, i, k) == if Ahead(loads, k - 1, i) then init + [k - 1] else init;
    }
  }

  lemma WantsInOrder(loads: seq<Load>, m: nat)
    requires m < |DispatchOrder(loads)|
    ensures var order := DispatchOrder(loads);
            0 <= order[m] < |loads| && Wants(loads)[order[m]] == CapsInOrder(loads, order)[m]
  {
    var order := DispatchOrder(loads);
    DispatchOrderNamesControllable(loads);
    assert order[m] in order;
    CapIsWanted(loads[order[m]]);
  }

  /** The caps before the n-th consumer in dispatch order, counted over the list. */
  lemma CapsBeforeAreWanted(loads: seq<Load>, n: nat)
    requires n < |DispatchOrder(loads)|
    ensures var order := DispatchOrder(loads);
            && 0 <= order[n] < |loads|
            && Sum(CapsInOrder(loads, order)[..n]) == WantedAhead(loads, Wants(loads), order[n], |loads|)
  {
    var order, wants := DispatchOrder(loads), Wants(loads);
    PrefixIsAhead(loads, n);
    SumAtPermutation(order[..n], ListAhead(loads, order[n], |loads|), wants);
    SumOfAhead(loads, wants, order[n], |loads|);
    forall m | 0 <= m < n ensures 0 <= order[m] < |loads| && wants[order[m]] == CapsInOrder(loads, order)[m] {
      WantsInOrder(loads, m);
    }
    SumAtIsSum(order[..n], wants, CapsInOrder(loads, order)[..n]);
  }

  /** All caps of a cycle together are what all consumers want. */
  lemma CapsAreWants(loads: seq<Load>)
    ensures Sum(CapsInOrder(loads, DispatchOrder(loads))) == Sum(Wants(loads))
  {
    var order := DispatchOrder(loads);
    SumOfControllable(loads, Wants(loads));
    SumAtPermutation(ControllableIndices(loads), order, Wants(loads));
    forall n | 0 <= n < |order|
      ensures 0 <= order[n] < |loads| && Wants(loads)[order[n]] == CapsInOrder(loads, order)[n] {
      WantsInOrder(loads, n);
    }
    SumAtIsSum(order, Wants(loads), CapsInOrder(loads, order));
  }

  /** Rounded figures for what a consumer is granted. */
  ghost predicate Granted(l: Load, kw: real, a: Allocation) {
    && IsNearest(a.optional, kw, 100) && IsNearest(a.power, l.basePower + kw, 100) && a.unused == 0.0
    && (a.demanding <==> Draws(l))
  }

  /** While the site does not import: what it wants, as far as `left` of the supply lasts. */
  ghost predicate Served(l: Load, limited: bool, left: real, a: Allocation) {
    var kw := if limited && left < WantedKw(l) then left else WantedKw(l);
    && Granted(l, kw, a)
    && a.status == (if limited && kw < MostKw(l) && left < MostKw(l) then SourceLimited
                    else if Draws(l) then Unrestricted else Ready)
  }

  /** What a cycle decides for the i-th consumer of the list. */
  ghost predicate IsOutcome(sources: Option<Sources>, gridKw: real, pvKw: real, batteryKw: real, socPct: real,
                            loads: seq<Load>, i: int, a: Allocation)
    requires 0 <= i < |loads|
  {
    var l := loads[i];
    if !l.hasOptionalTier || l.maxOptional <= 0.0 then
      a == Allocation(0.0, if l.basePower < l.actualPower then l.actualPower else l.basePower, 0.0, false,
                      UncontrollableLoad)
    else if gridKw > 0.2 then
      Granted(l, LeastKw(l), a) && a.status == if LeastKw(l) > 0.0 then CurtailedToMinimum else Curtailed
    else if sources == None || !sources.value.hasBattery then Served(l, false, 0.0, a)
    else
      var left := SupplyKw(sources.value, pvKw, batteryKw, socPct) - WantedAhead(loads, Wants(loads), i, |loads|);
      Served(l, true, if left > 0.0 then left else 0.0, a)
  }

  lemma RoundedGrant(l: Load, kw: real)
    ensures IsNearest(Round2(kw), kw, 100) && IsNearest(Round2(l.basePower + kw), l.basePower + kw, 100)
  {
    Round2IsNearest(kw);
    Round2IsNearest(l.basePower + kw);
  }

  lemma AutarkyServes(l: Load, available: Budget)
    requires Controllable(l)
    ensures Served(l, available.Limited?, if available.Limited? then available.kw else 0.0,
                   AutarkyAllocation(l, available))
  {
    LimitsAre(l);
    CapIsWanted(l);
    RoundedGrant(l, Grant(available, Cap(l)));
  }

  /** What is left for the n-th consumer in dispatch order. */
  lemma BudgetIsRest(loads: seq<Load>, headroom: real, n: nat)
    requires headroom >= 0.0 && n < |DispatchOrder(loads)|
    ensures var order := DispatchOrder(loads);
            && 0 <= order[n] < |loads|
            && var rest := headroom - WantedAhead(loads, Wants(loads), order[n], |loads|);
               BudgetAt(Limited(headroom), loads, order, n) == Limited(if rest > 0.0 then rest else 0.0)
  {
    var caps := CapsInOrder(loads, DispatchOrder(loads));
    CapsAreNonNegative(loads);
    GrantsClosedForm(headroom, caps[..n]);
    CapsBeforeAreWanted(loads, n);
  }

  /** The decision for the n-th consumer in dispatch order, in raw quantities. */
  lemma OutcomeInOrder(sources: Option<Sources>, gridKw: real, pvKw: real, batteryKw: real, socPct: real,
                       loads: seq<Load>, n: nat)
    requires n < |DispatchOrder(loads)|
    ensures var i := DispatchOrder(loads)[n];
            && 0 <= i < |loads|
            && IsOutcome(sources, gridKw, pvKw, batteryKw, socPct, loads, i,
                 ControllableAllocation(loads[i], Curtailing(gridKw),
                   BudgetAt(Headroom(sources, pvKw, batteryKw, socPct), loads, DispatchOrder(loads), n)))
  {
    EarlierIsAhead(loads, n, n);
    DispatchOrderNamesControllable(loads);
    var i := DispatchOrder(loads)[n];
    assert i in DispatchOrder(loads);
    HeadroomIsSupply(sources, pvKw, batteryKw, socPct);
    if gridKw > 0.2 {
      LimitsAre(loads[i]);
      RoundedGrant(loads[i], Guaranteed(loads[i]));
    } else {
      var headroom := Headroom(sources, pvKw, batteryKw, socPct);
      AutarkyServes(loads[i], BudgetAt(headroom, loads, DispatchOrder(loads), n));
      if headroom.Limited? {
        BudgetIsRest(loads, headroom.kw, n);
      }
    }
  }

  /**
   * One dispatch cycle. Uncontrollable consumers report their draw; the controllable ones share
   * the headroom in priority order, or fall to their guaranteed minimum while the site imports.
   * Uncurtailed, all allocations together exceed a limited headroom by rounding at most.
   */
  method Dispatch(sources: Option<Sources>, gridKw: real, pvKw: real, batteryKw: real, socPct: real,
                  consumers: seq<EnergyConsumer>)
    requires Distinct(consumers)
    modifies consumers`allocatedOptionalKw, consumers`allocatedPowerKw, consumers`unusedPowerKw,
             consumers`isActivelyDemanding, consumers`status
    ensures forall i :: 0 <= i < |consumers| ==>
      IsOutcome(sources, gridKw, pvKw, batteryKw, socPct, old(Snapshots(consumers)), i, consumers[i].Decision())
    ensures forall i :: 0 <= i < |consumers| && !Controllable(old(consumers[i].Snapshot())) ==>
      consumers[i].Decision() == UncontrollableAllocation(old(consumers[i].Snapshot()))
    ensures var loads := old(Snapshots(consumers));
            var order := DispatchOrder(loads);
            forall n :: 0 <= n < |order| && 0 <= order[n] < |consumers| ==>
              consumers[order[n]].Decision() ==
              ControllableAllocation(loads[order[n]], Curtailing(gridKw),
                BudgetAt(Headroom(sources, pvKw, batteryKw, socPct), loads, order, n))
    ensures !Curtailing(gridKw) && Headroom(sources, pvKw, batteryKw, socPct).Limited? ==>
      Sum(Optionals(consumers)) <= Headroom(sources, pvKw, batteryKw, socPct).kw
                                   + 0.005 * |DispatchOrder(old(Snapshots(consumers)))| as real
    ensures gridKw <= 0.2 && sources.Some? && sources.value.hasBattery ==>
      var supply, wants := SupplyKw(sources.value, pvKw, batteryKw, socPct), Sum(Wants(old(Snapshots(consumers))));
      var shared := if supply < wants then supply else wants;
      var rounding := 0.005 * |ControllableIndices(old(Snapshots(consumers)))| as real;
      shared - rounding <= Sum(Optionals(consumers)) <= shared + rounding
  {
    ghost var loads := Snapshots(consumers);
    var curtail := SupplyPart(gridKw, 0.0) > GRID_IMPORT_DEADBAND_KW;
    var headroom := Headroom(sources, pvKw, batteryKw, socPct);
    Allocate(consumers, curtail, headroom);
    forall i | 0 <= i < |consumers|
      ensures IsOutcome(sources, gridKw, pvKw, batteryKw, socPct, loads, i, consumers[i].Decision()) {
      if Controllable(loads[i]) {
        DispatchOrderNamesControllable(loads);
        var n :| 0 <= n < |DispatchOrder(loads)| && DispatchOrder(loads)[n] == i;
        OutcomeInOrder(sources, gridKw, pvKw, batteryKw, socPct, loads, n);
      }
    }
    if !curtail && headroom.Limited? {
      CycleWithinHeadroom(loads, headroom.kw, Optionals(consumers));
      CapsAreWants(loads);
      HeadroomIsSupply(sources, pvKw, batteryKw, socPct);
    }
  }

  // ---- The ramp over cycles: no battery, no curtailment, constant demand ----

  function NextOptional(l: Load): real {
    AutarkyAllocation(l, Unlimited).optional
  }

  /** The optional allocation after `n` cycles. */
  function OptionalAfter(l: Load, n: nat): real {
    if n == 0 then l.allocatedOptional else NextOptional(l.(allocatedOptional := OptionalAfter(l, n - 1)))
  }

  /** Top, guaranteed minimum and step of a ramp. */
  datatype Ramp = Ramp(top: real, minimum: real, step: real)

  function RampOf(l: Load): Ramp {
    Ramp(PhysicalMax(l), Guaranteed(l), RampStep(l))
  }

  /** What a demanding consumer that holds `a` asks for. */
  function Request(r: Ramp, a: real): real {
    if a >= r.minimum && (a > 0.0 || r.minimum > 0.0) then a + r.step
    else if r.minimum > 0.0 then r.minimum
    else r.step
  }

  /** One cycle of a demanding consumer that holds `a`. */
  function RampNext(r: Ramp, a: real): real {
    Round2(Min(r.top, Request(r, a)))
  }

  /** The allocation after `n` cycles that began at `start`. */
  function RampAfter(r: Ramp, start: real, n: nat): real {
    if n == 0 then start else RampNext(r, RampAfter(r, start, n - 1))
  }

  lemma NextIsRampNext(l: Load, a: real)
    requires Demanding(l)
    ensures NextOptional(l.(allocatedOptional := a)) == RampNext(RampOf(l), a)
  {
    var l' := l.(allocatedOptional := a);
    assert RampStep(l') == RampStep(l) && PhysicalMax(l') == PhysicalMax(l) && Guaranteed(l') == Guaranteed(l);
    assert Cap(l') == Min(PhysicalMax(l), Request(RampOf(l), a));
  }

  lemma {:induction false} OptionalFollowsRamp(l: Load, n: nat)
    requires Demanding(l)
    ensures OptionalAfter(l, n) == RampAfter(RampOf(l), l.allocatedOptional, n)
  {
    if n > 0 {
      OptionalFollowsRamp(l, n - 1);
      NextIsRampNext(l, OptionalAfter(l, n - 1));
    }
  }

  predicate Ramping(r: Ramp) {
    r.top >= 0.0 && r.minimum >= 0.0 && r.step > 0.005
  }

  /** `x` is a whole number of hundredths. */
  predicate IsHundredths(x: real) {
    Round2(x) == x
  }

  lemma RoundedIsHundredths(x: real)
    ensures IsHundredths(Round2(x))
  {
    Round2Exact(RoundHalfEven(x * 100.0));
  }

  /** Rounding a step above half a hundredth gains at least what the rounding can lose. */
  lemma RampGain(a: real, step: real)
    requires IsHundredths(a) && step > 0.005
    ensures Round2(a + step) >= a + 0.01 && Round2(a + step) >= a + step - 0.005
  {
    var n, m := RoundHalfEven(a * 100.0), RoundHalfEven((a + step) * 100.0);
    assert a == n as real / 100.0;
    assert m as real >= (a + step) * 100.0 - 0.5 > n as real;
    assert m >= n + 1;
  }

  /** A running allocation: whole hundredths, at least the minimum, at most the rounded top. */
  predicate OnRamp(r: Ramp, a: real) {
    IsHundredths(a) && r.minimum <= a <= Round2(r.top) && (a > 0.0 || r.minimum > 0.0)
  }

  /** On the ramp the allocation never falls, climbs by at most the step and the rounding, and stays on the ramp. */
  lemma RampCycle(r: Ramp, a: real)
    requires Ramping(r) && OnRamp(r, a)
    ensures var next := RampNext(r, a);
            && a <= next <= a + r.step + 0.005
            && next >= Min(Round2(r.top), a + r.step - 0.005)
            && OnRamp(r, next)
  {
    RoundedIsHundredths(Min(r.top, a + r.step));
    if a + r.step <= r.top {
      RampGain(a, r.step);
      Round2Monotone(a + r.step, r.top);
    }
  }

  /** The minimum can be left: rounding does not put the allocation below it. */
  predicate MinimumReachable(r: Ramp) {
    r.top <= r.minimum || Round2(r.minimum) >= r.minimum
  }

  /** A multiple of 0.01 below `x` that is not below its rounding is its rounding. */
  lemma RoundedFromBelow(x: real, a: real)
    requires IsHundredths(a) && Round2(x) <= a < x
    ensures a == Round2(x)
  {
    var n, k := RoundHalfEven(a * 100.0), RoundHalfEven(x * 100.0);
    assert a == n as real / 100.0 && Round2(x) == k as real / 100.0;
    assert k <= n && (n as real) < x * 100.0 <= k as real + 0.5;
  }

  /** The top of the ramp is a fixed point. */
  lemma TopIsStable(r: Ramp)
    requires Ramping(r)
    ensures RampNext(r, Round2(r.top)) == Round2(r.top)
  {
    if Round2(r.top) < r.minimum < r.top {
      Round2Monotone(r.minimum, r.top);
      RoundedIsHundredths(r.top);
      RoundedFromBelow(r.minimum, Round2(r.top));
    }
  }

  /** The minimum is no obstacle, or the ramp begins above it. */
  predicate CanClimb(r: Ramp, start: real) {
    MinimumReachable(r) || start >= r.minimum
  }

  /** Wherever the ramp begins, the first cycle lands at the top or on the ramp. */
  lemma FirstCycle(r: Ramp, start: real)
    requires Ramping(r) && CanClimb(r, start)
    ensures RampNext(r, start) == Round2(r.top) || OnRamp(r, RampNext(r, start))
  {
    var first := Request(r, start);
    RoundedIsHundredths(Min(r.top, first));
    Round2Exact(0);
    if first < r.top {
      Round2Monotone(first, r.top);
      RampGain(0.0, r.step);
    }
  }

  /** What `cycles` ramp cycles gain at least. */
  function Climb(r: Ramp, cycles: nat): real {
    if cycles == 0 then 0.0 else Climb(r, cycles - 1) + r.step - 0.005
  }

  lemma {:induction false} ClimbIsProduct(r: Ramp, cycles: nat)
    ensures Climb(r, cycles) == cycles as real * (r.step - 0.005)
  {
    if cycles > 0 {
      ClimbIsProduct(r, cycles - 1);
      var gain := r.step - 0.005;
      assert cycles as real * gain == (cycles - 1) as real * gain + gain;
    }
  }

  lemma {:induction false} RampProgress(r: Ramp, start: real, n: nat)
    requires Ramping(r) && CanClimb(r, start) && n >= 1
    ensures var a := RampAfter(r, start, n);
            a == Round2(r.top) || (OnRamp(r, a) && a >= Min(Round2(r.top), Climb(r, n - 1)))
  {
    if n == 1 {
      assert RampAfter(r, start, 1) == RampNext(r, RampAfter(r, start, 0));
      FirstCycle(r, start);
    } else {
      RampProgress(r, start, n - 1);
      if RampAfter(r, start, n - 1) == Round2(r.top) {
        TopIsStable(r);
      } else {
        RampCycle(r, RampAfter(r, start, n - 1));
      }
    }
  }

  /** Below a minimum that rounds down the ramp stays: the allocation is the rounded minimum for ever. */
  lemma {:induction false} StuckBelowMinimum(r: Ramp, start: real, n: nat)
    requires r.minimum >= 0.0 && !MinimumReachable(r) && start < r.minimum && n >= 1
    ensures RampAfter(r, start, n) == Round2(r.minimum) < r.minimum
  {
    if n == 1 {
      assert RampAfter(r, start, 1) == RampNext(r, RampAfter(r, start, 0));
    } else {
      StuckBelowMinimum(r, start, n - 1);
    }
  }

  /** ceil(top / (step - 0.005)) + 1 */
  function CyclesToTop(r: Ramp): int
    requires Ramping(r)
  {
    1 - (-(r.top / (r.step - 0.005))).Floor
  }

  lemma EnoughCyclesClimb(r: Ramp, n: nat)
    requires Ramping(r) && n >= CyclesToTop(r)
    ensures n >= 1 && Climb(r, n - 1) >= r.top
  {
    var gain := r.step - 0.005;
    var q := r.top / gain;
    QuotientNonNegative(r.top, gain);
    assert (n - 1) as real >= q;
    ScaleBack(r.top, gain, (n - 1) as real);
    ClimbIsProduct(r, n - 1);
  }

  lemma QuotientNonNegative(x: real, d: real)
    requires x >= 0.0 && d > 0.0
    ensures x / d >= 0.0
  {
  }

  lemma ScaleBack(x: real, d: real, q: real)
    requires d > 0.0 && x >= 0.0 && q >= x / d
    ensures q * d >= x
  {
    assert x == (x / d) * d;
    ProductNonNegative(q - x / d, d);
  }

  lemma TopReached(r: Ramp, start: real, n: nat)
    requires Ramping(r) && CanClimb(r, start) && n >= 1 && Climb(r, n - 1) >= r.top
    ensures RampAfter(r, start, n) == Round2(r.top)
  {
    RampProgress(r, start, n);
    HundredthsAbove(RampAfter(r, start, n), r.top);
  }

  lemma HundredthsAbove(a: real, top: real)
    ensures IsHundredths(a) && top <= a ==> Round2(top) <= a
  {
    if top <= a {
      Round2Monotone(top, a);
    }
  }

  /** The minimum and the top round to the same. */
  predicate MinimumIsTop(r: Ramp) {
    Round2(r.minimum) == Round2(r.top)
  }

  /**
   * From whatever allocation it begins, a ramp that can climb is at the rounded physical maximum from cycle
   * ceil(physicalMax / (step - 0.005)) + 1 on; any other ramp is there only if its minimum rounds to the same.
   */
  lemma RampConvergesIff(l: Load, n: nat)
    requires Controllable(l) && Demanding(l) && Ramping(RampOf(l))
    requires n >= CyclesToTop(RampOf(l))
    ensures OptionalAfter(l, n) == Round2(PhysicalMax(l))
       <==> CanClimb(RampOf(l), l.allocatedOptional) || MinimumIsTop(RampOf(l))
  {
    var r, start := RampOf(l), l.allocatedOptional;
    EnoughCyclesClimb(r, n);
    OptionalFollowsRamp(l, n);
    if CanClimb(r, start) {
      TopReached(r, start, n);
    } else {
      StuckBelowMinimum(r, start, n);
    }
  }

  /** Exactly when a ramp ever reaches the top. */
  lemma RampReachesTopIff(l: Load)
    requires Controllable(l) && Demanding(l) && Ramping(RampOf(l))
    ensures (exists n: nat :: n >= 1 && OptionalAfter(l, n) == Round2(PhysicalMax(l)))
       <==> CanClimb(RampOf(l), l.allocatedOptional) || MinimumIsTop(RampOf(l))
  {
    var r, start := RampOf(l), l.allocatedOptional;
    if CanClimb(r, start) || MinimumIsTop(r) {
      var n := if CyclesToTop(r) >= 1 then CyclesToTop(r) else 1;
      RampConvergesIff(l, n);
    } else {
      forall n: nat | n >= 1 ensures OptionalAfter(l, n) == Round2(Guaranteed(l)) {
        OptionalFollowsRamp(l, n);
        StuckBelowMinimum(r, start, n);
      }
    }
  }

  /** A wallbox minimum of 1.384 kW: 1.38 kW is allocated for ever, however much power there is. */
  lemma MinimumOf1384WattsNeverRamps(n: nat)
    requires n >= 1
    ensures OptionalAfter(Load(0.0, true, 8.0, 1.384, 0.0, 10.0, 22.0, 1, 1.38, 0.0), n) == 1.38
  {
    var wallbox := Load(0.0, true, 8.0, 1.384, 0.0, 10.0, 22.0, 1, 1.38, 0.0);
    assert Guaranteed(wallbox) == 1.384 && PhysicalMax(wallbox) == 8.0;
    assert Round2(1.384) == 1.38 by {
      assert 1.384 * 100.0 == 138.4;
      assert (138.4).Floor == 138;
    }
    OptionalFollowsRamp(wallbox, n);
    StuckBelowMinimum(RampOf(wallbox), 0.0, n);
  }

  // ---- Steps that rounding swallows ----

  predicate SmallStep(r: Ramp) {
    r.top >= 0.0 && r.minimum >= 0.0 && 0.0 <= r.step <= 0.005
  }

  /** Half a hundredth at most moves a whole number of hundredths to the next even one, if anywhere. */
  lemma SmallGain(n: int, step: real)
    requires 0.0 <= step <= 0.005
    ensures Round2(Hundredths(n) + step) == if step == 0.005 && n % 2 == 1 then Hundredths(n + 1) else Hundredths(n)
  {
    var x := (Hundredths(n) + step) * 100.0;
    assert x == n as real + step * 100.0;
    assert x.Floor == n;
  }

  /** A whole number of hundredths no larger than the rounded top, with less than half a one up to the top. */
  lemma JustBelowTop(n: int, top: real)
    requires Hundredths(n) <= Round2(top) && top < Hundredths(n) + 0.005
    ensures Round2(top) == Hundredths(n)
  {
    var x := top * 100.0;
    assert x < n as real + 0.5;
    RoundsDown(x, n);
  }

  lemma RoundsDown(x: real, n: int)
    requires x < n as real + 0.5 && Hundredths(n) <= Hundredths(RoundHalfEven(x))
    ensures RoundHalfEven(x) == n
  {
    var k := RoundHalfEven(x);
    assert n as real <= k as real < n as real + 1.0;
  }

  /** At or above the minimum a small step leads up from an odd hundredth, if there is room, or nowhere. */
  lemma SmallStepFrom(r: Ramp, n: int)
    requires SmallStep(r) && r.minimum <= Hundredths(n) <= Round2(r.top) && (n > 0 || r.minimum > 0.0)
    ensures var next := RampNext(r, Hundredths(n));
            && next <= Round2(r.top)
            && next == if r.step == 0.005 && n % 2 == 1 && Hundredths(n) + r.step <= r.top then Hundredths(n + 1)
                       else Hundredths(n)
  {
    var a := Hundredths(n);
    assert Request(r, a) == a + r.step;
    SmallGain(n, r.step);
    if r.top < a + r.step {
      JustBelowTop(n, r.top);
    } else {
      Round2Monotone(a + r.step, r.top);
    }
  }

  /** At or above the minimum: one small step at most, and none after it. */
  lemma SmallStepsAbove(r: Ramp, n: int)
    requires SmallStep(r) && r.minimum <= Hundredths(n) <= Round2(r.top) && (n > 0 || r.minimum > 0.0)
    ensures var next := RampNext(r, Hundredths(n)); RampNext(r, next) == next
  {
    SmallStepFrom(r, n);
    if RampNext(r, Hundredths(n)) == Hundredths(n + 1) {
      SmallStepFrom(r, n + 1);
    }
  }

  /** Below the minimum after a cycle, the minimum itself rounds down and holds the allocation there. */
  lemma SmallStepsBelow(r: Ramp, start: real)
    requires SmallStep(r) && RampNext(r, start) < r.minimum
    ensures var next := RampNext(r, RampNext(r, start)); RampNext(r, next) == next
  {
    var b := Round2(Min(r.top, r.minimum));
    if start >= r.minimum {
      Round2Monotone(Min(r.top, r.minimum), Min(r.top, start + r.step));
    }
    assert b < r.minimum;
  }

  /** With a step of half a hundredth or less the allocation no longer changes after the second cycle. */
  lemma {:induction false} SmallStepSettles(r: Ramp, start: real, n: nat)
    requires SmallStep(r) && n >= 2
    ensures RampAfter(r, start, n) == RampAfter(r, start, 2)
  {
    if n > 2 {
      SmallStepSettles(r, start, n - 1);
      SecondCycleIsLast(r, start);
      assert RampAfter(r, start, 2) == RampNext(r, RampAfter(r, start, 1));
      assert RampAfter(r, start, 1) == RampNext(r, RampAfter(r, start, 0));
    }
  }

  /**
   * The first request rounds to the top or beyond, or to an odd hundredth next below it from which a step of exactly
   * half a hundredth leads up.
   */
  predicate SmallStepSuffices(r: Ramp, start: real) {
    var first := Request(r, start);
    var n := RoundHalfEven(first * 100.0);
    || Round2(r.top) <= Round2(first)
    || (r.step == 0.005 && n % 2 == 1 && Hundredths(n) >= r.minimum && Round2(r.top) == Hundredths(n + 1))
  }

  /** Below the top after one cycle, the next one leads there only by half a hundredth from an odd hundredth. */
  lemma SecondSmallStep(r: Ramp, start: real)
    requires SmallStep(r) && Round2(Request(r, start)) < Round2(r.top)
    ensures RampNext(r, start) == Round2(Request(r, start))
    ensures RampNext(r, RampNext(r, start)) == Round2(r.top) <==> SmallStepSuffices(r, start)
  {
    var first := Request(r, start);
    var n := RoundHalfEven(first * 100.0);
    var a := Hundredths(n);
    if r.top <= first {
      Round2Monotone(r.top, first);
    }
    if a < r.minimum {
      SecondIsMinimum(r, start);
    } else if n > 0 || r.minimum > 0.0 {
      SmallStepFrom(r, n);
      if r.top < a + r.step {
        JustBelowTop(n, r.top);
      }
    } else {
      SmallGain(0, r.step);
      Round2Monotone(Min(r.top, r.step), r.step);
    }
  }

  /** Where the first cycle stays below the minimum, the second does not get beyond it either. */
  lemma SecondIsMinimum(r: Ramp, start: real)
    requires SmallStep(r) && Round2(Request(r, start)) < r.minimum
    ensures RampNext(r, Round2(Request(r, start))) <= Round2(Request(r, start))
  {
    Round2Monotone(Min(r.top, r.minimum), r.minimum);
    Round2Monotone(r.minimum, Request(r, start));
  }

  /** Exactly when such a ramp ever reaches the top. */
  lemma SmallStepReachesTopIff(l: Load)
    requires Demanding(l) && SmallStep(RampOf(l))
    ensures (exists n: nat :: n >= 1 && OptionalAfter(l, n) == Round2(PhysicalMax(l)))
       <==> SmallStepSuffices(RampOf(l), l.allocatedOptional)
  {
    var r, start := RampOf(l), l.allocatedOptional;
    FirstTwoCycles(l);
    if Round2(r.top) <= Round2(Request(r, start)) {
      if Request(r, start) < r.top {
        Round2Monotone(Request(r, start), r.top);
      }
      assert OptionalAfter(l, 1) == Round2(PhysicalMax(l));
    } else {
      SecondSmallStep(r, start);
      forall n: nat | n >= 2 ensures OptionalAfter(l, n) == OptionalAfter(l, 2) {
        OptionalFollowsRamp(l, n);
        SmallStepSettles(r, start, n);
      }
    }
  }

  lemma FirstTwoCycles(l: Load)
    requires Demanding(l)
    ensures var r, start := RampOf(l), l.allocatedOptional;
            && OptionalAfter(l, 1) == RampNext(r, start)
            && OptionalAfter(l, 2) == RampAfter(r, start, 2) == RampNext(r, RampNext(r, start))
  {
    var r, start := RampOf(l), l.allocatedOptional;
    OptionalFollowsRamp(l, 1);
    OptionalFollowsRamp(l, 2);
    assert RampAfter(r, start, 1) == RampNext(r, RampAfter(r, start, 0));
    assert RampAfter(r, start, 2) == RampNext(r, RampAfter(r, start, 1));
  }

  /** A ramp of 0.05 percent of 8 kW is 4 W a cycle: the allocation stays at 0 for ever. */
  lemma FourWattsNeverRamp(n: nat)
    ensures OptionalAfter(Load(0.0, true, 8.0, 0.0, 0.0, 0.05, 22.0, 1, 2.0, 0.0), n) == 0.0
  {
    var l := Load(0.0, true, 8.0, 0.0, 0.0, 0.05, 22.0, 1, 2.0, 0.0);
    OptionalFollowsRamp(l, n);
    assert RampOf(l) == Ramp(8.0, 0.0, 0.004);
    StaysAtZero(RampOf(l), n);
  }

  lemma {:induction false} StaysAtZero(r: Ramp, n: nat)
    requires SmallStep(r) && r.minimum == 0.0
    ensures RampAfter(r, 0.0, n) == 0.0
  {
    if n > 0 {
      StaysAtZero(r, n - 1);
      SmallGain(0, r.step);
      Round2Monotone(Min(r.top, r.step), r.step);
      Round2Monotone(0.0, Min(r.top, r.step));
    }
  }

  lemma SecondCycleIsLast(r: Ramp, start: real)
    requires SmallStep(r)
    ensures var next := RampNext(r, RampNext(r, start)); RampNext(r, next) == next
  {
    var a := RampNext(r, start);
    var n := RoundHalfEven(a * 100.0);
    FirstIsHundredths(r, start);
    assert a == Hundredths(n);
    if a < r.minimum {
      SmallStepsBelow(r, start);
    } else if n > 0 || r.minimum > 0.0 {
      SmallStepsAbove(r, n);
    } else {
      SmallGain(0, r.step);
      Round2Monotone(Min(r.top, r.step), r.step);
    }
  }

  lemma FirstIsHundredths(r: Ramp, start: real)
    requires SmallStep(r)
    ensures IsHundredths(RampNext(r, start)) && RampNext(r, start) <= Round2(r.top)
  {
    RoundedIsHundredths(Min(r.top, Request(r, start)));
    Round2Monotone(Min(r.top, Request(r, start)), r.top);
  }
}
