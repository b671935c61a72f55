# Pulswerk: verified models of the algorithmic cores

Pulswerk is a building-automation gateway. This project models the parts of it where an answer
depends on more than one line of code, and proves what those parts promise, for all inputs and all
runs. Doubles are `real`, times are whole ticks (100 ns) or milliseconds, and `Math.Round` is the
rounding to the even neighbour that .NET uses. A `lock` makes one call one atomic step. Answers of
the time-series store, the BACnet network, the clock and the block cipher are parameters.

What is proved, component by component:

- **Rolling energy** (`EnergyFlows`, `RollingLedger`, `RollingRuns`, `RollingEnergy`,
  `EnergyBackfill`, `RollingConservation`, `EnergyTicks`, `EnergyIntegration`, `EnergyStretches`,
  `EnergyReinit`).
  `RollingEnergyCalculator` is the calculator with its three dictionaries, changed in place;
  `RollingLedger` is the value it stands for. Pruning is invisible: over every run of samples, added
  energy and restored states, each rolling total is the total of everything ever recorded in its
  window. Import minus export is the integral of the grid power, over live runs and over runs with
  backfilled pairs and restored states. `EnergyTicks` says what every total of every channel is in
  measured quantities alone: power times ticks of 100 ns, read off samples, stored points and the
  configured meters, over whole minutes, hours and days. `EnergyIntegration` is a state machine over
  process starts, re-initialisations, saves, live samples and single steps of any number of
  backfills in any interleaving; in every state reached by safe steps each bucket is the sum of the
  deposits held for it, each deposit is the measured energy of exactly its time, and no two of them
  cover the same time of the same meter. Only re-initialising a running process can be unsafe, see
  below.
- **Energy dispatch** (`EnergyDispatch`). One cycle over the consumers, changed in place; what each of
  them gets, in the measured and configured quantities and what those served before it want; the closed
  form of what is handed out; what rounding can add; and the ramp over many cycles, with the exact
  condition under which it ever reaches the top.
- **KNX** (`KnxFloat`, `KnxCtr`, `KnxMac`, `KnxCemi`, `KnxWire`, `KnxCache`, `KnxCacheRuns`). The 2-byte float
  with its exact error range, counter mode on an in-place 128-bit counter, the input of the CBC-MAC
  and what it tells apart, telegram frames that survive being sent and parsed, the frames that are
  taken in byte for byte, and the bounded cache of group values against one that never forgets.
- **BACnet views** (`BacnetViews`). The recursive walk with its shared visited set, on linked nodes:
  it terminates on any, even cyclic, view graph, finds exactly the reachable views, each once, and
  builds the one depth-first tree.
- **Log buffer** (`LogBuffers`), **as-of join** (`AsOfJoin`), **asset hierarchy** (`AssetForest` and
  `AssetPaths` on values, `AssetTree` on linked nodes merged in place), **formula expansion**
  (`FormulaExpansion`, and `FormulaText` letter by letter), **meter rollover** (`Rollover`),
  **gap finder** (`GapFinder`).

Where the code does not do what its comments or callers expect, the model follows the code and a
lemma names the input:

- Initialising the energy service again in a running process can integrate the same time twice: the
  calculator keeps its last live sample, and a backfill that is still running is not stopped. What the
  new pass adds is safe exactly if the pass is empty, or it ends by the last sample (or no sample
  follows within 180 s of that one) and begins where all that older backfills still have to add to the
  tier has ended (`EnergyReinit.ReinitialisingIsSafeIff`). What is restored beside a running pass stays
  apart from it if that pass began within an hour of its bootstrap (in the hour and day tiers, a day).
  `EnergyReinit.EveryRuleIsNeeded` has, for each of these three rules, a run that meets the other two
  and integrates the same time twice.
- `TruncateTo` says that a backfill pass never writes into the bucket the live loop fills. It does so
  exactly with a deposit that ends at the very end of the pass
  (`EnergyIntegration.PassReachesLiveBucketIff`, `EnergyIntegration.LiveBucketIsReached`), which adds no
  time that the live loop integrates.
- Live samples and backfill count PV energy differently when the power changes sign
  (`EnergyBackfill.PvBackfillAgreesWithLive`).
- A guaranteed minimum that rounds down to hundredths is never ramped up from
  (`EnergyDispatch.RampReachesTopIff`, `EnergyDispatch.MinimumOf1384WattsNeverRamps`). A step below
  0.005 kW is swallowed by rounding, one of exactly 0.005 kW only moves an odd hundredth up once: the
  top is reached exactly if the first request rounds to it or beyond, or to the odd hundredth below it
  from which such a step leads up (`EnergyDispatch.SmallStepReachesTopIff`,
  `EnergyDispatch.FourWattsNeverRamp`).
- Values in [-0.005, 0) are sent as -20.48 (`KnxFloat.NegativeZeroDecodesTo2048`).
- A stale window below 120 s can let a silent value disappear before the sweep pulls it, and so can
  any window once the sweep spends time on sending, because it waits 60 s after that
  (`KnxCacheRuns.SixtySecondSweepIff`, `KnxCacheRuns.SendingTimeIsNotCovered`).
- `GetLatest` returns the newest entries whatever the other ring holds exactly if the entries of a ring
  were added in time order (`LogBuffers.AlwaysNewestIff`).
- The as-of sweep has consumed the newest value at every time exactly if no valued point stands behind
  a later one (`AsOfJoin.ConsumesNewestIff`, `AsOfJoin.LaterPointFirst`).
- Expanding a formula twice is expanding it once exactly if every token of `<id>_x` is a keyword or
  carries a known prefix, or the id contains `pathsum(` (`FormulaExpansion.IdempotentIff`). An id that is
  one token without a colon qualifies, and without other devices no other id does.
- A key whose saved state lacks an entry, such as the yearly figures older files do not have, makes
  every later reading of it fail (`Rollover.ProcessIncomplete`, `Rollover.ProcessOlderFile`).

Floating-point error is not part of the model: an equality here is an equality of real numbers.

## Model

| member | source | states |
|---|---|---|
| RollingEnergy.RollingEnergyCalculator.RecordSample | src/Pulswerk.Ems/EmsRollingEnergyCalculator.cs:103-201 | the new state is that of the ledger step: a step of more than 0.05 s and at most 180 s is integrated into all three tiers, the reading is remembered, every tier is pruned at its retention |
| RollingEnergy.RollingEnergyCalculator.Integrate | src/Pulswerk.Ems/EmsRollingEnergyCalculator.cs:116-163 | what an accepted step adds to which buckets, with the previous power of each consumer (0 for a new one), and that any other step adds nothing |
| RollingEnergy.RollingEnergyCalculator.ConsumerDeltas | src/Pulswerk.Ems/EmsRollingEnergyCalculator.cs:143-150 | one trapezoid per consumer id; the last reading of a repeated id counts |
| RollingEnergy.RollingEnergyCalculator.PruneAll | src/Pulswerk.Ems/EmsRollingEnergyCalculator.cs:179-199 | exactly the buckets below 25 h, 31 d and 366 d of their tier are gone |
| RollingEnergy.RollingEnergyCalculator.AddEnergy | src/Pulswerk.Ems/EmsRollingEnergyCalculator.cs:206-227 | the energy goes to the bucket that holds the minute, in the named tiers and no other |
| RollingEnergy.Accumulate | src/Pulswerk.Ems/EmsRollingEnergyCalculator.cs:229-265 | adding to a bucket, made if missing, is the sum on every channel and every consumer of either side |
| RollingEnergy.Prune | src/Pulswerk.Ems/EmsRollingEnergyCalculator.cs:180-185 | removing stale keys one by one leaves exactly the buckets at or above the cutoff |
| RollingEnergy.SumWindow | src/Pulswerk.Ems/EmsRollingEnergyCalculator.cs:303-348 | in whatever order the dictionary is visited, each channel is the sum over the keys of the window |
| RollingEnergy.RollingEnergyCalculator.GetTotals | src/Pulswerk.Ems/EmsRollingEnergyCalculator.cs:270-348 | the reported totals are the rolling totals of the tier, rounded to hundredths, for every channel and consumer |
| RollingEnergy.RollingEnergyCalculator.GetBackfillStart | src/Pulswerk.Ems/EmsRollingEnergyCalculator.cs:392-423 | not before the window start nor the end of any bucket, and equal to one of these |
| RollingEnergy.RollingEnergyCalculator.Serialize | src/Pulswerk.Ems/EmsRollingEnergyCalculator.cs:428-441 | three lists in ascending key order that hold exactly the three maps, under version 3 |
| RollingEnergy.RollingEnergyCalculator.Deserialize | src/Pulswerk.Ems/EmsRollingEnergyCalculator.cs:449-482 | blank, legacy, unreadable or older state changes nothing; any other replaces the three maps and keeps the last sample |
| RollingLedger.SaveThenRestore | src/Pulswerk.Ems/EmsRollingEnergyCalculator.cs:428-482 | restoring a saved state brings back the same three maps, whatever was there before |
| RollingRuns.BucketIsRecorded | src/Pulswerk.Ems/EmsRollingEnergyCalculator.cs:179-265 | over every run, a bucket no sample could prune holds on every channel what was restored and added for it |
| RollingRuns.RollingTotalIsFullTotal | src/Pulswerk.Ems/EmsRollingEnergyCalculator.cs:270-348 | over every run and for every asOf not before a sample, a rolling total equals the total of an unpruned log over the window |
| RollingRuns.RestartKeepsTotals | src/Pulswerk.Ems/EmsRollingEnergyCalculator.cs:428-482 | a process started from a saved state reports what the old one recorded plus what it records itself |
| EnergyFlows.ClampedDirections | src/Pulswerk.Ems/EmsRollingEnergyCalculator.cs:125-135 | the clamped trapezoids of the two directions differ by the signed trapezoid |
| RollingRuns.LiveLogIsIntegral | src/Pulswerk.Ems/EmsRollingEnergyCalculator.cs:116-163 | a live run logs, netted per meter, the integral of the sampled course over the accepted steps |
| RollingRuns.SignedConservation | src/Pulswerk.Ems/EmsRollingEnergyCalculator.cs:116-163 | in every window import minus export is the integral of grid power, discharge minus charge that of battery power, every other channel and consumer that of its positive power, and no channel is negative |
| RollingRuns.BalanceIsIntegral | src/Pulswerk.Ems/EmsService.cs:843-848 | from unrounded totals the consumption balance is the integral of grid, battery and positive PV power, clamped at 0 |
| RollingRuns.ConsumptionIsIntegral | src/Pulswerk.Ems/EmsService.cs:843-848 | from the five rounded totals it is that within 0.025 |
| EnergyTicks.TotalsInTicks | src/Pulswerk.Ems/EmsRollingEnergyCalculator.cs:103-348 | over every run of samples, stored pairs and restored states, the minute, hour and day total of every channel exceeds that of the state restored last by exactly the kW-ticks measured since, 72 * 10^9 double kW-ticks being one kWh: clamped power times time for steps of more than 0.05 s and at most 180 s, in the current period and 24 h, 30 d and 365 d of periods before it |
| EnergyTicks.LiveTicks | src/Pulswerk.Ems/EmsRollingEnergyCalculator.cs:116-163 | what one accepted step puts on a channel, in kW-ticks of the readings |
| EnergyTicks.PairTicksOf | src/Pulswerk.Ems/EmsService.cs:1446-1479 | what a stored pair puts on a channel, in kW-ticks of the stored values, by the configured keys and sign rules |
| EnergyTicks.ConsumerOfIsFirst | src/Pulswerk.Ems/EmsService.cs:1471 | the consumer of a key is the first one in the list that has it, and there is none exactly if none has it |
| EnergyTicks.UsablePoints | src/Pulswerk.Ems/EmsService.cs:1436 | a pass uses every point with a value as often as it is stored, oldest first, equal times in stored order |
| EnergyTicks.PassInTicks | src/Pulswerk.Ems/EmsService.cs:1433-1482 | a pass adds to every channel and total exactly the kW-ticks of the steps between neighbouring usable points of each key that take time, but no more than the limit |
| EnergyTicks.BootstrapInTicks | src/Pulswerk.Ems/EmsService.cs:1383-1395 | with limits of 5 minutes, 2 hours and 2 days in the three passes |
| EnergyTicks.PassRange | src/Pulswerk.Ems/EmsService.cs:1383-1414 | with nothing stored, the passes reach from 24 hours, 30 days and 365 days before the bootstrap to the start of its minute, hour and day |
| RollingConservation.EveryRunConserves | src/Pulswerk.Ems/EmsService.cs:1446-1479 | over every run of samples, stored pairs and restored states, each netted rolling total is that of the state restored last plus the signed integral over accepted live steps and stored pairs since then |
| RollingConservation.PairNets | src/Pulswerk.Ems/EmsService.cs:1448-1478 | a stored pair, its two directions netted, is the signed trapezoid of its meter |
| RollingConservation.PassStoresPairs | src/Pulswerk.Ems/EmsService.cs:1433-1445 | what a pass adds are such pairs |
| EnergyBackfill.PvBackfillAgreesWithLive | src/Pulswerk.Ems/EmsService.cs:1454-1460 | backfilled PV energy never exceeds the live one, and equals it exactly when the power does not change sign |
| EnergyBackfill.PairEnergyStaysInChannels | src/Pulswerk.Ems/EmsService.cs:1446-1479 | a stored pair of points feeds only the channels of its meter |
| EnergyBackfill.BootstrapWindow | src/Pulswerk.Ems/EmsService.cs:1416-1482 | a pass adds, key by key and in time order, one deposit for each step of usable points that is neither empty nor too long, and nothing when its ends do not leave room |
| EnergyIntegration.KeyItems | src/Pulswerk.Ems/EmsService.cs:1436-1445 | the stretches one key is integrated over follow each other without overlap, within the queried range |
| EnergyIntegration.PassItems | src/Pulswerk.Ems/EmsService.cs:1433-1482 | the deposits of a whole pass lie within its ends, and those of different keys share no channel |
| EnergyIntegration.PassWritesOnlyNewBuckets | src/Pulswerk.Ems/EmsService.cs:1376-1413 | a pass writes only buckets newer than the newest one present, and none beyond the bucket of its end |
| EnergyIntegration.PassReachesLiveBucketIff | src/Pulswerk.Ems/EmsService.cs:1376-1414 | a deposit of a pass lands in the bucket the live loop is filling exactly if it ends at the end of the pass, none lands beyond it, and live deposits never go below it |
| EnergyIntegration.PassEndsBeforeBoot | src/Pulswerk.Ems/EmsService.cs:1410-1414 | a pass ends no later than the bootstrap time |
| EnergyIntegration.StepKeepsInv | src/Pulswerk.Ems/EmsService.cs:1357-1403 | saving, starting, re-initialising, sampling, beginning a pass and each of its steps keep all held and pending stretches apart, with any number of backfills running, where each step is safe |
| EnergyIntegration.StepKeepsAccounted | src/Pulswerk.Ems/EmsRollingEnergyCalculator.cs:103-265 | each of these steps keeps every bucket equal to the sum of the deposits held for it |
| EnergyIntegration.NoDoubleIntegration | src/Pulswerk.Ems/EmsService.cs:1357-1482 | in every reachable state of every interleaving whose re-initialisations and passes are safe, every bucket is the sum of its deposits and deposits that share a channel cover disjoint times |
| EnergyIntegration.RestartsAreSafe | src/Pulswerk.Ems/EmsService.cs:559-576 | without re-initialisations of a running process every step of every run is safe |
| EnergyStretches.HeldIsMeasured | src/Pulswerk.Ems/EmsService.cs:1446-1479 | over every run, safe or not, each deposit that is held, saved or pending is the measured energy of exactly the time it covers, in the minute that time ends in |
| EnergyStretches.StepsOfCalculator | src/Pulswerk.Ems/EmsService.cs:540-576 | samples, restored states and steps of a pass change the buckets as the calculator does, and nothing else changes them |
| EnergyStretches.PassIsWhole | src/Pulswerk.Ems/EmsService.cs:1433-1482 | the steps of a pass together add what the whole pass adds |
| EnergyIntegration.BucketBeforeWindow | src/Pulswerk.Ems/EmsService.cs:1383-1395 | what can be pruned when a pass begins within an hour (a day) of its bootstrap lies before the window of the pass |
| EnergyTicks.TimelyWithin | src/Pulswerk.Ems/EmsService.cs:1383-1395 | a pass that begins within an hour of its bootstrap, in the hour and day tiers within a day, begins in time for that |
| EnergyIntegration.LiveBucketIsReached | src/Pulswerk.Ems/EmsService.cs:1376-1414 | a process that starts at second 125 writes a stored pair that ends at second 120 into the live bucket |
| EnergyReinit.ReinitialisingIsSafeIff | src/Pulswerk.Ems/EmsService.cs:540-576 | over all store answers and next samples, what the pass of a re-initialised process adds shares no time with the next live step nor with what older backfills still have to add, exactly if the pass is empty, or it ends by the last sample (or no sample can follow that one within 180 s) and begins where those pending deposits have ended |
| EnergyReinit.MeetsLiveIff | src/Pulswerk.Ems/EmsService.cs:1376-1414 | the part of this about the next live step |
| EnergyReinit.MeetsPendingIff | src/Pulswerk.Ems/EmsService.cs:1416-1482 | the part about other running backfills, for any pass: every pending deposit of the tier ends before it begins or begins after it ends |
| EnergyReinit.EveryRuleIsNeeded | src/Pulswerk.Ems/EmsService.cs:540-576 | for each of the three rules of a safe run, a run from nothing that meets the other two and ends with the same time of the grid meter integrated twice |
| EnergyDispatch.Dispatch | src/Pulswerk.Ems/EmsService.cs:359-463 | every consumer's decision in raw quantities: without an optional tier it reports the larger of base and actual draw; above 0.2 kW of import it gets its guaranteed minimum; without a battery what it wants; with one, what it wants as far as the supply lasts after all that is served before it (PV above 0.2 kW, and above the reserve the discharge still possible); all rounded to the nearest hundredth, with power, demand and status; and all allocations together are the smaller of supply and wants within 0.005 kW per controllable consumer |
| EnergyDispatch.OutcomeInOrder | src/Pulswerk.Ems/EmsService.cs:404-461 | the same for the n-th consumer in dispatch order |
| EnergyDispatch.CapIsWanted | src/Pulswerk.Ems/EmsService.cs:407-442 | what a consumer may have at most, from its configuration, draw and last allocation |
| EnergyDispatch.HeadroomIsSupply | src/Pulswerk.Ems/EmsService.cs:373-382 | the supply: no limit without a battery, PV alone up to the reserve, and above it also what the battery can still discharge |
| EnergyDispatch.CapsBeforeAreWanted | src/Pulswerk.Ems/EmsService.cs:403-450 | what is taken before a consumer, counted over the list: lower priority numbers, and equal ones earlier in the list |
| EnergyDispatch.Classify | src/Pulswerk.Ems/EmsService.cs:384-401 | exactly the consumers without an optional tier are settled and the others are left untouched, in list order |
| EnergyDispatch.DispatchQueue | src/Pulswerk.Ems/EmsService.cs:403-462 | each consumer is decided on the budget left by all before it; curtailment leaves the budget alone |
| EnergyDispatch.Serve | src/Pulswerk.Ems/EmsService.cs:429-461 | the grant is the smallest of physical maximum, request and budget, rounded; the budget falls by the unrounded grant |
| EnergyDispatch.DispatchOrderIsStable | src/Pulswerk.Ems/EmsService.cs:404 | ascending priority, and equal priorities in list order |
| EnergyDispatch.DispatchOrderNamesControllable | src/Pulswerk.Ems/EmsService.cs:385-404 | the order names every controllable consumer exactly once |
| EnergyDispatch.GrantsClosedForm | src/Pulswerk.Ems/EmsService.cs:445-451 | grants to any number of consumers sum to min(headroom, sum of caps), and the rest of the headroom is left |
| EnergyDispatch.CycleSharesHeadroom | src/Pulswerk.Ems/EmsService.cs:403-462 | for every k the first k consumers of an uncurtailed cycle share min(headroom, their caps), and their allocations are these grants rounded |
| EnergyDispatch.CycleWithinHeadroom | src/Pulswerk.Ems/EmsService.cs:403-462 | the sum over all consumers, in whatever order they are listed, exceeds min(headroom, caps) by rounding at most |
| EnergyDispatch.TotalIndependentOfOrder | src/Pulswerk.Ems/EmsService.cs:403-462 | the total handed out is the same in every order of the consumers |
| EnergyDispatch.ShortChangedLeavesNothing | src/Pulswerk.Ems/EmsService.cs:445-451 | after a consumer that gets less than its cap nobody gets anything |
| EnergyDispatch.RoundedAllocationsWithinHeadroom | src/Pulswerk.Ems/EmsService.cs:452 | rounded allocations exceed the headroom by at most 0.005 kW per consumer |
| EnergyDispatch.RampCycle | src/Pulswerk.Ems/EmsService.cs:434-453 | on the ramp an allocation never falls, climbs by at most step + 0.005 and by at least step - 0.005 until the top, and stays on the ramp |
| EnergyDispatch.RampConvergesIff | src/Pulswerk.Ems/EmsService.cs:430-453 | from any allocation, the rounded physical maximum holds from cycle ceil(max / (step - 0.005)) + 1 on, exactly if the minimum can be left, the ramp begins above it, or both round to the same |
| EnergyDispatch.RampReachesTopIff | src/Pulswerk.Ems/EmsService.cs:412-442 | a ramp, from whatever allocation it begins, ever reaches the top under exactly this condition |
| EnergyDispatch.SmallStepSettles | src/Pulswerk.Ems/EmsService.cs:436-452 | with a step of 0.005 kW or less the allocation no longer changes after the second cycle |
| EnergyDispatch.SmallStepReachesTopIff | src/Pulswerk.Ems/EmsService.cs:436-452 | such a ramp ever reaches the top exactly if its first request rounds to the top or beyond, or the step is exactly 0.005 kW and the first request rounds to an odd hundredth at or above the minimum, one below the top |
| EnergyDispatch.FourWattsNeverRamp | src/Pulswerk.Ems/EmsService.cs:436-452 | an input of the other kind: a ramp of 4 W per cycle stays at 0 for ever |
| EnergyDispatch.StuckBelowMinimum | src/Pulswerk.Ems/EmsService.cs:437-452 | from below, a minimum that rounds down is allocated rounded in every cycle for ever |
| EnergyDispatch.MinimumOf1384WattsNeverRamps | src/Pulswerk.Ems/EmsService.cs:437-452 | such an input: a minimum of 1.384 kW |
| KnxFloat.Encode | src/Pulswerk.Drivers/Knx/KnxDpt.cs:245-280 | the exponent is the least that fits (or 15), and decoding the bytes is within half a step of the value exactly for the values in range |
| KnxFloat.DecodedFields | src/Pulswerk.Drivers/Knx/KnxDpt.cs:143-153 | the bits are sign, four of exponent and eleven of mantissa, which together stand for the two's complement mantissa times the power of two, in hundredths |
| KnxFloat.TwentyOneDegrees | src/Pulswerk.Drivers/Knx/KnxDpt.cs:143-280 | 21 is sent as 0C 1A and read back |
| KnxFloat.ErrorBoundIff | src/Pulswerk.Drivers/Knx/KnxDpt.cs:143-154 | error at most 0.005 * 2^e at the least exponent that fits, exactly for -671252.48 <= v < 670924.8 outside [-0.005, 0) |
| KnxFloat.NegativeZeroDecodesTo2048 | src/Pulswerk.Drivers/Knx/KnxDpt.cs:272-276 | every value in [-0.005, 0) comes back as -20.48 |
| KnxFloat.ValueIsExact | src/Pulswerk.Drivers/Knx/KnxDpt.cs:146-153 | the rounding in the decoder never changes a value |
| KnxFloat.DecodeEncodeDecode | src/Pulswerk.Drivers/Knx/KnxDpt.cs:143-280 | a decoded value encodes and decodes to itself, for all byte pairs |
| KnxCtr.IncrementCounter | src/Pulswerk.Drivers/Knx/KnxSecureCrypto.cs:143-149 | the array holds the successor of the old counter |
| KnxCtr.SuccessorIsPlusOne | src/Pulswerk.Drivers/Knx/KnxSecureCrypto.cs:143-149 | the successor is plus one modulo 256^n on the big-endian value |
| KnxCtr.AdvancedValue | src/Pulswerk.Drivers/Knx/KnxSecureCrypto.cs:143-149 | n increments add n modulo 2^128 |
| KnxCtr.CountersDistinct | src/Pulswerk.Drivers/Knx/KnxSecureCrypto.cs:129-139 | no two of the first 2^128 keystream blocks come from the same counter |
| KnxCtr.XorWithKeystream | src/Pulswerk.Drivers/Knx/KnxSecureCrypto.cs:120-141 | every byte is xored with the keystream that starts at the counter, or one further; up to one block without advancing leaves the counter alone |
| KnxCtr.XorIsBitwise | src/Pulswerk.Drivers/Knx/KnxSecureCrypto.cs:120-141 | exclusive or of two bytes, bit by bit |
| KnxCtr.Ctr | src/Pulswerk.Drivers/Knx/KnxSecureCrypto.cs:109-118 | the MAC meets block S0 and the payload S1, S2, ...; the caller's counter is not changed |
| KnxCtr.CtrBytes | src/Pulswerk.Drivers/Knx/KnxSecureCrypto.cs:109-141 | payload byte j is xored with E(counter0 + 1 + j/16)[j%16], MAC byte j with E(counter0)[j] (NIST SP 800-38A, section 6.5) |
| KnxCtr.CtrTwiceIsIdentity | src/Pulswerk.Drivers/Knx/KnxSecureCrypto.cs:104-118 | applying it twice restores payload and MAC |
| KnxMac.FillBlocks | src/Pulswerk.Drivers/Knx/KnxSecureCrypto.cs:73-90 | the array holds block 0, the two length bytes, the additional data, the payload and zeros up to a multiple of 16 |
| KnxMac.LayoutParts | src/Pulswerk.Drivers/Knx/KnxSecureCrypto.cs:73-90 | where block 0, the two length bytes, the additional data and the payload stand, and that only zeros follow |
| KnxMac.SameLayoutIff | src/Pulswerk.Drivers/Knx/KnxSecureCrypto.cs:73-90 | two inputs fill the same blocks exactly when block 0 and additional data agree and the payloads differ by trailing zeros only |
| KnxMac.SameLengthsToldApart | src/Pulswerk.Drivers/Knx/KnxSecureCrypto.cs:73-90 | payloads of one length, and additional data of any, are told apart |
| KnxMac.TrailingZeroLooksAlike | src/Pulswerk.Drivers/Knx/KnxSecureCrypto.cs:73-90 | the empty payload and a single zero byte fill the same blocks under the same block 0 |
| KnxCemi.BuildFrame | src/Pulswerk.Drivers/Knx/KnxConnection.cs:784-850 | the packet is the tunnelling request with its lengths, address, command, sequence number and payload |
| KnxCemi.LongWriteRoundTripIff | src/Pulswerk.Drivers/Knx/KnxConnection.cs:786-839 | a long write passes the header checks and comes back with its address, payload and command exactly for 1 to 254 bytes |
| KnxCemi.LongWriteRoundTrip | src/Pulswerk.Drivers/Knx/KnxConnection.cs:490-593 | the received side of that round trip |
| KnxCemi.ShortWriteRoundTrip | src/Pulswerk.Drivers/Knx/KnxConnection.cs:582-586 | a short write comes back as the low 6 bits of its first byte |
| KnxCemi.ShortWriteRoundTripIff | src/Pulswerk.Drivers/Knx/KnxConnection.cs:831-834 | it comes back unchanged exactly for a single byte below 64 |
| KnxCemi.PayloadLength | src/Pulswerk.Drivers/Knx/KnxConnection.cs:574-593 | whatever arrives, a telegram carries 1 to 254 bytes |
| KnxCemi.TelegramsAreResponsesOrWrites | src/Pulswerk.Drivers/Knx/KnxConnection.cs:553-580 | whatever bytes arrive, a telegram has message code 0x29 or 0x11 and command 1 or 2, and is a write exactly for 2 |
| KnxCemi.ReadsAndConfirmationsIgnored | src/Pulswerk.Drivers/Knx/KnxConnection.cs:553-580 | so any received frame with message code 0x2E or command 0 is ignored |
| KnxCemi.SentReadsAreReads | src/Pulswerk.Drivers/Knx/KnxConnection.cs:826-839 | the frames sent for reads have command 0 |
| KnxWire.ReceivedIffOnWire | src/Pulswerk.Drivers/Knx/KnxConnection.cs:488-593 | a received frame is taken as a response or write to an address exactly if it has, byte for byte, the form of one: message code 0x29 or 0x11, any additional info, command 1 or 2, six bits or 1 to 254 bytes of value, and a stated length that reaches its last byte but one |
| KnxWire.TelegramIsReceived | src/Pulswerk.Drivers/Knx/KnxConnection.cs:545-593 | so every such telegram is taken in with its address, payload and command |
| KnxWire.SentIsOnWire | src/Pulswerk.Drivers/Knx/KnxConnection.cs:784-850 | what is sent has that form, as a request from address 0 without additional info |
| KnxCache.KnxConnection.RegisterAddress | src/Pulswerk.Drivers/Knx/KnxConnection.cs:651-655 | every address but 0 becomes known |
| KnxCache.KnxConnection.OnFrame | src/Pulswerk.Drivers/Knx/KnxConnection.cs:490-633 | an ignored frame changes nothing; a telegram refreshes its entry, and only a new entry may push others out; a push is reported exactly for writes |
| KnxCache.KnxConnection.EnforceCacheBound | src/Pulswerk.Drivers/Knx/KnxConnection.cs:663-680 | nothing up to 4096 entries; beyond that the oldest-seen unregistered entries are gone, as many as bring the cache to 3686 or all of them |
| KnxCacheRuns.BoundedSize | src/Pulswerk.Drivers/Knx/KnxConnection.cs:663-680 | up to 4096 entries stay; beyond that 3686 stay, or all registered ones if these are more |
| KnxCacheRuns.ShownByAge | src/Pulswerk.Drivers/Knx/KnxConnection.cs:156-165 | a cached value is shown up to the configured age, or always |
| KnxCacheRuns.PulledByAge | src/Pulswerk.Drivers/Knx/KnxConnection.cs:187-206 | a pull is due for a missing value, and from 60 s before that age on, but not before half of it |
| KnxCacheRuns.UnboundedIsLatestTelegram | src/Pulswerk.Drivers/Knx/KnxConnection.cs:595-613 | the unbounded cache holds exactly the latest telegram of each address |
| KnxCacheRuns.CacheAgreesWithUnbounded | src/Pulswerk.Drivers/Knx/KnxConnection.cs:595-680 | after every event of every run at most 4096 entries or only registered ones are cached, each is the latest telegram, and the entry of an address registered before its first telegram is the unbounded one in every part |
| KnxCacheRuns.CompleteStays | src/Pulswerk.Drivers/Knx/KnxConnection.cs:651-680 | a registered address for which nothing received is missing is never evicted, after any further events |
| KnxCacheRuns.TelegramCompletes | src/Pulswerk.Drivers/Knx/KnxConnection.cs:595-616 | the next telegram for a registered address brings it into that state, whatever was evicted before it was registered |
| KnxCacheRuns.RegisteredReadersSeeEverything | src/Pulswerk.Drivers/Knx/KnxConnection.cs:156-205 | from then on readers and the sweep cannot tell the bounded cache from the unbounded one for this address |
| KnxCacheRuns.ShownIsLatest | src/Pulswerk.Drivers/Knx/KnxConnection.cs:156-165 | for every address the value shown is the latest telegram's or none |
| KnxCacheRuns.HiddenNeedsPull | src/Pulswerk.Drivers/Knx/KnxConnection.cs:156-205 | a value that is not shown always needs a pull |
| KnxCacheRuns.SweepKeepsValueVisibleIff | src/Pulswerk.Drivers/Knx/KnxConnection.cs:187-205 | for every window: checks always find a silent value due while it is still shown exactly when no gap between them exceeds the time from due to hidden |
| KnxCacheRuns.SixtySecondSweepIff | src/Pulswerk.Drivers/Knx/KnxConnection.cs:195-205 | for checks at most 60 s apart that is a window of at least 120 s |
| KnxCacheRuns.SendingTimeIsNotCovered | src/Pulswerk.Drivers/Knx/KnxConnection.cs:706-762 | for checks 60 s and the time of sending apart it is no window |
| KnxCacheRuns.ChangedIsStartOfPayload | src/Pulswerk.Drivers/Knx/KnxConnection.cs:595-613 | the time of change is that of the telegram with which the present payload began, after another one or none |
| BacnetViews.Walk | src/Pulswerk.Drivers/BACnet/BacnetHierarchy.cs:112-142 | every view reachable from the top-level list is in the tree exactly once and nothing else is; roots are top-level views; the fallback list is used when the first is empty; and the tree is the one that a depth-first walk along the lists makes |
| BacnetViews.ExploredIsUnique | src/Pulswerk.Drivers/BACnet/BacnetHierarchy.cs:146-217 | a depth-first walk leaves no choice: two such trees have the same ids in the same places |
| BacnetViews.WalkView | src/Pulswerk.Drivers/BACnet/BacnetHierarchy.cs:146-217 | null exactly for a visited view; otherwise a fresh tree of views not visited before, all reachable, closed under subordinate views up to the visited ones; terminates on cycles |
| BacnetViews.WalkChild | src/Pulswerk.Drivers/BACnet/BacnetHierarchy.cs:187-214 | after each subordinate the children follow the list so far: devices and visited views are skipped, points become leaves |
| BacnetViews.ClosedHoldsReachable | src/Pulswerk.Drivers/BACnet/BacnetHierarchy.cs:153 | a visited set closed under subordinate views holds everything reachable from its members |
| BacnetViews.RootedIsExact | src/Pulswerk.Drivers/BACnet/BacnetHierarchy.cs:130-141 | once every top-level entry is handled, the views in the tree are exactly those with a path from the list |
| BacnetViews.FollowsKeepsPoints | src/Pulswerk.Drivers/BACnet/BacnetHierarchy.cs:194-213 | children that follow a subordinate list have its data points, in order and as often, and no device |
| BacnetViews.ShownPoints | src/Pulswerk.Drivers/BACnet/BacnetHierarchy.cs:187-217 | wherever a view stands in the finished tree, the points under it are those of its own list |
| LogBuffers.LogBuffer.constructor | src/Pulswerk.Core/LogBuffer.cs:56-61 | an empty buffer of the requested capacity, 5000 if that is not positive |
| LogBuffers.LogBuffer.Add | src/Pulswerk.Core/LogBuffer.cs:67-87 | each ring keeps holding exactly the last entries of its own class; null is ignored |
| LogBuffers.RingAdd | src/Pulswerk.Core/LogBuffer.cs:73-85 | writing at the head and moving it on keeps a ring equal to the last `capacity` entries ever added to it |
| LogBuffers.RingSlot | src/Pulswerk.Core/LogBuffer.cs:100-112 | the computed position holds the entry that is meant |
| LogBuffers.LogBuffer.GetLatest | src/Pulswerk.Core/LogBuffer.cs:92-121 | min(n, stored) retained entries in time order; when each class is in time order, everything left out is no newer than anything returned |
| LogBuffers.NewestOfTails | src/Pulswerk.Core/LogBuffer.cs:100-118 | the newest n of the two tails of length n are the newest n of everything retained |
| LogBuffers.OutOfOrderHidesNewer | src/Pulswerk.Core/LogBuffer.cs:100-118 | every class that is not in time order has a count at which a newer entry is passed over for an older one |
| LogBuffers.AlwaysNewestIff | src/Pulswerk.Core/LogBuffer.cs:92-121 | beside every ordered other class and for every count the result is the newest of everything retained, exactly if the class is in time order |
| LogBuffers.LogBuffer.Count | src/Pulswerk.Core/LogBuffer.cs:132-138 | the number of retained entries |
| AsOfJoin.MergeHistory | src/Pulswerk.Dashboard/Services/TelemetryService.cs:584-665 | one joined point per time with a result, from what each key knows at that time; the times are all times of the series, strictly increasing; every iterator ends at the end of its list |
| AsOfJoin.Evaluate | src/Pulswerk.Dashboard/Services/TelemetryService.cs:616-660 | a path sum gives the sum of what is known of its keys, a consumption formula what is known of its first key, any other formula its rounded result |
| AsOfJoin.AdvanceKey | src/Pulswerk.Dashboard/Services/TelemetryService.cs:606-613 | points up to the time are consumed, no other key is touched, and the last value met is known |
| AsOfJoin.AdvanceAll | src/Pulswerk.Dashboard/Services/TelemetryService.cs:602-614 | every key of the list is moved on to the time |
| AsOfJoin.StopResumes | src/Pulswerk.Dashboard/Services/TelemetryService.cs:604-613 | going on from an earlier stop ends where a sweep from the start would |
| AsOfJoin.SweepIsAsOf | src/Pulswerk.Dashboard/Services/TelemetryService.cs:602-614 | where no valued point stands behind a later one, the value known is the newest one at or before the time, missing exactly when there is none |
| AsOfJoin.AllConsumed | src/Pulswerk.Dashboard/Services/TelemetryService.cs:587-613 | at the last time every point has been consumed |
| AsOfJoin.JoinedInOrder | src/Pulswerk.Dashboard/Services/TelemetryService.cs:587-665 | joined points come in strictly increasing time order, at times of the series |
| AsOfJoin.ConsumesNewestIff | src/Pulswerk.Dashboard/Services/TelemetryService.cs:606-613 | the sweep has consumed the newest valued point at every time exactly if no valued point stands behind a later one |
| AsOfJoin.LaterPointFirst | src/Pulswerk.Dashboard/Services/TelemetryService.cs:606-613 | a point of time 3 behind one of time 5 is unknown at 4 and replaces the newer value at 5 |
| AsOfJoin.IteratorCountsIff | src/Pulswerk.Dashboard/Services/TelemetryService.cs:604-613 | the iterator counts the points up to every time exactly if the points are in time order |
| AssetTree.MergeDtoIntoTree | src/Pulswerk.Dashboard/Services/AssetTreeService.cs:122-172 | merging linked nodes in place leaves a proper tree whose value is the merge of the old values, touching nothing outside the two trees; terminates |
| AssetTree.JoinNode | src/Pulswerk.Dashboard/Services/AssetTreeService.cs:129-131 | telemetries are appended and the node's children merged in turn; the node itself stays as it is |
| AssetTree.Folder | src/Pulswerk.Dashboard/Services/AssetTreeService.cs:140-152 | the first child of the segment's name, made at the end if missing, which changes no merge below that segment |
| AssetTree.Descend | src/Pulswerk.Dashboard/Services/AssetTreeService.cs:154-171 | the three ways to go on from the folder of the first segment |
| AssetForest.MergeConserves | src/Pulswerk.Dashboard/Services/AssetTreeService.cs:122-172 | the telemetries after a merge are those before plus those of the merged node, as multisets |
| AssetPaths.MergeExists | src/Pulswerk.Dashboard/Services/AssetTreeService.cs:122-172 | after a merge there is a node at exactly those paths where there was one, at the folders of the merged node, and where its tree has one |
| AssetPaths.MergeOrder | src/Pulswerk.Dashboard/Services/AssetTreeService.cs:122-152 | siblings stay in place and a new one comes last |
| AssetPaths.AppendOrder | src/Pulswerk.Dashboard/Services/AssetTreeService.cs:96-99 | a tree without a path comes behind all roots |
| AssetForest.MergeFound | src/Pulswerk.Dashboard/Services/AssetTreeService.cs:122-172 | following any path by first names finds what was there, and behind it what the merged node has there counted from its target (the last folder itself when it has the node's name) |
| AssetForest.OwnTelemetriesFound | src/Pulswerk.Dashboard/Services/AssetTreeService.cs:122-172 | the node's own telemetries are found at its target behind those that were there, for every tree |
| AssetForest.MergeUnique | src/Pulswerk.Dashboard/Services/AssetTreeService.cs:126-136 | sibling names stay unique at every level |
| AssetForest.AppendUniqueIff | src/Pulswerk.Dashboard/Services/AssetTreeService.cs:96-99 | a tree without a path keeps sibling names unique exactly if no root has its name |
| AssetForest.BuildConserves | src/Pulswerk.Dashboard/Services/AssetTreeService.cs:20-103 | after any number of trees, merged or taken in as roots, nothing is lost or doubled |
| AssetForest.BuildFinds | src/Pulswerk.Dashboard/Services/AssetTreeService.cs:20-103 | where roots and siblings come with new names, all names are unique and every path shows what the trees have there, in the order they were taken in |
| FormulaExpansion.ReplacedToken | src/Pulswerk.Dashboard/DashboardDataService.cs:186-197 | every token of a rewritten formula comes from what one of its tokens was rewritten to |
| FormulaExpansion.ExpandResolves | src/Pulswerk.Dashboard/DashboardDataService.cs:181-198 | after one expansion by a stable id every token is a keyword or carries a known device prefix |
| FormulaExpansion.ExpansionLosesNothing | src/Pulswerk.Dashboard/DashboardDataService.cs:186-197 | stripping the device's prefix from an expanded formula gives the formula back |
| FormulaExpansion.ExpandIsIdempotent | src/Pulswerk.Dashboard/Services/TelemetryService.cs:422-429 | a second expansion changes nothing, for every formula and any configured devices, if the id is one token without a colon |
| FormulaExpansion.IdempotentIff | src/Pulswerk.Dashboard/DashboardDataService.cs:181-198 | for any configured devices, expansion is idempotent exactly when every token of the expanded `x` is resolved, or the id contains `pathsum(` |
| FormulaExpansion.StableAloneIff | src/Pulswerk.Dashboard/DashboardDataService.cs:181-198 | without other devices that is an id of one token without a colon |
| FormulaExpansion.UnstableExpandsTwice | src/Pulswerk.Dashboard/DashboardDataService.cs:181-198 | for any other id the formula `x` shows it |
| FormulaText.ExpansionIs | src/Pulswerk.Dashboard/DashboardDataService.cs:181-198 | for every formula, letter by letter: one that contains `pathsum(` in any case stays; in any other each longest word of letters, digits, `_`, `-` and `:` that begins with a letter gets the device id and `_` in front, unless it reads consumption or pathsum in any case or begins with a known id and `_` |
| FormulaText.Pieces | src/Pulswerk.Dashboard/DashboardDataService.cs:186 | every formula falls into such words and other characters |
| Rollover.CalculationEngine.Process | src/Pulswerk.Storage/CalculationEngine.cs:83-163 | only this key's entries change; the first reading stores itself and its hour, day, month and year; after any later one of a complete key the stored hour, day, month and year are its own, each of the four figures is persisted exactly if the stored period differed, as max(0, value - base) to four decimals with the start of the period, its base is then the reading, and the live figures count from the bases now stored; a known key that lacks an entry raises the exception, and exactly such a key does |
| Rollover.CalculationEngine.Update | src/Pulswerk.Storage/CalculationEngine.cs:110-160 | the four rollovers and the eight figures |
| Rollover.CalculationEngine.SeedState | src/Pulswerk.Storage/CalculationEngine.cs:60-77 | the counters of one key are set, the year with the base of the month |
| Rollover.CalculationEngine.Load | src/Pulswerk.Storage/CalculationEngine.cs:180-205 | saved entries replace those of their keys, dictionary by dictionary |
| Rollover.UnroundedTelescopes | src/Pulswerk.Storage/CalculationEngine.cs:110-148 | the persisted deltas before rounding sum to the change of the base plus what clamping hides |
| Rollover.TelescopesWhenNeverFalling | src/Pulswerk.Storage/CalculationEngine.cs:96-159 | for a meter that never falls, persisted plus live equals current minus first within (k + 1) * 0.00005 for k rollovers, whatever the gaps between readings |
| Rollover.TotalIsChange | src/Pulswerk.Storage/CalculationEngine.cs:96-159 | the same for any meter, with what clamping hides |
| Rollover.UnroundedTotalIsChangeIff | src/Pulswerk.Storage/CalculationEngine.cs:96-159 | before rounding the total is the change exactly when no rollover and not the last reading falls below its base |
| Rollover.GranularitiesAgree | src/Pulswerk.Storage/CalculationEngine.cs:110-159 | any two of hour, day, month and year agree within their rounding |
| Rollover.ProcessAll | src/Pulswerk.Storage/CalculationEngine.cs:83-163 | over readings one after the other, what the outcomes have persisted together with the last live figure is the total the telescoping speaks of, for every granularity; and as many entries are persisted as readings differ in hour, day, month or year from the one before |
| Rollover.RolloversAreChanges | src/Pulswerk.Storage/CalculationEngine.cs:112-143 | a counter closes as often as its period changes from one reading to the next |
| Rollover.ProcessIncomplete | src/Pulswerk.Storage/CalculationEngine.cs:110-159 | a known key that lacks an entry answers every reading with the exception |
| Rollover.ProcessOlderFile | src/Pulswerk.Storage/CalculationEngine.cs:180-205 | so does every known key of any loaded file without its year |
| Rollover.CalculationEngine.RegisterKey | src/Pulswerk.Storage/CalculationEngine.cs:44-58 | consumption keys, and no others, join those whose readings are processed |
| GapFinder.FindGaps | src/Pulswerk.Dashboard/Services/ConsumptionService.cs:38-72 | gaps are ordered, disjoint, in range and free of existing points; every instant up to min(end, now) is in a gap or within 1.5 intervals of a point; and an instant is in a gap exactly when it is missing before, between or behind the points |
| GapFinder.CloseGaps | src/Pulswerk.Dashboard/Services/ConsumptionService.cs:60-71 | the part of this behind the last point |
| GapFinder.CalculateGaps | src/Pulswerk.Dashboard/Services/ConsumptionService.cs:121-135 | the points of all gaps, at distinct times, and of these the complete ones are inserted |
| GapFinder.FillGaps | src/Pulswerk.Dashboard/Services/ConsumptionService.cs:114-145 | filling with points inside the gaps gives strictly increasing times, keeps every point, and inserts exactly the complete ones, none at an existing time |
| GapFinder.FillRecent | src/Pulswerk.Dashboard/Services/ConsumptionService.cs:96-111 | exactly the existing points and those of the last week of the last gap (none if the gap ends before), at strictly increasing times |
| Ordering.StableSortKeepsOrder | src/Pulswerk.Ems/EmsService.cs:404 | the sort behind OrderBy keeps elements with equal keys in order |
| Rounding.Round2Monotone | src/Pulswerk.Ems/EmsService.cs:452-453 | rounding to hundredths keeps order |
| Rounding.Round2IsNearest | src/Pulswerk.Ems/EmsService.cs:452-453 | the nearest whole number of hundredths, the even one of two equally near |
| Rounding.Round4IsNearest | src/Pulswerk.Storage/CalculationEngine.cs:114 | the nearest whole number of ten-thousandths, likewise |

## Left out

- Influx and SQLite queries, HTTP, WebSocket, TCP, the BACnet library, files, logging and timers: foreign calls; a query answer is a parameter with its stated contract.
- Floating-point error, NaN and infinities; the infinite source headroom of dispatch is its own case.
- Real AES, SHA, PBKDF2 and X25519, and the KNX session handshake, reconnect and heartbeat loops: the block cipher is an arbitrary function on 16-byte blocks.
- JSON text of the saved states: the envelope is three bucket lists and a version; a missing list counts as empty, and a null entry inside a list is not part of the model.
- Times before 1970 are modelled (C# division truncates toward zero), but the state machine of process starts begins at 0.
- RollingEnergy.Accumulate: buckets are values in the dictionaries, not objects, so that two references to one bucket are not modelled; the code shares none.
- RollingEnergy.RollingEnergyCalculator.GetTotals: one method for the three tiers instead of three methods of the same shape.
- EnergyIntegration.NoDoubleIntegration: seen from one tier at a time; live times do not run back and are not before the start of the process, meter keys and consumer ids are distinct, and the store returns points within the queried range. Any number of backfills of one process may run; each begins its passes in any order, as often as it likes.
- EnergyDispatch.Dispatch: the status is one of seven values instead of its text, and a list that names one consumer twice is not modelled.
- KnxFloat.Encode: what the C# cast to int does beyond its range, for values above 7 * 10^11, is unspecified there; the model keeps the low bits. The other datapoint types are table lookups or plain byte orders.
- KnxMac.FillBlocks: the CBC chaining of the library call behind it.
- KnxCemi.BuildFrame: no session, no frame; the counter behind the sequence number is a parameter. Payloads so long that the total length wraps are covered by the two length bytes only.
- Parsing of malformed frames is modelled with every exception counting as ignored; KNX group address texts are not modelled.
- KnxCache.KnxConnection.GetCachedValue: the clock is a parameter, and the cap is the constant 4096, which nothing in the code changes.
- KnxCacheRuns.CacheAgreesWithUnbounded: the time of change of an entry that was evicted and came back starts anew, so it agrees for registered addresses only.
- BacnetViews.Walk: names, descriptions and other properties of the nodes, and how a list is read entry by entry; a view whose list cannot be read has an empty one.
- LogBuffers.LogBuffer.GetLatest: List.Sort is unstable, so nothing is said about the order of entries with equal times.
- AsOfJoin.MergeHistory: DataTable.Compute is an arbitrary function of the known values; a result that is no number gives no point. A single key that is the whole formula is answered by the store alone.
- AssetTree.MergeDtoIntoTree: ids, types and other labels of the nodes; two nodes of the merged trees are never the same object.
- FormulaExpansion.ExpandIsIdempotent: letters are compared without case only in ASCII, and prefixes character by character; a blank formula has no tokens and needs no case of its own.
- Rollover.CalculationEngine.Process: minutes and seconds of the time, which make no difference; readings whose hour of day is the same after a whole day do not roll the hour over, as in the code.
- GapFinder.FindGaps: points come in time order from within the range, as the store returns them; the background tasks for large gaps only call the store.
- GapFinder.FillGaps: that all gaps are filled at once only up to 30 days in all, and otherwise the last week of the last one (FillRecent).
- AlarmStore, DevicePoller, ControlEngine, configuration merging, the invoice and the label tables: shallower than the above.
