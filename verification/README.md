# Verified model of the topology plugin and of the engine headers it builds on

The repository is a power-grid topology plugin (`src/yj`) written against the headers of a graph engine
(`include/nebula`). This project models the parts whose correctness is not visible from any single function,
and proves statements about all their inputs, runs and interleavings.

| Part | Files |
|---|---|
| Three-layer memory accounting: what one call does, the objects, whole runs, the atomic steps of concurrent threads, and their races | `Sums`, `MemorySpec`, `MemoryTracker`, `MemoryRuns`, `MemoryConcurrent`, `MemorySolo`, `MemoryRaces`, `MemoryHonest`, `MemoryOverdraft` |
| The island-labelling loop: one racy round, the loop, when it exits, when the data race is harmless, and the loop as an object | `Race`, `Islands`, `IslandPositions`, `IslandExit`, `IslandTheorems`, `IslandFrontier`, `IslandLoop`, `IslandSchedules`, `IslandHarmless`, `IslandDistance` |
| Compare-and-swap updates, slicing for the thread pool, `edgeMap` | `AtomicWrites`, `Slicing`, `EdgeMap` |
| Wire format and key format | `Arithmetic`, `Bytes`, `Codec`, `CodecTheorems`, `CodecBytes`, `CodecBuffer`, `KeyCodec`, `KeyRange` |
| `StringView`, edge identity, module reference counts | `StringView`, `EdgeBits`, `EdgeId`, `HolderRuns`, `Holders` |

Objects that the source updates in place are classes whose methods are proved against functions on values; the
laws are proved about those functions and hold of the objects through the methods' postconditions. Concurrency
is modelled as state machines whose steps are the atomic operations of the source, taken in any order.
All amounts, labels and counters are unbounded integers; lengths and sizes have the source's width.

## What was found

* **The labelling loop does not always end.** The update at line 303 of `src/yj/NetworkTopoProcedure.cpp` adds
  the two labels where the maximum is meant. Take any first frontier. If each island that it touches is all
  unseeded, or labelled 0 and one positive value, or labelled -1, 0 and 1 with a 1 among them, every run with
  fused reads ends: on 0 and one positive value within CNs + 1 rounds (`IslandTheorems.TerminatesFast`), in
  general within 3·CNs + 1, or 2·CNs + 1 if the frontier is made of whole islands (`IslandTheorems.Terminates`).
  From whole islands no run ends in all other cases, under any schedule (`IslandTheorems.Diverges`). From a part
  of an island the labels decide that it carries once CNs + 1 rounds are over, when the frontier has become whole
  (`IslandFrontier.LateDecides`); two different positive labels joined inside the frontier decide at once
  (`IslandFrontier.SplitNeverExits`).
* **From part of an island the loop can end too early**, with two labels on one island: nodes labelled 0, 0 and M
  in a row, with the first one as the frontier (`IslandFrontier.RowExitsEarly`). A round is the last one if and
  only if no frontier node is above a node across a closed switch, for all labels, frontiers and schedules
  (`IslandExit.ExitIff`). On labels 0 and M, `IslandDistance.ExitsWhenStill` says when that happens and which
  islands are left with two labels.
* **The data race marked in the source is real, also on seeds 0 and M.** The test at line 300 and the addition
  at line 303 read the label separately. With two closed switches in parallel the labels can leave {0, M}, and
  from then on no run ends (`IslandTheorems.DataRaceDiverges`). The exact conditions are proved, for every
  frontier. For all labels, all schedules agree if and only if no round of the synchronous loop has a node that
  two switches would raise (`IslandSchedules.IndependentIff`). For all islands that settle with fused reads, a
  condition on the grid, the labels and the frontier alone decides between two cases: every schedule ends, or
  after some prefix none does (`IslandDistance.SingleFedIffExits`, over finitely many steps by
  `IslandDistance.SingleFedBounded`). For seeds 0 and M and whole islands it says: no node at a distance d > 0
  from the nodes labelled M is next to two closed switches that touch nodes at distance d - 1
  (`IslandDistance.ExitsAlwaysIff`). In the schedules that go wrong under these conditions each switch works on one
  node at a time, as the loop at line 299 does.
* **Slices stay inside the container for every range if and only if the pool has at most 72 threads**
  (`Slicing.SafePools`). The criterion by squares gives 71, and is sufficient but not necessary.
* **The bounds on reserves survive failed acquires, and fail in one case only.** For byte sizes, every reserve
  stays within its quantum throughout a run if and only if the query's reserve covers each operator destroyed
  with a negative amount (`MemoryRuns.RunReservedIff`), and limits hold as well if and only if the query's limit
  covers it too, since a destructor charges without a check (`MemoryRuns.RunBoundedIff`). Global's amount then
  lies between real usage and one quantum per live tracker more (`MemoryRuns.GlobalTracksUsage`).
* **Concurrent calls can push a query's reserve out of [0, 65536]** although all amounts stay exact. Acquires alone
  take it below zero if and only if there are two threads, the query may hold a byte more than 65536 and Global
  65536 (`MemoryRaces.ReserveDropsIff`); for what operators ask for, multiples of 4096 bytes, the query's limit
  has to reach 69632 (`MemoryRaces.OperatorsDropIff`). Callers that release no more than they hold have a second
  way: two threads, a query limit of two bytes and a Global limit of 131072 are enough, and there is no third
  (`MemoryOverdraft.HonestDropsIff`, in operator quanta `MemoryOverdraft.OperatorCallsDropIff`). The same
  two-byte limit and 131072 decide whether calls can leave more than 65536 in the reserve when all are over
  (`MemoryOverdraft.OverflowsIff`). One thread never takes it below zero, nor do threads that are never two
  between their read and their subtraction (`MemoryRaces.AloneKeepsReserve`).
* **The wire format and the key format lose values of 2^32 elements or more, and only those**
  (`CodecTheorems.RoundTripIff`, `KeyCodec.RoundTripIff`).
* **`EdgeID::operator<` contradicts `==` off standardized ids**: an edge and its reverse are `==`, and one of them
  is `<` the other (`EdgeId.ReverseIsOrdered`). The exact condition is `EdgeId.OrderIffOneSpelling`.
* **`StringView::compare` is wrong for two families of very long strings.** A string and an extension of it that
  is 2^31 bytes or more longer compare the wrong way round (`StringView.CompareWraps`). Two strings of 2^31 + 4
  bytes or more that begin with the same four bytes are compared by size alone, so that different strings of one
  size compare as 0 (`StringView.CompareMisses`). `StringView.CompareExact` and `StringView.CompareZeroExact`
  give the exact conditions for all sizes below 2^32.
* **Signed integers do not keep their order as keys across zero** (`KeyCodec.SignedOrder`).

## Model

| member | source | states |
|---|---|---|
| `MemorySpec.Draw` | include/nebula/common/memory/MemoryTracker.h:79-88 | what an acquire takes from the parent: whole quanta; none if the reserve suffices, otherwise just enough to leave more than zero and at most one quantum |
| `MemorySpec.DrawUnique` | include/nebula/common/memory/MemoryTracker.h:82-85 | whole quanta with that effect are the draw, however many steps found them |
| `MemorySpec.Surplus` | include/nebula/common/memory/MemoryTracker.h:99-109 | what a release gives back: whole quanta; none up to one quantum, otherwise enough to leave more than zero and at most one quantum |
| `MemorySpec.SurplusUnique` | include/nebula/common/memory/MemoryTracker.h:101-105 | whole quanta with that effect are the surplus |
| `MemorySpec.QueryAcquireBalanced` | include/nebula/common/memory/MemoryTracker.h:75-92 | an acquire moves the same bytes in Global and in the query, whatever its outcome, except that a Global-limit failure leaves the requested size behind in the query |
| `MemorySpec.ReturnQuantaBalanced` | include/nebula/common/memory/MemoryTracker.h:212-215 | any number of single-quantum releases moves equal bytes at both ends of the link |
| `MemorySpec.OperatorAcquireBalanced` | include/nebula/common/memory/MemoryTracker.h:193-205 | an operator's acquire keeps both parent links balanced up to the leak of a Global-limit failure |
| `MemorySpec.OperatorReleaseBalanced` | include/nebula/common/memory/MemoryTracker.h:210-217 | an operator's release keeps both parent links balanced |
| `MemorySpec.OperatorCloseBalanced` | include/nebula/common/memory/MemoryTracker.h:165-174 | destroying an operator returns exactly what it held, also if its amount is negative |
| `MemorySpec.FailureStates` | include/nebula/common/memory/MemoryUsage.h:31-44 | exactly when each limit fails; a Query failure leaves all layers unchanged, a Global failure leaves only the query's amount too high, by the size asked for |
| `MemorySpec.QueryAcquireExact` | include/nebula/common/memory/MemoryTracker.h:75-92 | a query's acquire in numbers: its limit is checked first and Global's only for whole 65536s, none if the reserve suffices and otherwise just enough to leave more than zero; amounts, reserve and both peaks after each outcome |
| `MemorySpec.QueryReleaseExact` | include/nebula/common/memory/MemoryTracker.h:97-113 | a query's release in numbers: Global gets back whole 65536s, none up to one of them and otherwise enough to leave more than zero and at most one |
| `MemorySpec.OperatorAcquireExact` | include/nebula/common/memory/MemoryTracker.h:193-205 | an operator's acquire asks its query for whole 4096s, none if the reserve suffices, and changes itself only if that succeeds |
| `MemorySpec.OperatorReleaseExact` | include/nebula/common/memory/MemoryTracker.h:210-217 | an operator's release hands its query whole 4096s, as one release would |
| `MemorySpec.OperatorCloseExact` | include/nebula/common/memory/MemoryTracker.h:165-174 | destroying an operator that holds memory is one release of all of it |
| `MemorySpec.PeakIsLargest` | include/nebula/common/memory/MemoryUsage.h:31-48 | over any sequence of `alloc` and `free`, refused ones included, the peak is the largest amount there ever was |
| `MemorySpec.FirstQueryAcquire` | include/nebula/common/memory/MemoryTracker.h:28-32 | a query opened with a limit refuses its first acquire iff it is more than the limit and 65536; without a limit, at the largest 64-bit number |
| `MemorySpec.ReturnQuantaReserved` | include/nebula/common/memory/MemoryTracker.h:97-113 | releases keep the query's reserve in [0, 65536] and never raise an amount |
| `MemorySpec.ReturnQuantaBatched` | include/nebula/common/memory/MemoryTracker.h:212-215 | returning quanta one call at a time ends in the state of one call for all of them |
| `MemorySpec.ReleaseBatched` | include/nebula/common/memory/MemoryTracker.h:210-217 | an operator's whole release loop equals one release of its surplus to the query |
| `MemorySpec.TwoReleases` | include/nebula/common/memory/MemoryTracker.h:97-113 | two releases of a query end in the state of one release of the sum |
| `MemoryTracker.MemoryUsage.Alloc` | include/nebula/common/memory/MemoryUsage.h:31-44 | succeeds iff the new amount is within the hard limit; otherwise everything is rolled back |
| `MemoryTracker.MemoryUsage.Free` | include/nebula/common/memory/MemoryUsage.h:46-48 | lowers the amount and nothing else |
| `MemoryTracker.GlobalTracker.constructor` | include/nebula/common/memory/MemoryTracker.h:28-32 | Global opens empty, with the limit it was given |
| `MemoryTracker.QueryTracker.constructor` | include/nebula/common/memory/MemoryTracker.h:28-32 | a query opens empty, with 65536 on top of its limit unless that is the largest 64-bit number |
| `MemoryTracker.QueryTracker.Acquire` | include/nebula/common/memory/MemoryTracker.h:75-92 | outcome and new state of Global and query are those of the specification; the draw loop finds the draw |
| `MemoryTracker.QueryTracker.Release` | include/nebula/common/memory/MemoryTracker.h:97-113 | new state of both layers; the give-back loop finds the surplus |
| `MemoryTracker.QueryTracker.Close` | include/nebula/common/memory/MemoryTracker.h:35-56 | the destructor returns the reserve, not the amount |
| `MemoryTracker.OperatorTracker.Acquire` | include/nebula/common/memory/MemoryTracker.h:193-205 | outcome and new state of all three layers |
| `MemoryTracker.OperatorTracker.Release` | include/nebula/common/memory/MemoryTracker.h:210-217 | new state of all three layers after the loop of single-quantum releases |
| `MemoryTracker.OperatorTracker.Close` | include/nebula/common/memory/MemoryTracker.h:165-174 | the destructor's two releases |
| `MemoryRuns.StepBalanced` | include/nebula/common/memory/MemoryTracker.h:75-113 | every event keeps both layers equal to the sums over their live children, up to the recorded excess |
| `MemoryRuns.Conservation` | include/nebula/common/memory/MemoryTracker.h:75-113 | over every run, with any sizes and failures: a query's amount is what its operators hold plus the excess of failures, Global's amount is what its queries hold less it |
| `MemoryRuns.ExactWithoutFailures` | include/nebula/common/memory/MemoryTracker.h:193-217 | without failures both layers are exact sums, also while memory moves between operators and amounts are negative |
| `MemoryRuns.FirstAcquire` | include/nebula/common/memory/MemoryTracker.h:28-32 | for all limits of Global and of a query, how the first acquire of its first operator ends: the operator asks for the next multiple of 4096 above the size, the query allows 65536 more than its limit, and draws the next multiple of 65536 from Global, which allows its limit |
| `MemoryRuns.Teardown` | include/nebula/common/memory/MemoryTracker.h:35-56 | with all operators gone each query's amount is exactly its excess; with all queries gone Global is at zero |
| `MemoryRuns.CanTearDown` | include/nebula/common/memory/MemoryTracker.h:165-174 | from every reachable state, closing trackers empties the system and brings Global to zero |
| `MemoryRuns.StepReservedIff` | include/nebula/common/memory/MemoryTracker.h:78-91 | one event of byte sizes keeps all reserves within their quantum iff it is no destruction that the query's reserve does not cover; Global stays under its limit either way |
| `MemoryRuns.StepBoundedIff` | include/nebula/common/memory/MemoryTracker.h:165-174 | and keeps reserves and limits iff the query's limit covers the destruction too |
| `MemoryRuns.NonnegativeCloseFits` | include/nebula/common/memory/MemoryTracker.h:170-172 | a destroyed operator with a nonnegative amount is always covered |
| `MemoryRuns.RunReservedIff` | include/nebula/common/memory/MemoryTracker.h:98-110 | reserves are in bounds throughout a run iff every destroyed operator is covered by the reserve at that moment |
| `MemoryRuns.RunBoundedIff` | include/nebula/common/memory/MemoryTracker.h:98-110 | reserves and limits hold throughout iff reserve and limit cover every destroyed operator |
| `MemoryRuns.GlobalTracksUsage` | include/nebula/common/memory/MemoryTracker.h:194-216 | if reserves cover the destroyed operators, Global's amount lies between the operators' real usage U and U + 4096 per operator + 65536 per query, and under the hard limit, failed acquires or not |
| `MemoryRuns.NegativeCloseBreaksBounds` | include/nebula/common/memory/MemoryTracker.h:170-172 | a run with an operator that is not covered when destroyed, which drives the reserve below zero |
| `MemoryConcurrent.StepExact` | include/nebula/common/memory/MemoryTracker.h:75-113 | every atomic step of every thread keeps the two conservation equations with their in-flight corrections |
| `MemoryConcurrent.ExactAlways` | include/nebula/common/memory/MemoryTracker.h:75-113 | hence they hold in every state of every interleaving |
| `MemoryConcurrent.ExactAtRest` | include/nebula/common/memory/MemoryTracker.h:75-113 | and are exact whenever no call is in flight |
| `MemoryConcurrent.SafeAlways` | include/nebula/common/memory/MemoryUsage.h:31-44 | in every interleaving, amounts less what is about to be rolled back stay within the limits |
| `MemoryConcurrent.LimitsHoldAtRest` | include/nebula/common/memory/MemoryUsage.h:31-44 | when no call is in flight no amount exceeds its limit |
| `MemorySolo.SoloAcquire` | include/nebula/common/memory/MemoryTracker.h:75-92 | the atomic steps of an acquire that nobody interrupts add up to the specification's acquire, for every outcome, and touch nothing else |
| `MemorySolo.SoloRelease` | include/nebula/common/memory/MemoryTracker.h:97-113 | so do those of a release |
| `MemoryRaces.AloneKeepsReserve` | include/nebula/common/memory/MemoryTracker.h:79-108 | if no two threads are ever both between reading a query's reserve and subtracting from it, the reserve stays at zero or above, whatever else runs |
| `MemoryRaces.OneThreadKeepsReserve` | include/nebula/common/memory/MemoryTracker.h:75-113 | in particular with one thread, for all acquires and releases |
| `MemoryRaces.RacedReserve` | include/nebula/common/memory/MemoryTracker.h:79-90 | two acquires that both see enough reserve leave it negative |
| `MemoryRaces.RaceFromStart` | include/nebula/common/memory/MemoryTracker.h:79-90 | a whole trace from the initial state, of calls for multiples of any unit, that ends at rest with a reserve of one unit below zero |
| `MemoryRaces.SmallLimitKeepsReserve` | include/nebula/common/memory/MemoryUsage.h:31-44 | a query limited to less than one quantum and one unit never gets there by acquires of whole units |
| `MemoryRaces.AlwaysDry` | include/nebula/common/memory/MemoryUsage.h:31-44 | a Global limit below one quantum never lets anything reach a reserve |
| `MemoryRaces.ReserveDropsIff` | include/nebula/common/memory/MemoryTracker.h:75-92 | some acquires of whole units push the reserve below zero iff there are two threads, the query's limit reaches one quantum and one unit, and Global's reaches one quantum; the unit is a byte in general |
| `MemoryRaces.OperatorsDropIff` | include/nebula/common/memory/MemoryTracker.h:193-205 | for the multiples of 4096 bytes that operators ask for, the query's limit has to reach 69632 |
| `MemoryHonest.HonestFree` | include/nebula/common/memory/MemoryTracker.h:97-113 | if every release is of no more than is held and not yet being released, this stays so in every interleaving |
| `MemoryHonest.StepOut` | include/nebula/common/memory/MemoryTracker.h:75-113 | what a query has drawn, its reserve and what is held less what is being released, changes only when a draw arrives or a surplus leaves |
| `MemoryHonest.ThinGlobal` | include/nebula/common/memory/MemoryUsage.h:31-44 | with Global below two quanta such callers never make a query draw more than one, or give anything back; below one quantum it draws nothing |
| `MemoryHonest.ThinQuery` | include/nebula/common/memory/MemoryUsage.h:31-44 | nor with a query limit below two units |
| `MemoryOverdraft.RacedReleases` | include/nebula/common/memory/MemoryTracker.h:97-113 | two threads acquire a unit each and release it again, both find a surplus, and an acquire takes from what one of them is yet to give back: at rest the reserve is one unit below zero, and nobody released more than was held |
| `MemoryOverdraft.HonestDropsIff` | include/nebula/common/memory/MemoryTracker.h:75-113 | callers that release no more than they hold can push the reserve below zero iff there are two threads and either the condition for acquires holds or the query's limit reaches two units and Global's two quanta; calls of zero bytes make no difference |
| `MemoryOverdraft.OperatorCallsDropIff` | include/nebula/common/memory/MemoryTracker.h:193-217 | the same for multiples of 4096 bytes: 69632 and 65536, or 8192 and 131072 |
| `MemoryOverdraft.OverflowsIff` | include/nebula/common/memory/MemoryTracker.h:79-88 | more than one quantum can be left in the reserve when all calls are over iff there are two threads, the query's limit reaches two units and Global's two quanta, with releases or without |
| `Race.Rises` | src/yj/NetworkTopoProcedure.cpp:299-305 | in every interleaving of the racy update labels never fall |
| `Race.CounterStays` | src/yj/NetworkTopoProcedure.cpp:300-301 | the counter stays put iff no switch exceeds its node, in every interleaving, and then no label moves |
| `Race.TaskServed` | src/yj/NetworkTopoProcedure.cpp:300-304 | a finished task leaves its node at or above the switch's label, or above its own old label by that much |
| `Race.Ladder` | src/yj/NetworkTopoProcedure.cpp:300-304 | a node fed by one positive label keeps its own, gains that label once, or at least twice |
| `Race.FusedInside` | src/yj/NetworkTopoProcedure.cpp:300-304 | with fused reads a label stays in any set closed under the additions that pass the test |
| `Race.RaceFreeSettles` | src/yj/NetworkTopoProcedure.cpp:299-305 | if no node has two switches that would raise it, every interleaving gives the synchronous result |
| `Race.RaceOvershoots` | src/yj/NetworkTopoProcedure.cpp:299-304 | otherwise some interleaving overshoots it, in which each switch works on one node at a time |
| `Race.RaceFreeIffSettles` | src/yj/NetworkTopoProcedure.cpp:299-305 | so a round is schedule-independent iff no node has two such switches, whether or not a switch may work on several nodes at a time |
| `Race.DoubleCount` | src/yj/NetworkTopoProcedure.cpp:302-304 | the interleaving at the race comment adds both switches' labels |
| `Islands.LiftedIsMax` | src/yj/NetworkTopoProcedure.cpp:273-286 | a switch ends the first half with the largest of its own and its frontier nodes' labels |
| `Islands.QuietRound` | src/yj/NetworkTopoProcedure.cpp:271-308 | the last round moves no label and finds every covered island equal |
| `Islands.IslandCorrect` | src/yj/NetworkTopoProcedure.cpp:271-309 | if the loop exits, an island that was in the frontier has one common label, at least every label it started with, under every schedule |
| `Islands.RoundInside` | src/yj/NetworkTopoProcedure.cpp:273-308 | one round on the whole grid looks, from inside a union of islands, like that round on the union alone |
| `Islands.OpenSwitchesIsolate` | src/yj/NetworkTopoProcedure.cpp:288-290 | so do any number of rounds under the same schedules, for labels, switches and frontier |
| `IslandPositions.TasksAre` | src/yj/NetworkTopoProcedure.cpp:288-299 | a switch works on a node next to it iff its position is 1 and some node of the frontier is next to it |
| `IslandPositions.AdjacentIff` | src/yj/NetworkTopoProcedure.cpp:288-299 | two nodes are adjacent iff a switch at position 1 has links to both |
| `IslandPositions.IsolatedIff` | src/yj/NetworkTopoProcedure.cpp:288-299 | nodes form whole islands iff no two links of a switch at position 1 lead out of them |
| `IslandPositions.OtherPositionsHold` | src/yj/NetworkTopoProcedure.cpp:289-290 | a node whose switches all stand at other positions keeps its label in every run |
| `IslandPositions.ConnectedAgree` | src/yj/NetworkTopoProcedure.cpp:271-309 | if the loop exits, nodes that switches at position 1 connect inside the first frontier agree on one label, at least as large as theirs |
| `IslandPositions.OtherSwitchesIsolate` | src/yj/NetworkTopoProcedure.cpp:288-290 | nodes that no switch at position 1 connects with the rest get, in all rounds under all schedules, the labels and frontier that they would have without the rest and without the other switches |
| `IslandPositions.OpenPairHolds` | src/yj/NetworkTopoProcedure.cpp:289-290 | two nodes on one switch at position 0 keep labels 0 and 5 for ever |
| `IslandExit.HopelessForever` | src/yj/NetworkTopoProcedure.cpp:300-304 | an island with two positive labels, or an unseeded node beside 0 only or beside 0 and a label of 2 or more, stays that way for ever |
| `IslandExit.NeverExits` | src/yj/NetworkTopoProcedure.cpp:271-308 | one such island in the frontier keeps the loop running under every schedule |
| `IslandExit.RoundTiered` | src/yj/NetworkTopoProcedure.cpp:273-308 | with fused reads a settling island's labels stay on their way to its highest one |
| `IslandExit.RunsDown` | src/yj/NetworkTopoProcedure.cpp:271-308 | every further round of a settling run uses up potential or widens the frontier, from any frontier |
| `IslandExit.ExitIff` | src/yj/NetworkTopoProcedure.cpp:271-308 | for all labels, frontiers and schedules, a round is the last iff no frontier node is above a node across a closed switch, and then it moves no label |
| `IslandTheorems.SettlesOrHopeless` | src/yj/NetworkTopoProcedure.cpp:271-308 | the two conditions on an island's labels are complementary |
| `IslandTheorems.Diverges` | src/yj/NetworkTopoProcedure.cpp:271-308 | from a frontier of whole islands, one of which does not settle, no run exits, under any schedule |
| `IslandTheorems.Terminates` | src/yj/NetworkTopoProcedure.cpp:271-309 | from any frontier whose islands all settle, every run with fused reads exits within 3·CNs + 1 rounds; from whole islands within 2·CNs + 1, with the highest initial label of its island on every node |
| `IslandTheorems.TerminatesFast` | src/yj/NetworkTopoProcedure.cpp:267-309 | from any frontier, on labels 0 and M per island, or none seeded: within CNs + 1 rounds, and no label is ever anything else |
| `IslandFrontier.FilledAfter` | src/yj/NetworkTopoProcedure.cpp:271-308 | after CNs + 1 rounds any frontier is made of whole islands |
| `IslandFrontier.LateDecides` | src/yj/NetworkTopoProcedure.cpp:271-309 | and then the labels of that moment decide: one island does not settle and no run exits any more, or all do and every continuation with fused reads exits within 2·CNs + 1 rounds |
| `IslandFrontier.SplitNeverExits` | src/yj/NetworkTopoProcedure.cpp:271-308 | two different positive labels that are joined inside the frontier keep the loop running under every schedule |
| `IslandFrontier.RowExitsEarly` | src/yj/NetworkTopoProcedure.cpp:269-271 | three nodes in a row labelled 0, 0 and M, the first one in the frontier: the loop ends after one round with two labels on the island |
| `IslandTheorems.PairExitsIffEqual` | src/yj/NetworkTopoProcedure.cpp:273-308 | two CNs, one closed switch, labels at least 1: every run exits iff the labels are equal |
| `IslandTheorems.BadRound` | src/yj/NetworkTopoProcedure.cpp:302-304 | two switches in parallel: a schedule of the first round that doubles the label |
| `IslandTheorems.DataRaceDiverges` | src/yj/NetworkTopoProcedure.cpp:302-304 | on labels 0 and m all fused runs exit within three rounds, and no run exits after that schedule |
| `IslandLoop.Labelling.PushToSwitches` | src/yj/NetworkTopoProcedure.cpp:273-286 | the first half of a round: reached switches, and their labels as maxima |
| `IslandLoop.Labelling.RunTasks` | src/yj/NetworkTopoProcedure.cpp:299-305 | the update, task by task, is a complete schedule of the racy round, with its labels and its counter |
| `IslandLoop.Labelling.PushBack` | src/yj/NetworkTopoProcedure.cpp:288-308 | the second half of a round and the next frontier |
| `IslandLoop.Labelling.RunRound` | src/yj/NetworkTopoProcedure.cpp:272-308 | one iteration is one round of the model |
| `IslandLoop.Labelling.RunToExit` | src/yj/NetworkTopoProcedure.cpp:267-309 | from any frontier whose islands settle, the loop is a run of the model that exits within these bounds; from whole islands with the highest initial label on every node |
| `IslandSchedules.SyncIsSettled` | src/yj/NetworkTopoProcedure.cpp:299-305 | the synchronous labels are the only ones a race-free round can give |
| `IslandSchedules.SyncSchedule` | src/yj/NetworkTopoProcedure.cpp:299-305 | some interleaving of every round is synchronous, and in it each switch works on one node at a time |
| `IslandSchedules.CalmRound` | src/yj/NetworkTopoProcedure.cpp:272-308 | in a round where no node has two switches that would raise it, every schedule gives the synchronous round |
| `IslandSchedules.CalmRun` | src/yj/NetworkTopoProcedure.cpp:271-309 | as long as rounds are like that, every run is the synchronous run |
| `IslandSchedules.IndependentIff` | src/yj/NetworkTopoProcedure.cpp:271-309 | all runs agree in labels and exit iff all rounds of the synchronous loop are like that, for every grid, all labels and every frontier; so do all runs in which each switch works on one node at a time |
| `IslandHarmless.CalmExits` | src/yj/NetworkTopoProcedure.cpp:267-309 | any frontier, all rounds calm: every schedule exits within the bounds for fused reads; from whole islands with the highest label of each; on labels 0 and M labels never leave {0, M} |
| `IslandHarmless.RoughIsDoomed` | src/yj/NetworkTopoProcedure.cpp:267-309 | any frontier, some round not calm: there is a prefix, with each switch at one node at a time, after which no run exits, under any schedules |
| `IslandHarmless.CalmOrDoomed` | src/yj/NetworkTopoProcedure.cpp:267-309 | on all starts whose islands settle with fused reads, from any frontier: all rounds calm iff every run with separate reads exits within the bound iff there is no such prefix |
| `IslandDistance.RoundsShow` | src/yj/NetworkTopoProcedure.cpp:272-308 | after n synchronous rounds frontier and labels are those of n steps of a spread over closed switches |
| `IslandDistance.CalmIffSingleFed` | src/yj/NetworkTopoProcedure.cpp:299-305 | all rounds are calm iff the spread never reaches a node over two switches at once |
| `IslandDistance.SingleFedIffExits` | src/yj/NetworkTopoProcedure.cpp:267-309 | so this condition on grid, labels and frontier decides whether all runs exit or some prefix dooms them |
| `IslandDistance.SingleFedBounded` | src/yj/NetworkTopoProcedure.cpp:267-309 | and it asks about 3·CNs + 1 steps only |
| `IslandDistance.ExitsWhenStill` | src/yj/NetworkTopoProcedure.cpp:271-309 | labels 0 and M, any frontier, fused reads: the loop exits with the first step in which the spread stands still, and leaves two labels on an island iff it is lit in part |
| `IslandDistance.LitIsBall` | src/yj/NetworkTopoProcedure.cpp:272-308 | on labels 0 and M, from whole islands, the spread after n steps is the ball of radius n around the nodes labelled M |
| `IslandDistance.SingleFedIffOneWayIn` | src/yj/NetworkTopoProcedure.cpp:299-305 | on labels 0 and M, from whole islands, the condition is about distances: no node is next to two closed switches that touch nodes one step nearer |
| `IslandDistance.ExitsAlwaysIff` | src/yj/NetworkTopoProcedure.cpp:267-309 | labels 0 and M, any frontier: all schedules exit within CNs + 1 rounds iff the spread is single-fed, and otherwise some prefix dooms all runs; from whole islands that is the condition on distances |
| `IslandDistance.ParallelSwitchesDoom` | src/yj/NetworkTopoProcedure.cpp:302-304 | on a grid of any size, two closed switches from positive labels to one node without are enough for a doomed run |
| `AtomicWrites.StepIsAtomic` | include/nebula/computing/ComputingAlgorithm.h:203-231 | a load or swap is invisible, or is the whole update on the present value |
| `AtomicWrites.SoloFinishes` | include/nebula/computing/ComputingAlgorithm.h:208-213 | a worker left alone finishes in three steps, wherever it stands |
| `AtomicWrites.RaiseResult` | include/nebula/computing/ComputingAlgorithm.h:225-231 | for any workers and interleaving, `writeMax` leaves the largest of the first and all written values |
| `AtomicWrites.WriteResult` | include/nebula/computing/ComputingAlgorithm.h:208-213 | `write` leaves one of the written values |
| `AtomicWrites.AddResult` | include/nebula/computing/ComputingAlgorithm.h:216-222 | `writeAdd` leaves the first value plus the sum |
| `AtomicWrites.SeedResult` | src/yj/NetworkTopoProcedure.cpp:250-265 | seeding gives each vertex the largest of its label and the `nd` of the equipment around it, under every schedule |
| `Slicing.InBoundsIff` | include/nebula/computing/ComputingEngine.h:201-206 | all slices are inside the container iff (tasks - 1)·step is at most the range |
| `Slicing.SplitExact` | include/nebula/computing/ComputingEngine.h:161-171 | fewer than 5000 items, or fewer than threads, are one task; otherwise there is one per thread, with the smallest step that reaches the end |
| `Slicing.SquareIsEnough` | include/nebula/computing/ComputingEngine.h:161-171 | (threads - 1)² at most the range is enough |
| `Slicing.SafePools` | include/nebula/computing/ComputingEngine.h:161-171 | a pool is safe for every range iff it has at most 72 threads |
| `Slicing.LargePool` | include/nebula/computing/ComputingEngine.h:161-171 | for every larger pool, a range it cannot slice |
| `Slicing.PartsJoin` | include/nebula/computing/ComputingEngine.h:203-235 | joining the slices' results gives the result on what the slices cover |
| `Slicing.RunTask` | include/nebula/computing/ComputingEngine.h:247-254 | one task is the sequential filter on its slice |
| `Slicing.JoinParts` | include/nebula/computing/ComputingEngine.h:257-264 | results are put together in task order |
| `Slicing.RunTasks` | include/nebula/computing/ComputingEngine.h:241-256 | tasks that finish in any order each leave the result on their slice |
| `Slicing.ParallelFilter` | include/nebula/computing/ComputingEngine.h:241-264 | the sequential filter, in order |
| `Slicing.ParallelFor` | include/nebula/computing/ComputingEngine.h:201-235 | the sequential map, in order |
| `EdgeMap.NeighborsAreEdges` | include/nebula/computing/ComputingAlgorithm.h:128-133 | the neighbours in a direction are the vertices over the edges from, to, or from and to the source |
| `EdgeMap.NeighborsCount` | include/nebula/computing/ComputingAlgorithm.h:276 | each as often as there are such edges |
| `EdgeMap.HitIff` | include/nebula/computing/ComputingAlgorithm.h:245-255 | what the call is for, over the edge relation: a vertex that passes `c`, with an edge from the subset that passes `f` |
| `EdgeMap.SourceCount` | include/nebula/computing/ComputingAlgorithm.h:266-299 | the sparse branch lists a target as often as a source has edges to it that pass |
| `EdgeMap.SparseConcat` | include/nebula/computing/ComputingAlgorithm.h:301-316 | and works the sources off in order |
| `EdgeMap.Converse` | include/nebula/computing/ComputingAlgorithm.h:333-335 | neighbours in a direction and in its reverse are converse relations |
| `EdgeMap.SparseHits` | include/nebula/computing/ComputingAlgorithm.h:259-316 | the sparse branch returns exactly the vertices that pass `c` and are reached from the subset over an edge that passes `f` |
| `EdgeMap.DenseHits` | include/nebula/computing/ComputingAlgorithm.h:320-347 | so does the dense branch, although it stops at the first source |
| `EdgeMap.SparseDenseAgree` | include/nebula/computing/ComputingAlgorithm.h:245-347 | both branches return the same set |
| `EdgeMap.DenseDistinct` | include/nebula/computing/ComputingAlgorithm.h:327-341 | the dense branch lists no vertex twice |
| `EdgeMap.GetTargets` | include/nebula/computing/ComputingAlgorithm.h:266-299 | the targets of one source |
| `EdgeMap.EdgeMapSparse` | include/nebula/computing/ComputingAlgorithm.h:301-316 | the flattened targets of all sources |
| `EdgeMap.ProbeVertex` | include/nebula/computing/ComputingAlgorithm.h:328-341 | the vertex once if some source matches, otherwise nothing |
| `EdgeMap.EdgeMapDense` | include/nebula/computing/ComputingAlgorithm.h:320-347 | the matching vertices in graph order |
| `EdgeMap.EdgeMap` | include/nebula/computing/ComputingAlgorithm.h:245-255 | whichever branch is taken, the result is the vertices that pass `c` and have an edge from the subset that passes `f`; a subset above the threshold gives each once, others what the sparse branch lists |
| `Codec.ArrayImageLoop` | include/nebula/common/nrpc/BufferReaderWriter.h:400-407 | the `memcpy` write of a scalar vector equals the element loop |
| `Codec.BulkLoop` | include/nebula/common/nrpc/BufferReaderWriter.h:422-438 | the `memcpy` read equals the element loop, failures included |
| `CodecTheorems.RoundTrip` | include/nebula/common/nrpc/BufferReaderWriter.h:249-454 | reading what was written, followed by anything, gives the value and leaves the rest, for all nested types |
| `CodecTheorems.ReadTyped` | include/nebula/common/nrpc/BufferReaderWriter.h:258-441 | whatever a read returns from any bytes is a value of the type |
| `CodecTheorems.RoundTripIff` | include/nebula/common/nrpc/BufferReaderWriter.h:291-298 | the round trip holds iff all lengths are below 2^32 |
| `CodecTheorems.Extends` | include/nebula/common/nrpc/BufferReaderWriter.h:505-626 | a successful read does not look past what it consumes |
| `CodecTheorems.NoPrefixReads` | include/nebula/common/nrpc/BufferReaderWriter.h:88-98 | no strict prefix of an encoding reads successfully |
| `CodecTheorems.Injective` | include/nebula/common/nrpc/BufferReaderWriter.h:80-103 | different values have different encodings |
| `CodecTheorems.SizeExact` | include/nebula/common/nrpc/BufferReaderWriter.h:443-453 | `encodedSize` is the number of bytes written, shortcuts for scalars included |
| `CodecTheorems.EmplacedKeepsFirst` | include/nebula/common/nrpc/BufferReaderWriter.h:531-549 | emplacing entries keeps the map's own, adds every new key, and gives it the value of its first entry |
| `CodecTheorems.RepeatedKeys` | include/nebula/common/nrpc/BufferReaderWriter.h:519-551 | a map is read as its entries emplaced one by one, also when keys repeat |
| `CodecBytes.ScalarBytes` | include/nebula/common/nrpc/BufferReaderWriter.h:82-86 | byte i of a scalar is digit i of the number in base 256, for widths 1, 2, 4 and 8 |
| `CodecBytes.FlagBytes` | include/nebula/common/nrpc/BufferReaderWriter.h:82-86 | a bool is the scalar 1 or 0 |
| `CodecBytes.OptBytes` | include/nebula/common/nrpc/BufferReaderWriter.h:251-256 | an optional is the bool whether it is there, and then the value |
| `CodecBytes.LengthBytes` | include/nebula/common/nrpc/BufferReaderWriter.h:291-298 | strings, vectors and maps begin with the four digits of their length |
| `CodecBytes.ItemsBytes` | include/nebula/common/nrpc/BufferReaderWriter.h:394-408 | the elements of a vector follow in order, each as it is written on its own, copied at once or not |
| `CodecBytes.PartsBytes` | include/nebula/common/nrpc/BufferReaderWriter.h:357-366 | the parts of a tuple follow each other in order |
| `CodecBytes.PairBytes` | include/nebula/common/nrpc/BufferReaderWriter.h:332-338 | a pair is written as a tuple of two |
| `CodecBytes.EntriesBytes` | include/nebula/common/nrpc/BufferReaderWriter.h:573-583 | the entries of a map follow in order, each as a pair |
| `CodecBytes.FlagRead` | include/nebula/common/nrpc/BufferReaderWriter.h:88-98 | every byte but 0 is read as true |
| `CodecBytes.OptRead` | include/nebula/common/nrpc/BufferReaderWriter.h:258-269 | an optional is read as a bool and then a value; what fails leaves what it leaves |
| `CodecBytes.TextReadExact` | include/nebula/common/nrpc/BufferReaderWriter.h:299-320 | exactly when a string is read, and that a missing end leaves the buffer after the length |
| `CodecBytes.BulkRead` | include/nebula/common/nrpc/BufferReaderWriter.h:410-438 | a scalar vector is read whole or, after its length, not at all |
| `CodecBytes.LengthRead` | include/nebula/common/nrpc/BufferReaderWriter.h:410-416 | without four bytes of length nothing is read |
| `CodecBytes.PairRead` | include/nebula/common/nrpc/BufferReaderWriter.h:340-343 | a pair is read, and fails, as a tuple of two does |
| `CodecBytes.PartsRead` | include/nebula/common/nrpc/BufferReaderWriter.h:368-380 | the parts of a tuple are read one after the other, up to the first failure, which leaves what it leaves |
| `CodecBytes.VecRead` | include/nebula/common/nrpc/BufferReaderWriter.h:432-437 | any other vector is read, and fails, as a tuple of so many elements |
| `CodecBytes.DictRead` | include/nebula/common/nrpc/BufferReaderWriter.h:585-609 | a map is read, and fails, as a vector of pairs, which are then emplaced |
| `CodecBuffer.IOBuf.Write` | include/nebula/common/nrpc/BufferReaderWriter.h:82-86 | appends the encoding and changes nothing before it |
| `CodecBuffer.IOBuf.WriteItems` | include/nebula/common/nrpc/BufferReaderWriter.h:404-406 | the element loop appends the elements' encodings in order |
| `CodecBuffer.IOBuf.WriteEntries` | include/nebula/common/nrpc/BufferReaderWriter.h:513-516 | the entry loop appends keys and values in order |
| `CodecBuffer.IOBuf.Read` | include/nebula/common/nrpc/BufferReaderWriter.h:88-98 | success, value and what is left in the buffer are those of the specification, on every input |
| `CodecBuffer.IOBuf.ReadItems` | include/nebula/common/nrpc/BufferReaderWriter.h:432-437 | the element loop, with its early return |
| `CodecBuffer.IOBuf.ReadEntries` | include/nebula/common/nrpc/BufferReaderWriter.h:531-549 | the entry loop; a repeated key keeps its first value |
| `KeyCodec.RoundTrip` | include/nebula/common/utils/KVEncodeDecode.h:103-147 | decoding merges the value into the target: scalars replace, vectors append, maps keep existing keys; the rest is left |
| `KeyCodec.MergeFresh` | include/nebula/common/utils/KVEncodeDecode.h:182-202 | into a fresh target the result is the value itself |
| `KeyCodec.ReadTyped` | include/nebula/common/utils/KVEncodeDecode.h:182-202 | whatever a fresh target receives from any bytes is a value of its type with lengths below 2^32 |
| `KeyCodec.RoundTripIff` | include/nebula/common/utils/KVEncodeDecode.h:182-202 | a fresh target receives the value that was encoded iff all its lengths are below 2^32 |
| `KeyCodec.ScalarBytes` | include/nebula/common/utils/KVEncodeDecode.h:102-108 | byte i of an integer is its digit in base 256, the highest first |
| `KeyCodec.FlagBytes` | include/nebula/common/utils/KVEncodeDecode.h:119-125 | a bool is the byte 1 or 0 |
| `KeyCodec.FlagRead` | include/nebula/common/utils/KVEncodeDecode.h:127-132 | every byte but 0 is read as true |
| `KeyCodec.LengthBytes` | include/nebula/common/utils/KVEncodeDecode.h:134-140 | strings, vectors and maps begin with the four digits of their length, the highest first |
| `KeyCodec.PlainBytes` | include/nebula/common/utils/KVEncodeDecode.h:134-140 | then a string has its own bytes; a pair is one value after the other |
| `KeyCodec.ItemsBytes` | include/nebula/common/utils/KVEncodeDecode.h:182-190 | then the elements of a vector follow in order |
| `KeyCodec.EntriesBytes` | include/nebula/common/utils/KVEncodeDecode.h:222-231 | then the entries of a map follow in order, each as a pair |
| `KeyCodec.ChainRoundTrip` | include/nebula/common/utils/KVEncodeDecode.h:182-271 | a chain decoded with the same types gives every value and consumes exactly its bytes |
| `KeyCodec.UnsignedOrder` | include/nebula/common/utils/KVEncodeDecode.h:103-108 | unsigned integers of one width compare as their keys do |
| `KeyCodec.SignedOrder` | include/nebula/common/utils/KVEncodeDecode.h:103-108 | signed ones do iff their signs agree |
| `KeyCodec.KVEncoder.Put` | include/nebula/common/utils/KVEncodeDecode.h:103-147 | appends the encoding |
| `KeyCodec.KVDecoder.Get` | include/nebula/common/utils/KVEncodeDecode.h:110-147 | the decoded value and the rest of the piece are those of the specification |
| `KeyCodec.KVDecoder.GetItems` | include/nebula/common/utils/KVEncodeDecode.h:192-202 | elements are appended to the target's old ones |
| `KeyCodec.KVDecoder.GetEntries` | include/nebula/common/utils/KVEncodeDecode.h:234-245 | entries are emplaced into the target's old ones |
| `KeyRange.Incr` | include/nebula/common/utils/Utils.h:29-40 | the result ends exactly the range of strings with the given prefix; overflow iff there are only 0xFF bytes, and then the range has no end |
| `KeyRange.Range` | include/nebula/common/utils/Utils.h:29-40 | raising the last byte below 0xFF gives the end of the prefix range |
| `KeyRange.AllOnes` | include/nebula/common/utils/Utils.h:29-40 | above a string of 0xFF bytes lie only its extensions |
| `StringView.MakeValid` | include/nebula/common/datatype/String.h:22-36 | the constructor keeps the contents, inline or not, with a zero-filled prefix |
| `StringView.MakeLayout` | include/nebula/common/datatype/String.h:22-36 | byte by byte: the first four bytes are the prefix, strings of up to twelve are in the view and longer ones in the string it points to; the empty string leaves the last eight bytes untouched |
| `StringView.FromStringIff` | include/nebula/common/datatype/String.h:39-44 | a view made from a string keeps its contents iff the length fits 32 bits, and a prefix otherwise |
| `StringView.EqualIffSame` | include/nebula/common/datatype/String.h:110-120 | `==` iff the contents are equal, for all combinations of representations, NUL bytes included |
| `StringView.CompareIs` | include/nebula/common/datatype/String.h:128-146 | for all sizes: a differing byte decides lexicographically; without one the result is the wrapped difference of the sizes; from 2^31 + 4 bytes on, behind equal prefixes, it is the difference of the sizes |
| `StringView.CompareIsLexicographic` | include/nebula/common/datatype/String.h:128-146 | below 2^31 bytes the sign is lexicographic order, and 0 iff `==` |
| `StringView.CompareExact` | include/nebula/common/datatype/String.h:128-146 | for all sizes below 2^32, exactly when the sign is lexicographic order |
| `StringView.CompareZeroExact` | include/nebula/common/datatype/String.h:128-146 | for all sizes below 2^32, exactly when 0 means `==` |
| `StringView.CompareWraps` | include/nebula/common/datatype/String.h:135-138 | 2^31 zero bytes compare below the empty string |
| `StringView.CompareMisses` | include/nebula/common/datatype/String.h:134-138 | two strings of 2^31 + 5 bytes that differ in their fifth byte compare as 0 and are not `==` |
| `EdgeBits.BitMasks` | include/nebula/common/utils/EdgeUtils.h:104-171 | bit by bit, the arithmetic forms of the direction operations are the source's masks on bits 30 and 31 |
| `EdgeBits.SameBits` | include/nebula/common/utils/EdgeUtils.h:104-171 | a signed integer is determined by its two's complement bits |
| `EdgeId.EqualIffSameEdge` | include/nebula/common/datatype/EdgeID.h:60-91 | `==` iff both ids stand for the same arrow, or the same unordered pair |
| `EdgeId.EqualIffStandardSame` | include/nebula/common/datatype/EdgeID.h:30-44 | `==` iff the standardized forms are equal in every field |
| `EdgeId.StandardizeKeeps` | include/nebula/common/datatype/EdgeID.h:30-44 | standardizing keeps the edge and fixes standardized ids |
| `EdgeId.OneStandardId` | include/nebula/common/datatype/EdgeID.h:28-44 | each edge has one standardized id |
| `EdgeId.StandardizeIdempotent` | include/nebula/common/datatype/EdgeID.h:30-44 | standardizing twice is standardizing once, and gives an equal id |
| `EdgeId.Equivalence` | include/nebula/common/datatype/EdgeID.h:60-91 | `==` is an equivalence relation |
| `EdgeId.HashAgrees` | include/nebula/common/datatype/EdgeID.h:165-172 | equal ids hash equally, whatever the combination; if it is injective, only equal ids do |
| `EdgeId.HashFields` | include/nebula/common/datatype/EdgeID.h:165-172 | what is hashed: graph, type, tail, head and rank of an arrow; of a pair, with the smaller end first |
| `EdgeId.ReverseInvolution` | include/nebula/common/datatype/EdgeID.h:23-26 | `reverse` undoes itself, never fixes an id, and keeps identity |
| `EdgeId.RewritesFields` | include/nebula/common/datatype/EdgeID.h:19-26 | `reverse` swaps the ends and flips bit 30 of the type; `toUndirected` keeps the ends and puts 1 and 0 into bits 31 and 30; both leave all else alone |
| `EdgeId.EqualIffRewritten` | include/nebula/common/datatype/EdgeID.h:60-91 | `==` iff one id is the other, its reverse, or, undirected, either of these with swapped ends |
| `EdgeId.UndirectedMeaning` | include/nebula/common/datatype/EdgeID.h:19-21 | `toUndirected` forgets the direction and nothing else, and keeps identity iff there was none |
| `EdgeId.LessIsLexicographic` | include/nebula/common/datatype/EdgeID.h:97-114 | `<` iff the first of graph, source, destination, type and rank that differs is smaller |
| `EdgeId.LessOrders` | include/nebula/common/datatype/EdgeID.h:97-114 | `<` is a strict total order of the field tuples |
| `EdgeId.OrderIffOneSpelling` | include/nebula/common/datatype/EdgeID.h:97-118 | `<`, `==` and `>` fit together on two ids iff these are not two spellings of one edge |
| `EdgeId.StandardOrder` | include/nebula/common/datatype/EdgeID.h:97-118 | on standardized ids `<` is a strict total order for `==`, with `>` its converse |
| `EdgeId.ReverseIsOrdered` | include/nebula/common/datatype/EdgeID.h:97-118 | every edge is `==` to its reverse and yet `<` or above it, while `>` never holds |
| `EdgeId.MutableEdge.Turn` | include/nebula/common/datatype/EdgeID.h:23-26 | reverses in place and keeps the edge |
| `EdgeId.MutableEdge.Standardization` | include/nebula/common/datatype/EdgeID.h:30-44 | standardizes in place and keeps the edge |
| `EdgeId.MutableEdge.MakeUndirected` | include/nebula/common/datatype/EdgeID.h:19-21 | drops the direction in place |
| `HolderRuns.StepBalanced` | include/nebula/common/module/Module.h:48-105 | every step of every call keeps each counter at 1 plus the holders whose reference is in it |
| `HolderRuns.StepDisciplined` | include/nebula/common/module/Module.h:48-105 | every step keeps each call's source idle and unshared by a move |
| `HolderRuns.CountsAlways` | include/nebula/common/module/Module.h:216-236 | over every trace and interleaving the counter is that number, hence at least 1 at every intermediate step |
| `HolderRuns.CountsAtRest` | include/nebula/common/module/Module.h:48-105 | between calls it is 1 plus the live holders whose target belongs to the module, and 1 iff there are none |
| `HolderRuns.Pinned` | include/nebula/common/module/Module.h:64-98 | a holder that shows a target keeps the counter at 2 or more, in the middle of copies and moves too |
| `HolderRuns.CallEffect` | include/nebula/common/module/Module.h:48-105 | each of the seven calls, self-assignment included, leaves the targets a caller expects and the counters right |
| `Holders.Holder.constructor` | include/nebula/common/module/Module.h:50-55 | takes the target and counts one reference |
| `Holders.Holder.Copy` | include/nebula/common/module/Module.h:80-85 | shares the target and counts one reference |
| `Holders.Holder.Move` | include/nebula/common/module/Module.h:64-67 | takes the target over and leaves the source empty |
| `Holders.Holder.Assign` | include/nebula/common/module/Module.h:87-98 | copy assignment, also to itself: counters move with the holder's share |
| `Holders.Holder.Take` | include/nebula/common/module/Module.h:69-78 | move assignment, also to itself: counters move with both holders' shares |
| `Holders.Holder.Reset` | include/nebula/common/module/Module.h:100-105 | empties the holder and gives its reference back |
| `Holders.Holder.Destroy` | include/nebula/common/module/Module.h:57-62 | gives the reference back |
| `Holders.Population.Construct` | include/nebula/common/module/Module.h:50-55 | a new holder keeps every counter at 1 plus its holders |
| `Holders.Population.CopyConstruct` | include/nebula/common/module/Module.h:80-85 | so does a copy |
| `Holders.Population.MoveConstruct` | include/nebula/common/module/Module.h:64-67 | so does a holder made by moving |
| `Holders.Population.CopyAssign` | include/nebula/common/module/Module.h:87-98 | so does copy assignment between any two holders, or to itself |
| `Holders.Population.MoveAssign` | include/nebula/common/module/Module.h:69-78 | so does move assignment between any two holders, or to itself |
| `Holders.Population.Reset` | include/nebula/common/module/Module.h:100-105 | so does emptying a holder |
| `Holders.Population.Destroy` | include/nebula/common/module/Module.h:57-62 | so does destroying one |

## Left out

- Integer overflow of amounts, labels, the loop counter and reference counts: these are unbounded here, the source's are 64-bit and 32-bit.
- Soft limits, `setHardLimit`, JSON output, and the debug histogram of operator usage.
- The `peak` of a tracker under concurrency: the source updates it without synchronisation, and nothing depends on it.
- Concurrent creation and destruction of Query trackers, and concurrent operators: operators are single-threaded in the source; `MemoryConcurrent` covers acquires and releases on any fixed set of queries.
- `VertexSubset::map` and `neighborIDs` have no bodies in the repository: the model takes unions of sets and symmetric adjacency. The order in which one switch visits its nodes is unspecified there, and free here.
- `IslandLoop.Labelling.RunToExit`: starts whose islands settle, since the general loop need not end; `IslandTheorems.Diverges` and `IslandFrontier.LateDecides` treat the others.
- `IslandTheorems.Diverges`: frontiers of whole islands. From part of an island the loop may end before it meets what keeps it running; `IslandFrontier.LateDecides` decides by the labels after CNs + 1 rounds, not by the first ones.
- `IslandTheorems.Terminates`: fused reads only; for separate reads `IslandDistance.SingleFedIffExits` says exactly when it holds.
- `IslandTheorems.TerminatesFast`: fused reads only; for separate reads `IslandDistance.ExitsAlwaysIff` says exactly when it holds.
- Which tasks of a round run at the same time: here any two switches may. If `VertexSubset::map` slices its vertices as `parallelFor` does, two switches only race when the round reaches 5000 switches or more and they fall into different slices; the statements hold on grids of every size.
- `MemoryOverdraft.HonestDropsIff`: releases of more than is held or already being released, which operators do not make as long as their own callers do not.
- `MemoryOverdraft.OverflowsIff`: units below half a quantum, and the moment when all calls are over. A release raises the reserve above a quantum while it runs, with one thread too.
- Which node sets `run` builds the first frontier from, and everything after the loop: the topology edges, the electrical formulas and the reactive-power passes.
- `Slicing.ParallelFor`: tasks that throw, and the scheduling of tasks; the order of results does not depend on it.
- `EdgeMap.EdgeMap`: the calls into the parallel loops are sequential here, which `Slicing.ParallelFilter` justifies; the reduce step has uninitialised accumulators in the source and no value to state.
- `CodecBuffer.IOBuf.Read`: what a failed read leaves in a partly filled target. Scalars are memory images on a little-endian machine.
- Codecs for `shared_ptr`, `unique_ptr`, `deque`, sets, user-defined structures and `vector<bool>`.
- `KeyCodec.KVDecoder.Get`: input that ends early, where the source reads past the piece; the model reports failure. Host addresses and date-times are left out as easy.
- `NodeIDUtils`, `allEdgeTypesFor` and the printing of edges: easy members.
- `HolderRuns.Pinned`: holders that one thread writes while another uses them, which is a data race in the source too.
- Module loading and unloading, the thread pool, futures, RPC contexts, logging and error tables.
