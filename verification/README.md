# Verified model of the FlexPushdownDB engine's core

FlexPushdownDB runs a query as a graph of operator actors over a cache of column segments. This
project models the parts of it whose correctness is not visible in any one function, and proves
what they are for.

* **The operator protocol** (`Directories`, `OperatorActor`, `Links`, `Protocol`,
  `ProtocolSafety`, `Execution`, `Conformance`). A root actor connects and starts the operators, which buffer what
  arrives before START, exchange messages and report completion; the root's `join` counts
  completions. The protocol is a step relation over FIFO channels between actors. In every
  error-free run `join` returns only when every operator has completed and every message ever sent
  to a consumer was handed to it, no message is lost anywhere, and over an acyclic graph a run with
  nothing left to deliver has returned. A run is error-free exactly when no operator misuses its
  context. What the steps put on the channels is what the actors' methods send, and a root that took
  anything but first COMPLETEs has thrown.
* **Column trimming** (`StringOrder`, `Plans`, `PlanSemantics`, `TrimCorrectness`,
  `PopulateCorrectness`, `PlanObjects`).
  The two passes that populate and trim the project columns of a query plan, with count(\*), dummy
  columns, projections that rename, and scans that may not scan nothing; an evaluator of plans that
  takes tables, expressions, aggregates and orderings as parameters; and the proof that populating
  gives each operator exactly the columns offered to it and changes no result, and that trimming
  leaves every row as it was, is tight and has nothing to do a second time.
* **The segment cache** (`Segments`, `Sums`, `BeladyPlanning`, `BeladyPolicy`, `LazyHeapPolicy`,
  `StaleReports`, `LruPolicy`, `LfuPolicy`, `LfuOrder`, `SegmentCache`). Five replacement policies as objects with several
  indexes that must agree with each other and with the bytes they account for, and the map of data
  that follows their decisions.
* **The hash-join index** (`TupleKeys`, `Multimaps`, `TupleSetIndex`, `HashProbe`). A multimap from
  keys to row numbers, built batch by batch, extended by tables and merged with other indexes,
  which equals the index of the whole table; probing it is the nested-loop join.
* **The delta cache** (`DeltaCache`). Versions of deltas per partition, pumped by queries and a
  timer and replaced by merged versions: what is conserved, and what a query sees.

`Collections` holds what all of them use. State that the code updates in place is a class whose methods are proved against functions or
relations on values; the lemmas are about those. Loops are loops.

## Where the code does not do what one would expect

Each of these has a lemma with an input on which it fails, and one that says exactly when it does
not.

* A scan left without columns falls back to the first column of its table. If its consumer uses a
  column of that name from elsewhere, trimming changes the result
  (`TrimCorrectness.FallbackCanChangeMeaning`, `TrimCorrectness.ScanFallbackExactly`).
* `POpDirectory::setIncomplete` clears the flags and not the counter (`Directories.RestartMiscounts`,
  `Directories.SetIncompleteKeepsConsistent`).
* `LFUCachingPolicy::eraseFreqMap` reads the first element of an empty set when the last bucket
  becomes empty. That happens on a load of the only cached key (`LfuPolicy.LfuCachingPolicy.OnLoad`)
  and on a store that evicts everything (`LfuPolicy.EverythingCanGo`): one that fits the cache, has
  more hits than every cached key, and does not find room before the last of them
  (`LfuPolicy.LfuCachingPolicy.OnStore`, `LfuPolicy.LastOfOrder`). The model gives these an `Undefined`
  outcome and says nothing about what follows.
* LFU begins its search for victims at `minFreq_`, which a load or a store can leave above the least
  hit number in use: when the last key with that number goes up, or a key with fewer hits comes. It
  then evicts more used keys first, or rejects a segment that less used keys could make room for
  (`LfuOrder.LoadSkipsLeast`, `LfuOrder.LeastAfterExactly`, `LfuOrder.AscendsExactly`,
  `LfuOrder.RejectsExactly`).
* A scan without project columns gets only the first column of its table when columns are populated
  (`PopulateCorrectness.UnsetScanKeepsFirstColumn`); over operators that pass their input on,
  populating changes nothing (`PopulateCorrectness.PopulatePreservesMeaning`).
* Belady's size check casts a 64-bit difference to 32 bits, so a segment 4 GiB larger than planned
  passes (`BeladyPolicy.TruncationHidesDifference`, `BeladyPolicy.TruncatedCheckExactly`); its check
  that `freeSize_` is not negative is on an unsigned number and never fires
  (`BeladyPolicy.StoreCountsBytesExactly`).
* `TupleSetIndex::merge` inserts the entries before it finds out that the schemas differ
  (`TupleSetIndices.MergeCanBreakIndex`, `TupleSetIndices.TupleSetIndex.Merge`), and `put` works only
  on an index whose column names are lower case, because unlike `make` it does not canonicalize them
  (`TupleSetIndices.UpperCaseNameCannotBePut`, `TupleSetIndices.PutNeedsCanonicalNames`).
* A delta pumped between a partition's load and the store of the merged delta is lost
  (`DeltaCaches.LatePumpIsLost`, `DeltaCaches.MergedStoreConserves`).
* The LFU-S and W-LFU policies report the keys of stale heap entries as cached, and the segment
  cache's consistency check then throws (`StaleReports.EvictedKeyIsReported`,
  `StaleReports.ReportIsRightExactly`).

## Assumptions

* Wiring is symmetric, and no operator is both producer and consumer of the same peer. Channels are
  FIFO per pair of actors. An operator's body is unknown: it may tell at any time after START, may
  `send` to any operator, upstream too, and calls `notifyComplete` when its local directory says that
  all producers are complete; it does not `send` to a consumer after completing, which the code does
  not check. STOP is never sent. An operator that reports an error destroys its actor handles, and
  sending through a destroyed handle has no effect.
* Rows are maps from column names to values; meaning is preserved as a sequence of rows, which
  implies the bag. Expressions and aggregates see only the columns they involve, a sort only its
  keys.
* A key is not stored while it is cached. A key object comes to a policy valid, with at least one
  hit, and its metadata is not changed by others.
* Cells of a key column of the same name have the same type, and no key is a NaN. Merging deltas is
  associative and commutative, so a merged delta is determined by the multiset of deltas in it.
* A column name that `GetFieldIndex` finds twice counts as missing, as in Arrow.

## Model

| member | source | states |
|---|---|---|
| `Directories.InsertKeepsConsistent` | fpdb-executor/src/physical/LocalPOpDirectory.cpp:11-23 | an insert keeps the four counters equal to the sizes of the sets they stand for if and only if the name is taken or the entry arrives incomplete |
| `Directories.SetCompleteKeepsConsistent` | fpdb-executor/src/physical/LocalPOpDirectory.cpp:25-42 | marking an entry complete, or failing to, keeps the counters honest |
| `Directories.AllCompleteIsForall` | fpdb-executor/src/physical/LocalPOpDirectory.cpp:52-58 | with honest counters, the comparison holds if and only if every entry of the kind is complete |
| `Directories.LocalCountersRefineForall` | fpdb-executor/src/physical/LocalPOpDirectory.cpp:11-58 | after every history of inserts and completions, also failing ones, `allComplete` answers the quantified question |
| `Directories.LocalPOpDirectory.Insert` | fpdb-executor/src/physical/LocalPOpDirectory.cpp:11-23 | the object's new state and result, and that it stays valid for incomplete entries |
| `Directories.LocalPOpDirectory.SetComplete` | fpdb-executor/src/physical/LocalPOpDirectory.cpp:25-42 | the new state, both errors, and that validity is kept |
| `Directories.LocalPOpDirectory.AllComplete` | fpdb-executor/src/physical/LocalPOpDirectory.cpp:52-58 | true if and only if every entry of the kind is complete |
| `Directories.RootInsertKeepsConsistent` | fpdb-executor/src/physical/POpDirectory.cpp:11-18 | an insert keeps the root's two counters equal to the numbers they stand for |
| `Directories.RootSetCompleteKeepsConsistent` | fpdb-executor/src/physical/POpDirectory.cpp:20-32 | so does a completion, also one that is refused |
| `Directories.SetIncompleteKeepsConsistent` | fpdb-executor/src/physical/POpDirectory.cpp:46-50 | the reset keeps the counters honest if and only if nothing had completed |
| `Directories.RestartMiscounts` | fpdb-executor/src/physical/POpDirectory.cpp:46-50 | restarted after its only operator completed, the root takes it for complete |
| `Directories.RootAllCompleteIsForall` | fpdb-executor/src/physical/POpDirectory.cpp:34-36 | the root's comparison holds if and only if every operator is complete |
| `Directories.POpDirectory.Insert` | fpdb-executor/src/physical/POpDirectory.cpp:11-18 | new state and result of the object |
| `Directories.POpDirectory.SetComplete` | fpdb-executor/src/physical/POpDirectory.cpp:20-32 | new state, both errors |
| `Directories.POpDirectory.SetIncomplete` | fpdb-executor/src/physical/POpDirectory.cpp:46-50 | new state: flags cleared, counters kept |
| `Directories.POpDirectory.AllComplete` | fpdb-executor/src/physical/POpDirectory.cpp:34-36 | true if and only if all operators are complete |
| `OperatorActor.SeesArrivalsInOrder` | fpdb-executor/src/physical/POpActor.cpp:43-94 | for every order of arrivals with one START, unless a message is refused, `onReceive` sees START and then all non-control messages in arrival order, none lost, duplicated or reordered |
| `OperatorActor.ReplayHandsOnBuffer` | fpdb-executor/src/physical/POpActor.cpp:65-70 | the replay empties the buffer and, unless a COMPLETE is refused, hands it on in order |
| `OperatorActor.POpActor.Receive` | fpdb-executor/src/physical/POpActor.cpp:34-99 | the handler for every kind of message: what is buffered, what reaches `onReceive`, and the new state |
| `OperatorActor.POpActor.InsertConnections` | fpdb-executor/src/physical/POpActor.cpp:43-57 | CONNECT: all connections inserted incomplete, each failing insert reported |
| `OperatorActor.InsertAllInsertsAll` | fpdb-executor/src/physical/POpActor.cpp:43-57 | after CONNECT every connection is in the directory, next to what was there |
| `OperatorActor.InsertAllCountsErrors` | fpdb-executor/src/physical/POpActor.cpp:43-57 | each connection is either a new entry or a reported error |
| `OperatorActor.POpActor.Replay` | fpdb-executor/src/physical/POpActor.cpp:65-72 | the replay loop |
| `OperatorActor.POpActor.Deliver` | fpdb-executor/src/physical/POpActor.cpp:83-93 | a COMPLETE updates the directory first and is dropped if refused |
| `OperatorActor.POpActor.Tell` | fpdb-executor/src/physical/POpContext.cpp:20-33 | while incomplete and without an error: one message to each consumer, in order, and nothing else; only an error to the root if the operator is complete; nothing once it has reported an error |
| `OperatorActor.POpActor.NotifyComplete` | fpdb-executor/src/physical/POpContext.cpp:87-112 | while incomplete and without an error: COMPLETE to each consumer, in order, and then one to the root; only an error if the operator is complete; the flag set, and the operator's state cleared unless it is the collate operator |
| `OperatorActor.POpActor.NotifyError` | fpdb-executor/src/physical/POpContext.cpp:117-122 | the first error reaches the root, and nothing after it does |
| `OperatorActor.POpActor.SendToConsumers` | fpdb-executor/src/physical/POpContext.cpp:98-101 | message `i` goes to consumer `i`, for every consumer, while the handles are there |
| `OperatorActor.ToEachIsEach` | fpdb-executor/src/physical/POpContext.cpp:29-32 | as many messages as consumers, the `i`-th to the `i`-th |
| `Links.LinkSend` | fpdb-executor/src/physical/POpContext.cpp:20-112 | sending, also upstream, keeps the invariant of a channel: what was sent is what was received, is buffered or in flight, in order, COMPLETE goes to consumers only and nothing follows it |
| `Links.LinkDispatch` | fpdb-executor/src/physical/POpActor.cpp:79-94 | delivering the next message keeps it |
| `Links.NextCompleteIsFirst` | fpdb-executor/src/physical/POpActor.cpp:84-90 | a COMPLETE about to be processed finds its sender not yet complete |
| `Links.MarkedLinkIsDrained` | fpdb-executor/src/physical/POpActor.cpp:84-92 | a consumer that has marked a producer complete has been handed all it ever sent |
| `Links.DrainedLinkIsMarked` | fpdb-executor/src/physical/POpActor.cpp:84-92 | once everything a completed producer sent is handed over, it is marked |
| `ProtocolSafety.InitialInv` | fpdb-executor/src/Execution.cpp:158-185 | the invariant holds when `start` begins to send |
| `ProtocolSafety.StepKeepsInv` | fpdb-executor/src/physical/POpActor.cpp:43-94 | every step but a misuse keeps the invariant, which says that no error was raised: CONNECT never inserts twice and every COMPLETE finds its sender in the directory |
| `ProtocolSafety.MisuseIsReported` | fpdb-executor/src/physical/POpContext.cpp:23-24 | telling or completing after completion, and sending to an operator one is not connected to, always reports an error |
| `ProtocolSafety.ErrorFreeExactly` | fpdb-executor/src/physical/POpContext.cpp:20-122 | a run is error-free if and only if no step of it is such a misuse |
| `ProtocolSafety.RunKeepsInv` | fpdb-executor/src/Execution.cpp:158-223 | the invariant holds after every error-free run |
| `ProtocolSafety.JoinReturnsOnlyWhenDrained` | fpdb-executor/src/Execution.cpp:187-223 | in every error-free run, when `join` returns every operator has completed, no message to a consumer is buffered or in flight, and what each consumer received is exactly what its producer sent; on every other channel too nothing is lost or reordered |
| `ProtocolSafety.JoinNeverThrows` | fpdb-executor/src/Execution.cpp:201-220 | in every error-free run `join` does not throw |
| `ProtocolSafety.CompletedPairIsDrained` | fpdb-executor/src/physical/POpContext.cpp:87-112 | in every reachable state a completed operator has received all that its producers sent to it |
| `ProtocolSafety.QuiescentRunHasReturned` | fpdb-executor/src/Execution.cpp:187-223 | over an acyclic graph, a run with nothing to deliver and no operator able to complete has returned: waiting never hangs |
| `Execution.Execution.constructor` | fpdb-executor/src/physical/POpDirectory.cpp:11-18 | the root's directory lists the operators, none complete |
| `Execution.Execution.Start` | fpdb-executor/src/Execution.cpp:158-185 | message `i` is the CONNECT of operator `i` with its neighbours, and after all of them come the STARTs in the same order |
| `Execution.Execution.ConnectEach` | fpdb-executor/src/Execution.cpp:163-177 | the CONNECT loop |
| `Execution.Execution.StartEach` | fpdb-executor/src/Execution.cpp:180-184 | the START loop |
| `Execution.Execution.ConnectionsOf` | fpdb-executor/src/Execution.cpp:165-173 | producers, then consumers |
| `Execution.Execution.Join` | fpdb-executor/src/Execution.cpp:187-223 | throws if and only if it gets to a message that is no COMPLETE, or one of an operator that is unknown or complete already; returns if and only if it gets to the one COMPLETE that was missing; what it then knows; and that this is the fold the system steps by |
| `Execution.EndsOnce` | fpdb-executor/src/Execution.cpp:195-220 | no inbox lets `join` both throw and return, and one it accepts to the end lets it do neither |
| `Conformance.RootThrowsExactly` | fpdb-executor/src/Execution.cpp:207-219 | the root throws at exactly the messages that are not the first COMPLETE of a known operator |
| `Conformance.RefusedMessageThrows` | fpdb-executor/src/Execution.cpp:201-220 | in every run a root that took such a message, an ERROR above all, has thrown for good: one that returned took only first COMPLETEs |
| `Conformance.EachGetsOne` | fpdb-executor/src/physical/POpContext.cpp:29-32 | of what goes to all consumers, each consumer gets one message and nobody else any |
| `Conformance.TellStepSendsTell` | fpdb-executor/src/physical/POpContext.cpp:20-33 | the system step of `tell` appends to every channel exactly what the method sends there, to the root too, and moves nothing else |
| `Conformance.FinishStepSendsComplete` | fpdb-executor/src/physical/POpContext.cpp:87-112 | the same for `notifyComplete` |
| `PlanSemantics.ReadsOnlyUsed` | fpdb-plan/src/prephysical/ProjectPrePOp.cpp:24-35 | every operator's result, cut to its project columns, depends only on the used columns of its inputs |
| `PlanSemantics.GroupRowsRead` | fpdb-plan/src/prephysical/GroupPrePOp.cpp:22-29 | grouping reads its group columns and those of its functions |
| `PlanSemantics.AggregateRowReads` | fpdb-plan/src/prephysical/AggregatePrePOp.cpp:28-35 | aggregation reads the columns of its functions |
| `PlanSemantics.JoinCut` | fpdb-plan/src/prephysical/HashJoinPrePOp.cpp:22-27 | inner, outer and semi joins read their keys or condition and what they project |
| `PlanSemantics.SelectCut` | fpdb-plan/src/prephysical/FilterPrePOp.cpp:17-22 | a filter reads its condition's columns and what it projects |
| `PlanSemantics.PickCut` | fpdb-plan/src/prephysical/SortPrePOp.cpp:20-26 | so does a sort with its keys |
| `PlanSemantics.LimitCut` | fpdb-plan/src/prephysical/LimitSortPrePOp.cpp:21-27 | so does a sort with a limit |
| `Plans.UsedExactly` | fpdb-plan/src/prephysical/ProjectPrePOp.cpp:24-35 | a column is used if and only if the operator looks at it or, unless it aggregates, projects it: no column too many |
| `Plans.KeptExactly` | fpdb-plan/src/prephysical/PrePhysicalPlan.cpp:55-71 | a column is kept if and only if it was projected and is used, a dummy, or under count(\*) |
| `Plans.ScansSomething` | fpdb-plan/src/prephysical/FilterableScanPrePOp.cpp:26-33 | a scan always has a column, and falls back to the first of its table only if it would have none |
| `TrimCorrectness.SetOpCovers` | fpdb-plan/src/prephysical/ProjectPrePOp.cpp:49-75 | after its columns are set, a projection produces every one of them |
| `TrimCorrectness.SetOpTwice` | fpdb-plan/src/prephysical/ProjectPrePOp.cpp:55-75 | setting the same columns again changes nothing |
| `TrimCorrectness.ShrinkingCuts` | fpdb-plan/src/prephysical/ProjectPrePOp.cpp:49-75 | setting fewer columns only cuts what an operator computes |
| `TrimCorrectness.TrimKeepsUsedColumns` | fpdb-plan/src/prephysical/PrePhysicalPlan.cpp:47-81 | a trimmed sub-plan gives the same rows on the columns its consumer uses |
| `TrimCorrectness.TrimPreservesMeaning` | fpdb-plan/src/prephysical/PrePhysicalPlan.cpp:47-81 | for all tables, expressions, aggregates and orderings, a plan and the plan trimmed from its root give the same rows, if no scan falls back to a column its consumer uses |
| `TrimCorrectness.ResolvedNamesHideFallback` | fpdb-plan/src/prephysical/FilterableScanPrePOp.cpp:26-33 | that is ruled out if every scan offers the column its table starts with whenever its consumer uses that name |
| `TrimCorrectness.DistinctNamesResolve` | fpdb-plan/src/prephysical/FilterableScanPrePOp.cpp:26-33 | which is so if column names are distinct across producers and used columns are offered |
| `TrimCorrectness.ScanFallbackExactly` | fpdb-plan/src/prephysical/FilterableScanPrePOp.cpp:26-33 | trimming a scan is invisible to its consumer for all tables if and only if the fallback brings in no column that consumer uses |
| `TrimCorrectness.FallbackCanChangeMeaning` | fpdb-plan/src/prephysical/FilterableScanPrePOp.cpp:26-33 | a plan whose result trimming changes |
| `TrimCorrectness.PopulateCovers` | fpdb-plan/src/prephysical/PrePhysicalPlan.cpp:29-45 | in a populated plan every projection produces its columns |
| `TrimCorrectness.PopulateAndTrimPreservesMeaning` | fpdb-plan/src/prephysical/PrePhysicalPlan.cpp:24-81 | both passes together: the trimmed plan gives the rows of the populated plan |
| `PopulateCorrectness.PopulateExactly` | fpdb-plan/src/prephysical/PrePhysicalPlan.cpp:29-45 | at every operator: columns that were set stay; unset ones are the union of what the producers offer; an unset scan gets its fallback and does not report it |
| `PopulateCorrectness.PopulatedIsUnique` | fpdb-plan/src/prephysical/PrePhysicalPlan.cpp:29-45 | only one plan is related so to the plan before |
| `PopulateCorrectness.PopulatePreservesMeaning` | fpdb-plan/src/prephysical/PrePhysicalPlan.cpp:29-45 | for all tables, expressions, aggregates and orderings, the populated plan gives the rows of the plan in which operators without columns pass on what they get |
| `PopulateCorrectness.UnsetScanKeepsFirstColumn` | fpdb-plan/src/prephysical/FilterableScanPrePOp.cpp:26-33 | a scan without columns is cut to its first one |
| `PopulateCorrectness.BothPassesPreserveMeaning` | fpdb-plan/src/prephysical/PrePhysicalPlan.cpp:24-81 | both passes give the rows of the plan before them |
| `TrimCorrectness.TrimIsTight` | fpdb-plan/src/prephysical/PrePhysicalPlan.cpp:47-81 | in every trimmed plan every used column that was offered still is, and every column left is used, a dummy, counted by count(\*) or a scan's fallback |
| `TrimCorrectness.TrimTwice` | fpdb-plan/src/prephysical/PrePhysicalPlan.cpp:47-81 | a second pass changes nothing, on any plan |
| `PlanObjects.EraseUnused` | fpdb-plan/src/prephysical/PrePhysicalPlan.cpp:55-71 | the erasing loop keeps exactly dummies and used columns, or everything under count(\*) |
| `PlanObjects.ErasePairs` | fpdb-plan/src/prephysical/ProjectPrePOp.cpp:67-74 | keeps the pairs to projected columns, in order |
| `PlanObjects.AddPairs` | fpdb-plan/src/prephysical/ProjectPrePOp.cpp:56-65 | appends identity pairs |
| `PlanObjects.PrePhysicalOp.SetProjectColumnNames` | fpdb-plan/src/prephysical/FilterableScanPrePOp.cpp:26-33 | the in-place update of an operator, with the scan's fallback and the projection's pairs |
| `PlanObjects.PrePhysicalOp.TrimProjectColumns` | fpdb-plan/src/prephysical/PrePhysicalPlan.cpp:47-81 | the recursive pass over a tree of objects computes the trimmed plan |
| `PlanObjects.PrePhysicalOp.TrimProducers` | fpdb-plan/src/prephysical/PrePhysicalPlan.cpp:76-80 | its loop over the producers |
| `PlanObjects.PrePhysicalOp.PopulateProjectColumns` | fpdb-plan/src/prephysical/PrePhysicalPlan.cpp:29-45 | the plan before and after are related operator by operator: set columns stay, unset ones become what the producers offer, with the fallback of a scan; what is reported is what the root then offers |
| `PlanObjects.PrePhysicalOp.PopulateProducers` | fpdb-plan/src/prephysical/PrePhysicalPlan.cpp:30-35 | its loop over the producers |
| `PlanObjects.PrePhysicalOp.PopulateAndTrimProjectColumns` | fpdb-plan/src/prephysical/PrePhysicalPlan.cpp:24-27 | both passes: the plan is the trimmed form of one so related to the plan before |
| `BeladyPlanning.BeladyCachingPolicyHelper.AddToSegmentQueryNumMappings` | fpdb-cache/src/policy/BeladyCachingPolicyHelper.cpp:9-29 | the maps from queries to segments and back stay inverse |
| `BeladyPlanning.BeladyCachingPolicyHelper.QuerySegmentNextUsedIn` | fpdb-cache/src/policy/BeladyCachingPolicyHelper.cpp:44-57 | the least later query that uses the segment, -1 if there is none, the exception if it is unknown |
| `BeladyPlanning.LessKeyValue` | fpdb-cache/src/policy/BeladyCachingPolicy.cpp:13-33 | of two next uses the later is worth less, never is worth least, and of equals the smaller is; the throw is unreachable |
| `BeladyPlanning.LessIsStrictWeakOrder` | fpdb-cache/src/policy/BeladyCachingPolicy.cpp:13-33 | irreflexive, asymmetric, transitive, and incomparability is transitive: what `std::sort` demands |
| `BeladyPlanning.SortDescending` | fpdb-cache/src/policy/BeladyCachingPolicy.cpp:279-281 | every candidate once, none before a more valuable one |
| `BeladyPlanning.ChosenFits` | fpdb-cache/src/policy/BeladyCachingPolicy.cpp:287-296 | the greedy choice takes only candidates used again, within the budget |
| `BeladyPlanning.RejectedDidNotFit` | fpdb-cache/src/policy/BeladyCachingPolicy.cpp:288-296 | a rejected candidate that is used again did not fit in the room left by those ranked above it |
| `BeladyPlanning.PassedOverIsLarger` | fpdb-cache/src/policy/BeladyCachingPolicy.cpp:288-296 | a candidate that was passed over is larger than every one chosen after it |
| `BeladyPlanning.ChosenIsUsedNoLater` | fpdb-cache/src/policy/BeladyCachingPolicy.cpp:22-31 | a chosen candidate is used no later than one that was passed over, is used again and is no larger |
| `BeladyPolicy.AcceptedSizeIsClose` | fpdb-cache/src/policy/BeladyCachingPolicy.cpp:57-64 | for sizes less than 2^31 apart the check is the one percent test, and 99% of an accepted size is at most the planned size |
| `BeladyPolicy.TruncatedCheckExactly` | fpdb-cache/src/policy/BeladyCachingPolicy.cpp:57-64 | sizes within one percent always pass, and one that passes is within one percent if and only if it is less than 2^31 off |
| `BeladyPolicy.TruncationHidesDifference` | fpdb-cache/src/policy/BeladyCachingPolicy.cpp:60-62 | a size 4 GiB off passes |
| `BeladyPolicy.PlannedKeysFit` | fpdb-cache/src/policy/BeladyCachingPolicy.cpp:285-296 | 99% budget against 1% tolerance: keys planned together fit with their actual sizes |
| `BeladyPolicy.Budget` | fpdb-cache/src/policy/BeladyCachingPolicy.cpp:285-287 | the greatest number of bytes within 99% of the cache |
| `BeladyPolicy.StoreKeepsExact` | fpdb-cache/src/policy/BeladyCachingPolicy.cpp:82-108 | a store keeps free bytes plus actual sizes equal to the capacity, without wrap-around of the unsigned counter |
| `BeladyPolicy.StoreCountsBytesExactly` | fpdb-cache/src/policy/BeladyCachingPolicy.cpp:82-108 | for every size, also one that slipped through the check: the bytes are right after a store if and only if there was room, and else the counter wraps around unnoticed |
| `BeladyPolicy.StoresReachPlan` | fpdb-cache/src/policy/BeladyCachingPolicy.cpp:53-111 | any order of a query's stores: nothing planned goes, nothing else comes, all stored is there |
| `BeladyPolicy.RunFollowsPlan` | fpdb-cache/src/policy/BeladyCachingPolicy.cpp:53-139 | in every run that stores exactly its missed planned keys, after each query the cache holds everything planned for it and never overfills |
| `BeladyPolicy.PredictedHitsAreReached` | fpdb-cache/src/policy/BeladyCachingPolicy.cpp:319-333 | the hits predicted for a query are a lower bound on its real hits |
| `BeladyPolicy.PlannedIsSound` | fpdb-cache/src/policy/BeladyCachingPolicy.cpp:266-299 | everything planned was cached or queried, is used again, and fits the budget together |
| `BeladyPolicy.LeftOutDidNotFit` | fpdb-cache/src/policy/BeladyCachingPolicy.cpp:279-299 | a candidate that is used again and was not planned does not fit beside the planned ones worth at least as much |
| `BeladyPolicy.PlannedIsUsedNoLater` | fpdb-cache/src/policy/BeladyCachingPolicy.cpp:279-299 | no segment is planned in place of one that is no larger and is used again earlier |
| `BeladyPolicy.GeneratedPlanIsSound` | fpdb-cache/src/policy/BeladyCachingPolicy.cpp:260-301 | the generated decisions are a plan in the sense of `RunFollowsPlan` |
| `BeladyPolicy.Evict` | fpdb-cache/src/policy/BeladyCachingPolicy.cpp:90-99 | exactly the unplanned keys go and give their bytes back |
| `BeladyPolicy.BeladyCachingPolicy.Appraise` | fpdb-cache/src/policy/BeladyCachingPolicy.cpp:288-291 | next use and size of every candidate; throws if and only if a size is unknown |
| `BeladyPolicy.BeladyCachingPolicy.Choose` | fpdb-cache/src/policy/BeladyCachingPolicy.cpp:287-296 | the greedy loop |
| `BeladyPolicy.BeladyCachingPolicy.PlanQuery` | fpdb-cache/src/policy/BeladyCachingPolicy.cpp:264-299 | one query's decision, and when it throws |
| `BeladyPolicy.BeladyCachingPolicy.GenerateCacheDecisions` | fpdb-cache/src/policy/BeladyCachingPolicy.cpp:260-301 | decides every query greedily, or throws if and only if a query or a size is unknown; decisions of an earlier call are kept |
| `BeladyPolicy.BeladyCachingPolicy.OnToCache` | fpdb-cache/src/policy/BeladyCachingPolicy.cpp:113-139 | exactly the given keys that are planned, in the given order; throws without a plan |
| `BeladyPolicy.OnlyPlanned` | fpdb-cache/src/policy/BeladyCachingPolicy.cpp:130-138 | these are the given keys that are planned, as a set |
| `BeladyPolicy.OnlyAppend` | fpdb-cache/src/policy/BeladyCachingPolicy.cpp:130-138 | keys are judged one by one: the planned ones of two lists are those of the first and then those of the second |
| `BeladyPolicy.OnlyOne` | fpdb-cache/src/policy/BeladyCachingPolicy.cpp:130-138 | one key is kept if and only if it is planned |
| `BeladyPolicy.BeladyCachingPolicy.OnStore` | fpdb-cache/src/policy/BeladyCachingPolicy.cpp:53-111 | when it throws, rejects and stores; it removes nothing while there is room and else exactly the unplanned keys; the new state; and that the policy stays valid if and only if what is stored is not too large for the plan |
| `BeladyPolicy.BeladyCachingPolicy.CompareExpectedCachedKeysToActual` | fpdb-cache/src/policy/BeladyCachingPolicy.cpp:344-361 | throws if and only if there is no plan or a planned key is missing |
| `LazyHeapPolicy.ValidEntriesAreCached` | fpdb-cache/src/policy/LFUSCachingPolicy.cpp:32-59 | the valid heap entries are exactly the cached objects, each once |
| `LazyHeapPolicy.MeetKeepsOk` | fpdb-cache/src/policy/LFUSCachingPolicy.cpp:54-56 | a first use keeps the invariant |
| `LazyHeapPolicy.UseKeepsOk` | fpdb-cache/src/policy/LFUSCachingPolicy.cpp:35-53 | so does a further use, which invalidates the entry of a cached key and pushes a copy |
| `LazyHeapPolicy.WeighKeepsOk` | fpdb-cache/src/policy/WLFUCachingPolicy.cpp:66-69 | so does adding a weight in place |
| `LazyHeapPolicy.SomethingLeft` | fpdb-cache/src/policy/LFUSCachingPolicy.cpp:95-96 | while bytes are missing the heap is not empty |
| `LazyHeapPolicy.MakeRoom` | fpdb-cache/src/policy/LFUSCachingPolicy.cpp:93-119 | the store loop terminates; it evicts only keys of smaller weight (W-LFU) or fewer hits per byte (LFU-S), no more than it takes, or finds a cached key with at least as much and leaves cached keys and valid entries as they were |
| `LazyHeapPolicy.VictimsAreWorthLess` | fpdb-cache/src/policy/WLFUCachingPolicy.cpp:19-21 | what is evicted has a smaller weight than what is stored or, without weights, a finite and smaller number of hits per byte |
| `LazyHeapPolicy.UnbeatenIsWorthAsMuch` | fpdb-cache/src/policy/LFUSCachingPolicy.cpp:21-23 | what rejects a store is a cached key with at least the weight or the hits per byte |
| `LazyHeapPolicy.Restore` | fpdb-cache/src/policy/LFUSCachingPolicy.cpp:109-114 | the rollback loop restores the cached keys and the valid entries |
| `LazyHeapPolicy.FilledIsOk` | fpdb-cache/src/policy/LFUSCachingPolicy.cpp:121-126 | an accepted store keeps the invariant |
| `LazyHeapPolicy.RejectedIsOk` | fpdb-cache/src/policy/WLFUCachingPolicy.cpp:121-131 | so does a rejected one |
| `LazyHeapPolicy.SizedKeepsOk` | fpdb-cache/src/policy/LFUSCachingPolicy.cpp:77-81 | so does giving a size to a key that is not cached |
| `LazyHeapPolicy.StepKeepsOk` | fpdb-cache/src/policy/WLFUCachingPolicy.cpp:30-144 | every load, weight and store keeps it |
| `LazyHeapPolicy.RunKeepsOk` | fpdb-cache/src/policy/LFUSCachingPolicy.cpp:32-131 | over every run: one valid object per known key, the valid heap entries are the cached ones, and free bytes plus their sizes equal the capacity |
| `LazyHeapPolicy.LoopTotal` | fpdb-cache/src/policy/LFUSCachingPolicy.cpp:93-107 | what the loop gave back and what is still cached make up the whole cache |
| `LazyHeapPolicy.StaleNeverRevives` | fpdb-cache/src/SegmentMetadata.cpp:16-21 | over every run an entry that went stale stays stale |
| `LazyHeapPolicy.RejectIsStep` | fpdb-cache/src/policy/LFUSCachingPolicy.cpp:109-118 | a rejected store of the object is a step of such a run |
| `LazyHeapPolicy.StoreIsStep` | fpdb-cache/src/policy/LFUSCachingPolicy.cpp:121-130 | so is an accepted one |
| `LazyHeapPolicy.LazyHeapCachingPolicy.OnLoad` | fpdb-cache/src/policy/LFUSCachingPolicy.cpp:32-59 | the new state of every index and object: one more hit, and the hits per byte times the size are the hits; throws if and only if a known key's size is unknown |
| `LazyHeapPolicy.LazyHeapCachingPolicy.UseKey` | fpdb-cache/src/policy/WLFUCachingPolicy.cpp:33-51 | counting a hit, with invalidation and copy |
| `LazyHeapPolicy.UseCountsHit` | fpdb-cache/src/SegmentMetadata.cpp:55-58 | after a use the known object has one hit more, hits per byte that times the size are the hits, and the same size and value |
| `LazyHeapPolicy.LazyHeapCachingPolicy.OnStore` | fpdb-cache/src/policy/LFUSCachingPolicy.cpp:65-131 | when it throws; a segment that fits is rejected only in favour of a cached key of at least its weight, or hits per byte, and then nothing but stale entries and a missing size change; an accepted one removes only keys of less, and no more than it takes |
| `LazyHeapPolicy.LazyHeapCachingPolicy.StoreSized` | fpdb-cache/src/policy/WLFUCachingPolicy.cpp:106-143 | the same from the loop on |
| `LazyHeapPolicy.LazyHeapCachingPolicy.OnWeight` | fpdb-cache/src/policy/WLFUCachingPolicy.cpp:59-77 | the loop over the weights, and what it has done when it throws at an unknown key |
| `LazyHeapPolicy.WeightCountsOnce` | fpdb-cache/src/policy/WLFUCachingPolicy.cpp:61-76 | each key gains the first weight given for it, unless it was weighed in this query before |
| `LazyHeapPolicy.WeighThrowsExactly` | fpdb-cache/src/policy/WLFUCachingPolicy.cpp:61-76 | it throws if and only if some key is neither known nor weighed in this query before |
| `LazyHeapPolicy.LazyHeapCachingPolicy.OnNewQuery` | fpdb-cache/src/policy/WLFUCachingPolicy.cpp:244-248 | weights count again |
| `LazyHeapPolicy.StoredTwiceDisagrees` | fpdb-cache/src/policy/LFUSCachingPolicy.cpp:123-125 | why a cached key must not be stored again: its object would be on the heap twice |
| `StaleReports.ReportIsRightExactly` | fpdb-cache/src/policy/LFUSCachingPolicy.cpp:210-217 | the reported keys are the cached ones if and only if no stale entry of an evicted key is on the heap |
| `StaleReports.NoStaleEntryNoWrongReport` | fpdb-cache/src/policy/LFUSCachingPolicy.cpp:210-217 | so they are on a heap without stale entries |
| `StaleReports.EvictedKeyIsReported` | fpdb-cache/src/policy/LFUSCachingPolicy.cpp:95-126 | a run of loads and stores after which an evicted key is reported |
| `LruPolicy.OrderAfterHit` | fpdb-cache/src/policy/LRUCachingPolicy.cpp:53-58 | moving a used key to the front keeps the list ordered by last use |
| `LruPolicy.OrderWithFront` | fpdb-cache/src/policy/LRUCachingPolicy.cpp:46-47 | so does putting a new key in front |
| `LruPolicy.LastUseIsLast` | fpdb-cache/src/policy/LRUCachingPolicy.cpp:53-58 | the time of last use is the last occurrence in the history |
| `LruPolicy.HitKeepsOk` | fpdb-cache/src/policy/LRUCachingPolicy.cpp:53-58 | a hit keeps list and map in agreement, the order and the bytes |
| `LruPolicy.StoreKeepsOk` | fpdb-cache/src/policy/LRUCachingPolicy.cpp:46-48 | so does a store after eviction |
| `LruPolicy.StoredTwiceDisagrees` | fpdb-cache/src/policy/LRUCachingPolicy.cpp:46-47 | why a cached key must not be stored again: the list would have two nodes for it |
| `LruPolicy.MakeRoom` | fpdb-cache/src/policy/LRUCachingPolicy.cpp:40-45 | the loop never pops an empty list and evicts exactly the shortest suffix that makes room |
| `LruPolicy.LruCachingPolicy.OnLoad` | fpdb-cache/src/policy/LRUCachingPolicy.cpp:53-58 | the list is the cached keys by last use, most recent first, after every load |
| `LruPolicy.LruCachingPolicy.OnStore` | fpdb-cache/src/policy/LRUCachingPolicy.cpp:31-51 | and after every store; rejects if and only if the segment exceeds the cache; removes the shortest suffix, least recently used first |
| `LfuPolicy.EraseKeepsIndexed` | fpdb-cache/src/policy/LFUCachingPolicy.cpp:26-30 | erasing a node keeps every other key in exactly one bucket, its own |
| `LfuPolicy.InsertKeepsIndexed` | fpdb-cache/src/policy/LFUCachingPolicy.cpp:43-53 | so does inserting one |
| `LfuPolicy.InsertedTwiceDisagrees` | fpdb-cache/src/policy/LFUCachingPolicy.cpp:43-53 | why a cached key must not be stored again: its bucket would hold two nodes for it |
| `LfuPolicy.LastBucket` | fpdb-cache/src/policy/LFUCachingPolicy.cpp:28-33 | the last bucket becomes empty if and only if the only key goes |
| `LfuPolicy.EraseFreqMap` | fpdb-cache/src/policy/LFUCachingPolicy.cpp:26-41 | undefined if and only if the last bucket becomes empty; else the set is the non-empty buckets, and `minFreq_` stays while its bucket does and is the least of them otherwise |
| `LfuPolicy.EraseDrops` | fpdb-cache/src/policy/LFUCachingPolicy.cpp:26-30 | erasing a node takes its key out of its list and leaves every other list, and every order, as it was |
| `LfuPolicy.Insert` | fpdb-cache/src/policy/LFUCachingPolicy.cpp:43-57 | the new node goes to the end of its bucket; `minFreq_` follows only if it was 0 |
| `LfuPolicy.Scan` | fpdb-cache/src/policy/LFUCachingPolicy.cpp:123-135 | the loop over one bucket: where in the order of the search it stops, and why |
| `LfuPolicy.FindSpace` | fpdb-cache/src/policy/LFUCachingPolicy.cpp:113-149 | the search goes over the keys in a fixed order, and ends: with the shortest beginning of it that makes room, all of strictly fewer hits, or at the first key with as many hits |
| `LfuPolicy.OrderListsAll` | fpdb-cache/src/policy/LFUCachingPolicy.cpp:115-148 | that order has every cached key once |
| `LfuPolicy.LastOfOrder` | fpdb-cache/src/policy/LFUCachingPolicy.cpp:139-147 | it ends with the last node of the greatest hit number other than `minFreq_`, or of `minFreq_` if it is alone |
| `LfuPolicy.AllGoExactly` | fpdb-cache/src/policy/LFUCachingPolicy.cpp:119-158 | the victims are all the cached keys if and only if, before the call, all have fewer hits and do not make room without the last one |
| `LfuPolicy.EverythingCanGo` | fpdb-cache/src/policy/LFUCachingPolicy.cpp:26-33 | a cache and a store for which that is so |
| `LfuPolicy.SearchEnds` | fpdb-cache/src/policy/LFUCachingPolicy.cpp:122-148 | the search cannot run out of buckets without having made room |
| `LfuPolicy.RemoveAll` | fpdb-cache/src/policy/LFUCachingPolicy.cpp:154-158 | the removal loop is undefined if and only if every cached key goes; else each list keeps its other keys in order, and `minFreq_` stays or becomes the least hit number left |
| `LfuPolicy.LoadKeepsOk` | fpdb-cache/src/policy/LFUCachingPolicy.cpp:59-80 | a load keeps each key in the bucket of its hits and the bytes exact |
| `LfuPolicy.StoreKeepsOk` | fpdb-cache/src/policy/LFUCachingPolicy.cpp:153-161 | so does a store |
| `LfuPolicy.Replace` | fpdb-cache/src/policy/LFUCachingPolicy.cpp:153-161 | removing the victims and inserting the key at the end of its list, with the bytes; undefined if and only if the victims are all cached keys |
| `LfuPolicy.LfuCachingPolicy.OnLoad` | fpdb-cache/src/policy/LFUCachingPolicy.cpp:59-80 | undefined if and only if the key is the only cached one; else exactly one hit is counted, a cached key goes to the end of the next list, every other list and order stays, and `minFreq_` is what the code makes of it |
| `LfuPolicy.LfuCachingPolicy.OnStore` | fpdb-cache/src/policy/LFUCachingPolicy.cpp:91-165 | when it throws; that it is undefined if and only if it would evict every cached key, said of the state before; what it removes and where it stops otherwise, the lists and `minFreq_` afterwards, with the indexes in agreement and the bytes exact |
| `LfuOrder.SearchedInOrder` | fpdb-cache/src/policy/LFUCachingPolicy.cpp:115-147 | the search looks at keys with `minFreq_` hits first, then by ascending hits, and oldest first among equals |
| `LfuOrder.AscendsExactly` | fpdb-cache/src/policy/LFUCachingPolicy.cpp:115-147 | it goes by ascending hits if and only if `minFreq_` is the least hit number in use |
| `LfuOrder.EvictsLeastUsed` | fpdb-cache/src/policy/LFUCachingPolicy.cpp:119-158 | then no evicted key has more hits than one that stays |
| `LfuOrder.RejectsExactly` | fpdb-cache/src/policy/LFUCachingPolicy.cpp:113-165 | then a segment that fits the cache is rejected if and only if all keys with fewer hits together do not make room |
| `LfuOrder.LeastAfterExactly` | fpdb-cache/src/policy/LFUCachingPolicy.cpp:26-57 | a load or a store leaves `minFreq_` least if and only if nothing else is cached or some key that stays has no more hits than the one that comes |
| `LfuOrder.LoadSkipsLeast` | fpdb-cache/src/policy/LFUCachingPolicy.cpp:69-79 | a cache of two keys and a load after which a store is rejected that a less used key could make room for |
| `BeladyPolicy.StoredTwiceMiscounts` | fpdb-cache/src/policy/BeladyCachingPolicy.cpp:82-86 | why a cached key must not be stored again: its bytes would be taken twice |
| `SegmentCaches.StoreInLru` | fpdb-cache/src/policy/LRUCachingPolicy.cpp:31-51 | the keys LRU tracks afterwards are those before, without the removed ones and with the new one |
| `SegmentCaches.StoreInLfu` | fpdb-cache/src/policy/LFUCachingPolicy.cpp:91-165 | the same for LFU |
| `SegmentCaches.StoreInLazyHeap` | fpdb-cache/src/policy/WLFUCachingPolicy.cpp:83-144 | the same for LFU-S and W-LFU |
| `SegmentCaches.StoreInBelady` | fpdb-cache/src/policy/BeladyCachingPolicy.cpp:53-111 | the same for Belady |
| `SegmentCaches.FitsCapacity` | fpdb-cache/src/policy/CachingPolicy.cpp:13-20 | whatever the policy, the tracked bytes are at most the capacity |
| `SegmentCaches.OnStore` | fpdb-cache/include/fpdb/cache/policy/CachingPolicy.h:46-52 | every policy's decision describes what it tracks |
| `SegmentCaches.OnLoad` | fpdb-cache/include/fpdb/cache/policy/CachingPolicy.h:39-44 | a load never changes what any policy tracks |
| `SegmentCaches.SegmentCache.Store` | fpdb-cache/src/SegmentCache.cpp:20-29 | the map's keys equal the policy's tracked keys; removed keys go, the new data comes, and nothing else changes; the policy stays valid unless LFU is undefined or a segment is too large for Belady's plan |
| `SegmentCaches.SegmentCache.Load` | fpdb-cache/src/SegmentCache.cpp:31-43 | a hit if and only if the key is tracked, with the data of its latest accepted store |
| `SegmentCaches.CheckConsistency` | fpdb-cache/src/SegmentCache.cpp:161-175 | throws if and only if the reported keys are not the map's keys, though it checks only sizes and one inclusion |
| `TupleKeys.GetFieldIndex` | fpdb-tuple/src/TupleSetIndex.cpp:27-31 | the position of the one column of that name, -1 if there is none or more than one |
| `TupleKeys.ToLower` | fpdb-tuple/src/ColumnName.cpp:11-16 | capital letters become the small letter at the same place in the alphabet, and nothing else changes |
| `TupleKeys.Resolve` | fpdb-tuple/src/TupleSetIndex.cpp:24-32 | resolves the names, or fails if and only if one of them does not name exactly one column |
| `TupleKeys.MakeKey` | fpdb-tuple/include/fpdb/tuple/TupleKey.h:220-236 | the row's values in the key columns; fails if and only if one has a type without keys |
| `Multimaps.IndexAppend` | fpdb-tuple/src/TupleSetIndex.cpp:121-128 | the index of two pieces, the second numbered on, is the index of the whole |
| `Multimaps.IndexIsUnique` | fpdb-tuple/src/TupleSetIndex.cpp:45-88 | a table has one index, however it was made |
| `Multimaps.IndexSize` | fpdb-tuple/src/TupleSetIndex.cpp:86 | it has as many entries as the table has rows |
| `Multimaps.Move` | fpdb-tuple/src/TupleSetIndex.cpp:143-146 | the loop that raises the row numbers of another index |
| `Multimaps.MovedIndex` | fpdb-tuple/src/TupleSetIndex.cpp:141-146 | an index with its numbers raised is the index of the same rows numbered on |
| `Multimaps.Find` | fpdb-tuple/src/TupleSetIndex.cpp:216-223 | the rows of the entries with the key, once per entry |
| `Multimaps.FoundExactly` | fpdb-tuple/src/TupleSetIndex.cpp:216-223 | on the index of a table: exactly the rows with the key, each once |
| `TupleSetIndices.BuildBatch` | fpdb-tuple/src/TupleSetIndex.cpp:65-76 | the inner loop |
| `TupleSetIndices.Build` | fpdb-tuple/src/TupleSetIndex.cpp:44-88 | however the table is chunked, the result is the index of its rows numbered from the offset; fails if and only if a key cannot be made |
| `TupleSetIndices.AlignedByName` | fpdb-tuple/src/TupleSetIndex.cpp:91-106 | every value of an aligned table comes from the column of the same name |
| `TupleSetIndices.Align` | fpdb-tuple/src/TupleSetIndex.cpp:91-106 | aligns, or fails if and only if schemas differ and a column is missing |
| `TupleSetIndices.PutNeedsCanonicalNames` | fpdb-tuple/src/TupleSetIndex.cpp:108-119 | the two checks of `put` pass if and only if the index's column names are canonical |
| `TupleSetIndices.UpperCaseNameCannotBePut` | fpdb-tuple/src/TupleSetIndex.cpp:108-119 | an index on an upper-case name can be made and not be put to |
| `TupleSetIndices.Make` | fpdb-tuple/src/TupleSetIndex.cpp:22-42 | a valid index of the table, or when it fails |
| `TupleSetIndices.TupleSetIndex.Put` | fpdb-tuple/src/TupleSetIndex.cpp:90-138 | stays an index; succeeds if and only if the table aligns, the names are canonical and every key can be made; a failed put changes nothing |
| `TupleSetIndices.TupleSetIndex.Merge` | fpdb-tuple/src/TupleSetIndex.cpp:140-157 | leaves an index if and only if the other one has no rows, or the same schema and the same keys for its rows |
| `TupleSetIndices.MergeCanBreakIndex` | fpdb-tuple/src/TupleSetIndex.cpp:143-152 | a merge that leaves no index |
| `TupleSetIndices.MergedIsBuilt` | fpdb-tuple/src/TupleSetIndex.cpp:140-157 | with equal schemas, exactly when the keys agree |
| `TupleSetIndices.NotMergedIsBuilt` | fpdb-tuple/src/TupleSetIndex.cpp:149-152 | with different schemas, exactly when the other index is empty |
| `TupleSetIndices.TupleSetIndex.Find` | fpdb-tuple/src/TupleSetIndex.cpp:216-223 | on an index, exactly the rows with the key, each once |
| `TupleSetIndices.TupleSetIndex.Validate` | fpdb-tuple/src/TupleSetIndex.cpp:159-214 | succeeds if and only if every row is found under its key, hence on every index |
| `HashProbe.FindRow` | fpdb-tuple/src/TupleSetIndexFinder.cpp:37-47 | exactly the build rows with an equal key, or the error |
| `HashProbe.Probe` | fpdb-executor/src/physical/join/hashjoin/RecordBatchHashJoiner.cpp:52-119 | the matched pairs of rows are the nested-loop equi-join, each once; fails if and only if a column is missing or a key cannot be made |
| `HashProbe.Join` | fpdb-executor/src/physical/join/hashjoin/RecordBatchHashJoiner.cpp:38-131 | one joined row per matched pair, with the needed columns of both sides, and the numbers of the rows that found a match |
| `HashProbe.MatchesInRange` | fpdb-executor/src/physical/join/hashjoin/RecordBatchHashJoiner.cpp:98-118 | every matched pair is a pair of rows with equal keys |
| `DeltaCaches.StoreBatch` | fpdb-executor/src/delta/DeltaCacheActor.cpp:94-113 | the loop adds one version per delta to its partition and leaves the others alone |
| `DeltaCaches.PumpAdds` | fpdb-delta/src/DeltaCache.cpp:43-54 | a pump adds exactly its deltas to what is cached |
| `DeltaCaches.QuietExactly` | fpdb-executor/src/delta/DeltaCacheActor.cpp:76-115 | nothing was pumped for a partition exactly when as much was pumped before as after |
| `DeltaCaches.MergedStoreConserves` | fpdb-executor/src/delta/DeltaCacheActor.cpp:118-134 | storing a merged delta conserves the partition if and only if nothing was pumped for it since the load |
| `DeltaCaches.RunConserves` | fpdb-executor/src/delta/DeltaCacheActor.cpp:45-134 | over every run in which no pump falls between a partition's load and its merged store, the merge of the cached versions is the merge of all deltas pumped |
| `DeltaCaches.LatePumpIsLost` | fpdb-executor/src/delta/DeltaCacheActor.cpp:132-134 | a run that loses a delta |
| `DeltaCaches.QuerySeesOneSnapshot` | fpdb-executor/src/delta/DeltaCacheActor.cpp:47-58 | with no timer pump and no other query in between, all loads of a query see the same deltas in every partition |
| `DeltaCaches.DeltaCacheActor.DeltaPump` | fpdb-executor/src/delta/DeltaCacheActor.cpp:76-115 | new versions and the time of the last pump |
| `DeltaCaches.DeltaCacheActor.LoadMemoryDelta` | fpdb-executor/src/delta/DeltaCacheActor.cpp:45-74 | the first load of a query pumps, even if the table is missing; the versions and the stable bitmap returned |
| `DeltaCaches.DeltaCacheActor.StoreMergedDelta` | fpdb-executor/src/delta/DeltaCacheActor.cpp:118-149 | the partition's versions are replaced by the merged one, and its stable bitmap if the message has one |

## Left out

- `SegmentCache::remove`, the policies' `onRemove` and `erase`: they do not give bytes back, and one does not tell the policy.
- The estimates of `onToCache` in LFU, LFU-S and W-LFU, marked FIXME in the code.
- That the heap's front is the least valuable entry: values change inside the heap, so `push_heap` and `pop_heap` are taken to rearrange it in any way.
- LazyHeapPolicy key objects are entries of a sequence referred to by index, not Dafny objects: sharing and updates in place are visible, sharing with a caller who keeps the object is not.
- LazyHeapPolicy.LazyHeapCachingPolicy.OnNewQuery: does not copy the heap and the free size for the estimates of `onToCache`, which are left out.
- LruPolicy.LruCachingPolicy.OnStore: a key that is already cached is not stored; the policies do not look, and what would go wrong is in `LruPolicy.StoredTwiceDisagrees`.
- LfuPolicy.LfuCachingPolicy.OnStore: the same, see `LfuPolicy.InsertedTwiceDisagrees`.
- LazyHeapPolicy.LazyHeapCachingPolicy.OnStore: the same, see `LazyHeapPolicy.StoredTwiceDisagrees`.
- LazyHeapPolicy.LazyHeapCachingPolicy.StoreSized: the same.
- BeladyPolicy.BeladyCachingPolicy.OnStore: the same, see `BeladyPolicy.StoredTwiceMiscounts`.
- SegmentCaches.StoreInLru: the same, and so for `SegmentCaches.StoreInLfu`, `SegmentCaches.StoreInLazyHeap` and `SegmentCaches.StoreInBelady`.
- SegmentCaches.OnStore: the same.
- SegmentCaches.SegmentCache.Store: the same; `emplace` would keep the old data.
- TrimCorrectness.TrimPreservesMeaning: one direction; that a used fallback column changes the result is proved for a scan and its consumer, because above that an operator may hide it.
- PopulateCorrectness.PopulatePreservesMeaning: operators that make columns of their own (projections, aggregates, groups) must come with project columns, as the plan deserializer makes them; without any, the pass gives them the columns of their input, and what they were to mean is not defined. An unset scan is the case of `PopulateCorrectness.UnsetScanKeepsFirstColumn`.
- TupleSetIndices.TupleSetIndex.Validate: goes over the rows, not over the batches and then the rows; the table is owned by the index, not shared with a caller.
- HashProbe.Join: copies the columns after the matches are known, not while they are found; chunks of the result are one sequence of rows.
- Merging deltas and stable bitmaps itself.
- Floating-point rounding: 0.99, 0.01 and hits per size are exact rationals, with floors where the code casts to an integer.
- Nulls in Arrow arrays, and memory failures of Arrow.
- Actor spawning, scheduling, remote nodes, timing, metrics and graphs in the executor; requests to the segment cache actor and delta cache actor.
- Expressions, filters, projections, readers and writers of CSV and Parquet, the SQL front end, catalogues, AWS clients, generated code.
