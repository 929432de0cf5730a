# GengoDB runtime: verified models

A Dafny model of the parallel query runtime of GengoDB, with proofs of what its fast or
concurrent structures guarantee. Each component is modelled in the form the source has:
protocols are state machines over their atomic steps, objects are classes, in-place
algorithms work on arrays, loops are loops. `dafny verify dfyconfig.toml` checks
everything.

| files | component |
|---|---|
| `Basics`, `Sums` | `Option`, `Result` and the few definitions that components share |
| `Orders`, `Tickets`, `SortSplits`, `SortLocal`, `SortSegments`, `SortSeparators`, `SortMerge`, `Sorting` | the parallel sample sort, `src/runtime/Sorting.cpp` |
| `SchedulerModel`, `SchedulerInvariant`, `SchedulerFrames`, `SchedulerTaskSteps`, `SchedulerFiberSteps`, `SchedulerWakeSteps`, `Scheduler`, `SchedulerProgress`, `SchedulerCompletion`, `SchedulerChoice` | the fiber scheduler, `src/scheduler/Scheduler.cpp` |
| `BufferScan`, `BufferScanProof`, `BufferScanProgress` | the work-stealing buffer scan, `src/runtime/Buffer.cpp` |
| `Bits`, `Chains`, `Buckets` | bit masks, `nextPow2`, tagged bucket heads and chains shared by all hash tables |
| `JoinTable`, `JoinTableProgress` | the lock-free join table build, `src/runtime/LazyJoinHashtable.cpp` |
| `EmitterModel`, `EmitterSemantics`, `EmitterNames`, `EmitterStores`, `EmitterSteps`, `EmitterWhile`, `EmitterFor`, `EmitterProof`, `EmitterText`, `Emitter`, `EmitterStream` | structured control flow in the C emitter, `src/execution/CEmitter.cpp` |
| `PreAggregation`, `Hashtable`, `HashIndex` | pre-aggregation, chained hash table, persistent hash index |
| `HeapSift`, `Heap`, `SegmentTree` | top-k heap, segment tree |
| `LikeTokens`, `LikeExact`, `Like`, `LikeUtf8` | LIKE matching, `src/runtime/StringRuntime.cpp` |
| `SparqlTerm` | the RDF term reader, `src/tools/sparql-endpoint.cpp` |

Properties that turned out not to hold of the code are stated with a concrete input and
the exact condition under which the code does meet them:

- `scf.for` copies the yielded operands into the iteration arguments one after the
  other. This equals copying at once, for every store, if and only if no operand is an
  earlier iteration argument that was overwritten with something else
  (`EmitterStores.CopiesAgreeExactlyWhenSafe`); a loop that swaps two arguments returns
  one of them twice (`Emitter.SwapChangesMeaning`).
- Up to 128 workers the ceil-sized splits of the sort always fit the input, and that
  bound is tight: with 129 workers the last of the 514 splits of 263169 elements is empty,
  and with more workers it starts past the end (`SortSplits.ManyWorkersOverrun`).
  `SortSplits.SplitsFitExactly` gives the condition, and `SortSplits.QuotientSplitsFit` its
  closed form for the branches that divide the input size.
- A queued task can be left behind: a worker that found the queue empty goes to sleep
  without looking at it again, so an enqueue in between may be noticed by nobody
  (`SchedulerProgress.TaskLeftBehind`). This can happen if and only if every worker is in
  that position at the moment of the enqueue (`SchedulerProgress.LeftBehindExactly`), and
  never to a task that a fiber awaits (`SchedulerProgress.ChildNeverLeft`).
- An index that was loaded without a file and never inserted into has no bucket array, and
  a lookup reads through it (`HashIndex.UnbuiltExactly`, `HashIndex.LookupRows`).
- A segment tree over no elements asks for 2^64 - 1 nodes (`SegmentTree.NodeBytesExact`).
- After a `%`, LIKE reads an escaped character as if it were not escaped, and it compares
  only the first byte of a UTF-8 character, although its comment says that the character
  after an escape must match exactly. `LikeUtf8.LikeExactly` says for which patterns it
  decides LIKE on every text, in both directions, and `LikeUtf8.AsciiLikeExactly` for which
  ASCII patterns it does on ASCII strings.

Assumptions taken from the code around the components: comparison functions are strict
weak orders; `allocateWork` fails only after it has set `workExhausted`, and nothing else
sets that flag, which is proved for the buffer scan (`BufferScanProgress.FailureExhausts`);
tasks are enqueued with work; the buffers of a `FlexibleBuffer` are
visited once each, in insertion order. Atomics are sequentially consistent, as the source
asks for. Pointers are entry numbers, so the 48-bit limit of tagged pointers is not
modelled.

## Model

| member | source | states |
|---|---|---|
| `Sorting.ParallelSort` | src/runtime/Sorting.cpp:343-392 | for every strict weak order, every input, every number of workers whose splits fit and every order in which each phase hands out its tickets, the output is sorted and is a permutation of the input |
| `SortLocal.CopyPhase` | src/runtime/Sorting.cpp:45-73 | the copy tickets, in any order, fill the vector with the concatenation of the buffers |
| `SortLocal.LocalPhase` | src/runtime/Sorting.cpp:90-134 | in any ticket order every split ends up sorted, with its local separators inside it and in order, and the vector stays a permutation |
| `SortSeparators.SepSearchPhase` | src/runtime/Sorting.cpp:160-191 | in any ticket order every split gets, for each separator position, the lower bound of one common median of that position |
| `SortSeparators.LowerBound` | src/runtime/Sorting.cpp:182-189 | the first position of a sorted range that is not less than the probe |
| `Orders.OrderStatisticDomination` | src/runtime/Sorting.cpp:174-180 | if a vector is pointwise not greater than another, neither are its order statistics |
| `SortSeparators.MediansDominated` | src/runtime/Sorting.cpp:171-180 | the medians of pointwise ordered separator columns are ordered |
| `SortSeparators.SeparatorsMonotone` | src/runtime/Sorting.cpp:171-189 | the global separators of every split do not decrease from one position to the next |
| `SortSeparators.CutsOrdered` | src/runtime/Sorting.cpp:246-257 | no `end - begin` underflows, over any distance of positions |
| `SortSeparators.CutSeparates` | src/runtime/Sorting.cpp:246-257 | an element after a cut is not less than one before it, across all splits |
| `SortSeparators.SeparatorsGiveGoodCuts` | src/runtime/Sorting.cpp:246-257 | the segments hold every element once, are sorted per split, and later segments are nowhere less than earlier ones |
| `SortSegments.RangesTile` | src/runtime/Sorting.cpp:362-379 | the segment lengths add up from 0 to exactly n |
| `Sorting.OutputRanges` | src/runtime/Sorting.cpp:362-379 | the prefix sums are ordered, tile 0..n and differ by the segment lengths, so the assertion of line 271 holds for every segment |
| `SortMerge.MergeSegment` | src/runtime/Sorting.cpp:259-281 | the k-way merge writes exactly the elements of its segment, sorted, into its own range |
| `SortMerge.SegmentsAssemble` | src/runtime/Sorting.cpp:270-281 | the finished segments, range by range, make up a sorted sequence of exactly their elements |
| `Sorting.MergePhase` | src/runtime/Sorting.cpp:240-281 | in any ticket order the merged output is sorted and a permutation of the input |
| `SortSplits.SplitParametersPositive` | src/runtime/Sorting.cpp:286-336 | above 512 elements there is a split and a separator, and splits average at least 512 elements |
| `SortSplits.SplitSizes` | src/runtime/Sorting.cpp:297-333 | 512 elements a split below 2048 elements per worker, two splits per worker up to 65536, four up to 131072, then 2^16 and, above 524288, 2^17 elements a split |
| `SortSplits.SeparatorsPerSplit` | src/runtime/Sorting.cpp:289-335 | one, two or four separators per worker by the size per worker, or as many as leave eight elements of a split to each |
| `SortSplits.SplitsTile` | src/runtime/Sorting.cpp:91-113 | consecutive splits meet, are not empty, and the last one ends at n |
| `SortSplits.SplitsFitExactly` | src/runtime/Sorting.cpp:91-113 | no split is empty or inverted if and only if (c - 1) * ceil(n / c) < n |
| `SortSplits.RealisticSplitsFit` | src/runtime/Sorting.cpp:287-336 | for 513 to 2^33 elements and 1 to 128 workers the splits fit |
| `SortSplits.ManyWorkersOverrun` | src/runtime/Sorting.cpp:287-336 | 263169 elements and 129 workers: the last split is empty; 2000000 elements and 1000 workers: it starts past the end |
| `SortSplits.QuotientSplitsFit` | src/runtime/Sorting.cpp:297-328 | n / s splits fit if and only if s divides n or n / s < s + 1 + n mod s, for s = 512, 65536 and 131072 |
| `SortSplits.LocalSeparatorInside` | src/runtime/Sorting.cpp:116-131 | every local separator, taken as the exact floor, lies inside its split |
| `SortSplits.RoundedSeparatorExact` | src/runtime/Sorting.cpp:128-131 | with every operation rounded to double the separator is the exact floor, as long as three times position times separator count stays below 2^53 |
| `SortSplits.RealisticSeparatorsExact` | src/runtime/Sorting.cpp:116-131 | for 513 to 2^33 elements and 1 to 128 workers every rounded separator is the exact one |
| `SchedulerTaskSteps.CountReturnKeeps` | src/scheduler/Scheduler.cpp:458-462 | counting a return keeps deployed minus returned equal to the number of holders, and the whole invariant |
| `SchedulerTaskSteps.CoolDownKeeps` | src/scheduler/Scheduler.cpp:463-469 | dequeueing an exhausted task under the mutex keeps the invariant |
| `SchedulerTaskSteps.CompareKeeps` | src/scheduler/Scheduler.cpp:471-477 | the comparison with the last return keeps the invariant, whoever wins it |
| `SchedulerTaskSteps.DeployTaskKeeps` | src/scheduler/Scheduler.cpp:427-456 | deploying a task found by the scan keeps the invariant although its flags are read without a mutex; which task it is, SchedulerChoice says |
| `SchedulerFiberSteps.TakeFiberKeeps` | src/scheduler/Scheduler.cpp:628-636 | resuming a runnable fiber keeps the invariant |
| `SchedulerFiberSteps.YieldFiberKeeps` | src/scheduler/Scheduler.cpp:618-625 | a yielding fiber keeps the invariant |
| `SchedulerWakeSteps.AwaitChildKeeps` | src/scheduler/Scheduler.cpp:599-622 | parking a fiber and enqueueing its child keeps the invariant |
| `SchedulerWakeSteps.MakeRunnableKeeps` | src/scheduler/Scheduler.cpp:606-618 | the finalizer moving the parked fiber to its owner keeps the invariant |
| `SchedulerWakeSteps.GoToSleepKeeps` | src/scheduler/Scheduler.cpp:871-889 | going to sleep keeps the invariant |
| `Scheduler.RunInv` | src/scheduler/Scheduler.cpp:404-478 | the invariant holds in every state of every run |
| `Scheduler.FinalizedMeansDone` | src/scheduler/Scheduler.cpp:458-478 | in every reachable state a finalized task was finalized once, all its deployments were returned, nobody holds it, and every reserved unit was performed |
| `Scheduler.FinalizedForever` | src/scheduler/Scheduler.cpp:458-478 | after onFinalize no step of any worker changes the task |
| `Scheduler.FinalizedAtMostOnce` | src/scheduler/Scheduler.cpp:471-477 | in every run onFinalize runs at most once per task |
| `Scheduler.NeverOrphaned` | src/scheduler/Scheduler.cpp:412-478 | an exhausted task without holder or return in progress is finalized and out of the queue |
| `Scheduler.AwaitReturnsAfterChild` | src/scheduler/Scheduler.cpp:599-654 | a fiber is resumed only by its owner, after it has yielded, when all work of the awaited child was performed |
| `Scheduler.RunnableNeverLost` | src/scheduler/Scheduler.cpp:590-625 | if a worker sleeps with a runnable fiber, a finalizer is between its push and its wake-up call |
| `Scheduler.FinalizerAssertions` | src/scheduler/Scheduler.cpp:471-477 | the assertions of returnTask and onFinalize hold in every reachable state |
| `Scheduler.IdleListBounded` | src/scheduler/Scheduler.cpp:848-889 | the idle list never holds more entries than there are workers |
| `Scheduler.NeverDeadlocked` | src/scheduler/Scheduler.cpp:627-705 | as long as one worker is not asleep, some worker has a step, spin loop and queue mutex included |
| `SchedulerProgress.SomeoneMovesExactly` | src/scheduler/Scheduler.cpp:627-705 | in every reachable state some worker has a step if and only if not all of them sleep unsignalled |
| `SchedulerProgress.OnlyEnqueueWakes` | src/scheduler/Scheduler.cpp:848-889 | once all workers sleep unsignalled, no step but another enqueue is possible |
| `SchedulerProgress.LeftBehindExactly` | src/scheduler/Scheduler.cpp:848-889 | an enqueued task can stay queued with work while everybody sleeps if and only if every worker was about to go to sleep when it was enqueued |
| `SchedulerProgress.ChildNeverLeft` | src/scheduler/Scheduler.cpp:599-625 | an awaited child task never stays queued with work while everybody sleeps |
| `SchedulerProgress.TaskLeftBehind` | src/scheduler/Scheduler.cpp:871-889 | a run of one worker that ends asleep with a task queued and never deployed |
| `SchedulerCompletion.WindsDown` | src/scheduler/Scheduler.cpp:404-478 | once no task or fiber is added and stacks are free, every schedule ends after a bounded number of steps |
| `SchedulerCompletion.RestSettles` | src/scheduler/Scheduler.cpp:599-705 | when in a run no step is left that adds no work, everybody sleeps, no fiber is unfinished, and every task is finalized, except one nobody awaits that was enqueued when all workers were about to go to sleep |
| `SchedulerCompletion.EveryRunSettles` | src/scheduler/Scheduler.cpp:599-705 | every run can be continued without more work to such an end |
| `SchedulerCompletion.FirstTaskFinalizes` | src/scheduler/Scheduler.cpp:458-478 | with any positive number of workers some run finalizes a task enqueued at the start and ends with everybody asleep |
| `SchedulerChoice.GetTaskChoice` | src/scheduler/Scheduler.cpp:427-456 | in every run, a worker that lets go of the queue mutex found the queue empty, or deployed one more worker on the task it read last, as the first without yielded fibers, or on the first one with the fewest of all it read; every count was read from the run while it held the mutex |
| `SchedulerChoice.UndisturbedChoice` | src/scheduler/Scheduler.cpp:427-456 | if nobody else moves during the scan, the worker gets the first queued task with work that has the fewest yielded fibers, or goes to sleep if none has work |
| `BufferScan.UnitsTile` | src/runtime/Buffer.cpp:126-134 | every element of a buffer lies in exactly one unit |
| `BufferScan.UnitInside` | src/runtime/Buffer.cpp:126-134 | no unit runs past its buffer, and only an empty buffer has an empty unit |
| `BufferScanProof.RunInv` | src/runtime/Buffer.cpp:23-134 | the scan's invariant holds in every state of every run |
| `BufferScanProof.GuardsNeverBlock` | src/runtime/Buffer.cpp:23-134 | in every run the index guards of the modelled steps hold: no worker meets itself, a foreign index or a missing buffer |
| `BufferScanProof.MovesUnlessWaiting` | src/runtime/Buffer.cpp:23-134 | a worker that does not wait for a mutex has a step |
| `BufferScanProof.NeverDeadlocked` | src/runtime/Buffer.cpp:23-134 | in every state of every run some worker has a step |
| `BufferScanProof.RunAtMostOnce` | src/runtime/Buffer.cpp:81-134 | in every run no unit is run twice and only units of the buffers are run |
| `BufferScanProof.StolenUnitKeepsBuffer` | src/runtime/Buffer.cpp:126-134 | the unlocked read of the victim's bufferId finds the buffer the unit was reserved from |
| `BufferScanProof.ExhaustedOnlyWhenDone` | src/runtime/Buffer.cpp:81-124 | workExhausted is set only when every unit has been reserved; that it is set, BufferScanProgress says |
| `BufferScanProof.ExactlyOnce` | src/runtime/Buffer.cpp:81-134 | once exhausted and with no reservation open, every unit of every buffer has been run exactly once |
| `BufferScanProof.ElementsVisitedOnce` | src/runtime/Buffer.cpp:81-134 | at the end every element of every buffer has been visited exactly once |
| `BufferScanProgress.FailureExhausts` | src/runtime/Buffer.cpp:106-124 | in every run, a worker that stops looking without a unit leaves workExhausted set |
| `BufferScanProgress.StealsInOrder` | src/runtime/Buffer.cpp:94-124 | in every run a worker without work of its own asks the worker it stole from last, if that has more, then the others in turn, takes the next unit of the first that has one, and ends exhausted after the last |
| `BufferScanProgress.RunsAreBounded` | src/runtime/Buffer.cpp:81-134 | a run of n workers over u units in which every step changes the state has at most u (2n + 8) + n (2n + 6) steps |
| `BufferScanProgress.OverMeansDone` | src/runtime/Buffer.cpp:81-134 | when in a run with a worker no step changes anything any more, the scan is exhausted, all workers are idle and every unit of every buffer has been run exactly once |
| `BufferScanProgress.SomeRunCompletes` | src/runtime/Buffer.cpp:81-134 | from every initial state with a worker some run ends exhausted with every unit run exactly once |
| `BufferScanProgress.EveryInputScans` | src/runtime/Buffer.cpp:81-134 | for all buffers, unit sizes and positive numbers of workers some scan runs every unit exactly once |
| `Chains.TagMatches` | include/lingodb/runtime/helpers.h:196-211 | a new head's tag matches its entry's hash and every hash the old head matched |
| `Chains.ChainAcyclic` | src/runtime/LazyJoinHashtable.cpp:25-30 | a chain that ends meets no entry twice |
| `Buckets.PushKeeps` | src/runtime/Hashtable.cpp:37-41 | linking an entry in front of its chain keeps every chain ending, complete and tagged |
| `Buckets.FilterKeeps` | include/lingodb/runtime/helpers.h:205-213 | filterTagged drops a chain only if no entry has the hash looked for |
| `Buckets.LinkedProbed` | src/compiler/Conversion/SubOpToControlFlow/SubOpToControlFlow.cpp:2600 | a probe at hash & mask passes the tag filter and meets every linked entry with that hash once |
| `Buckets.IndexIsRemainder` | src/runtime/LazyJoinHashtable.cpp:23 | with 2^k buckets the bucket of a hash is its remainder modulo 2^k, after the low digits are dropped |
| `Buckets.Walk` | src/runtime/Hashtable.cpp:97-105 | the chain walk finds an entry with the hash and key if and only if the chain holds one |
| `JoinTable.ExchangeKeeps` | src/runtime/LazyJoinHashtable.cpp:27-30 | a successful compare-exchange makes the link current and keeps all chains |
| `JoinTable.SlotHoldsItsEntries` | src/runtime/LazyJoinHashtable.cpp:20-31 | in every state of every interleaving, spurious failures included, the number of slots is a power of two, and the chain of slot p is acyclic and holds exactly the inserted entries whose hash leaves the remainder p, each once |
| `JoinTable.FinishedTable` | src/runtime/LazyJoinHashtable.cpp:20-31 | in the finished table a probe of the slot hash mod slots passes the tag filter and meets the entry exactly once |
| `JoinTableProgress.RunsAreBounded` | src/runtime/LazyJoinHashtable.cpp:20-31 | without spurious failures n entries are inserted after at most n (2n + 4) steps, however they interleave: the build is lock-free |
| `JoinTableProgress.StuckMeansFinished` | src/runtime/LazyJoinHashtable.cpp:20-31 | in every run, when only spurious failures are possible, every entry has been inserted |
| `JoinTableProgress.EveryRunFinishes` | src/runtime/LazyJoinHashtable.cpp:20-31 | every run can be continued to one that has inserted every entry |
| `JoinTableProgress.EveryInputBuilds` | src/runtime/LazyJoinHashtable.cpp:12-31 | for all entries there is a build that inserts every one of them |
| `EmitterNames.OpGrows` | src/execution/CEmitter.cpp:1067-1075 | emitting an operation names exactly the values it defines, with new names, and never renames |
| `EmitterNames.OpsEmitted` | src/execution/CEmitter.cpp:637-866 | well-scoped operations are emitted without an error |
| `EmitterStores.SafeCopiesAtOnce` | src/execution/CEmitter.cpp:691-698 | copies that read no overwritten variable equal a simultaneous assignment |
| `EmitterStores.CopiesAgreeExactlyWhenSafe` | src/execution/CEmitter.cpp:691-698 | copies in turn equal copies at once on every store if and only if they are safe |
| `EmitterProof.SimIf` | src/execution/CEmitter.cpp:796-866 | the printed if and its yields compute what scf.if computes |
| `EmitterProof.SimWhileLoop` | src/execution/CEmitter.cpp:714-794 | the printed endless loop with its break computes what scf.while computes, iteration by iteration |
| `EmitterProof.SimForLoop` | src/execution/CEmitter.cpp:660-700 | the printed for loop computes what scf.for computes when its copies are safe |
| `EmitterProof.SimOps` | src/execution/CEmitter.cpp:637-866 | a block of operations and its printed statements end alike; if they finish, the store holds every visible value under its name and no older variable has changed |
| `Emitter.DistinctNames` | src/execution/CEmitter.cpp:1067-1075 | every well-scoped function is emitted, and distinct values get distinct names |
| `Emitter.EmittedFunctionKeepsMeaning` | src/execution/CEmitter.cpp:637-866 | for every machine, argument, memory and fuel the printed function returns what the SSA function returns, or both run on |
| `Emitter.SwapChangesMeaning` | src/execution/CEmitter.cpp:691-698 | a well-scoped loop that swaps its arguments returns the second one twice when printed |
| `EmitterText.TextRead` | src/execution/CEmitter.cpp:637-866 | a C reader with braces gets back from the text of any statements these statements, one per line, and goes on with what follows |
| `EmitterText.LinesExec` | src/execution/CEmitter.cpp:1248-1260 | declarations and copies executed one line at a time do what the grouped statements do, on every machine and store |
| `EmitterText.TextKeepsMeaning` | src/execution/CEmitter.cpp:637-866 | the text printed for operations is read to its end and does what the emitted statements do |
| `EmitterStream.PrintedFunctionKeepsMeaning` | src/execution/CEmitter.cpp:918-1028 | the printed text of a function, read as C, returns what the SSA function returns for every machine, argument, memory and fuel, or both run on |
| `EmitterStream.CppEmitter.PrintFunction` | src/execution/CEmitter.cpp:918-1028 | prints header, body and return of the modelled function and leaves the outer scope's names as they were |
| `EmitterStream.CppEmitter.GetOrCreateName` | src/execution/CEmitter.cpp:1067-1072 | a value keeps its name, a new value gets the next one |
| `EmitterStream.CppEmitter.PrintCopies` | src/execution/CEmitter.cpp:652-658 | the zip loop names the targets in order and prints one line per pair |
| `EmitterStream.CppEmitter.PrintOps` | src/execution/CEmitter.cpp:686-689 | the emitter object prints the text of the modelled statements, whose meaning EmitterText fixes, and ends with the modelled names |
| `EmitterStream.CppEmitter.PrintFor` | src/execution/CEmitter.cpp:637-712 | as PrintOps, for scf.for |
| `EmitterStream.CppEmitter.PrintWhile` | src/execution/CEmitter.cpp:714-794 | as PrintOps, for scf.while |
| `EmitterStream.CppEmitter.PrintIf` | src/execution/CEmitter.cpp:796-839 | as PrintOps, for scf.if |
| `PreAggregation.Fragment.Insert` | src/runtime/PreAggregationHashtable.cpp:46-60 | a partial lands in output hash mod 64, behind the earlier ones, and cell hash / 64 mod 1024 of the local table points at it; nothing else changes |
| `PreAggregation.GroupInPartition` | src/runtime/PreAggregationHashtable.cpp:51-55 | partitioning by the low hash bits loses and reorders no partial of a group |
| `PreAggregation.Gather` | src/runtime/PreAggregationHashtable.cpp:84-95 | the gathered buffers of a partition hold all its partials, fragment by fragment |
| `PreAggregation.MergeEntry` | src/runtime/PreAggregationHashtable.cpp:128-146 | one partial is combined into its group's entry or becomes its group's first |
| `PreAggregation.MergePartition` | src/runtime/PreAggregationHashtable.cpp:98-148 | exactly the first partial of each group stays, with the left fold of the whole group in order |
| `PreAggregation.Merge` | src/runtime/PreAggregationHashtable.cpp:85-157 | whatever the order in which partitions finish, every partition is merged and the buffer points at every kept entry once |
| `PreAggregation.MergeIsGroupBy` | src/runtime/PreAggregationHashtable.cpp:98-157 | the result is the reference group-by: one entry per distinct group with the combination of all its partials, for a combine with no algebraic laws, and no other entry |
| `PreAggregation.Lookup` | src/runtime/PreAggregationHashtable.cpp:162-170 | the chain returned for a hash holds every group with that hash exactly once |
| `PreAggregation.GroupProbed` | src/compiler/Conversion/SubOpToControlFlow/SubOpToControlFlow.cpp:2789-2798 | the generated probe of partition hash mod 64 at slot hash / 64 mod slots meets every group with the hash once |
| `Hashtable.Hashtable.Resize` | src/runtime/Hashtable.cpp:16-28 | doubling relinks every entry into a table that holds all of them |
| `Hashtable.Hashtable.Insert` | src/runtime/Hashtable.cpp:32-43 | the map gains the new key; the bucket array doubles exactly when it holds more entries than half the mask, so the load stays at most half the mask plus one |
| `Hashtable.Hashtable.Find` | src/runtime/Hashtable.cpp:109-122 | the search finds the one entry of a key if and only if it is there; the tag never hides it |
| `Hashtable.Hashtable.KeyProbed` | src/compiler/Conversion/SubOpToControlFlow/SubOpToControlFlow.cpp:2685 | the generated probe at hash & mask meets the entry of every key once |
| `Hashtable.Hashtable.Lookup` | src/runtime/Hashtable.cpp:92-107 | an error exactly for keys that are not in the map, else the entry with the map's value |
| `Hashtable.Hashtable.LookUpOrInsert` | src/runtime/Hashtable.cpp:109-125 | the map keeps an existing key and gains a new one |
| `Hashtable.Hashtable.Contains` | src/runtime/Hashtable.cpp:135-150 | true exactly for the keys of the map |
| `Hashtable.Hashtable.MergeEntries` | src/runtime/Hashtable.cpp:62-90 | merging another table is the pointwise merge of the two maps |
| `Hashtable.Merge` | src/runtime/Hashtable.cpp:49-61 | merging all thread-local tables is the pointwise merge of their maps, in order |
| `HeapSift.SiftRepairs` | src/runtime/Heap.cpp:8-20 | bubbleDown restores the heap order below and above the hole |
| `HeapSift.SiftRearranges` | src/runtime/Heap.cpp:8-20 | bubbleDown permutes slots 1 to end and touches no other |
| `Heap.Heap.BuildHeap` | src/runtime/Heap.cpp:21-25 | the slots become a heap of the same elements |
| `Heap.Heap.Insert` | src/runtime/Heap.cpp:27-41 | the heap holds the k least of everything inserted, as far as there are k |
| `Heap.Heap.GetBuffer` | src/runtime/Heap.cpp:48-58 | min(k, m) inserted elements come out sorted, and no dropped one is less than a kept one |
| `Heap.Heap.MergeWithOther` | include/lingodb/runtime/Heap.h:33-37 | after inserting what another heap kept, the heap holds the k least of everything inserted into either |
| `Heap.MergedNoneBetter` | include/lingodb/runtime/Heap.h:33-37 | nothing another full heap dropped can be among the best of the union |
| `Heap.Merge` | src/runtime/Heap.cpp:63-75 | merging the heaps of all workers gives the k least of everything inserted anywhere |
| `SegmentTree.TreeStateIsFold` | src/runtime/SegmentTreeView.cpp:20-43 | for an associative combine every node's state is the left fold over its elements |
| `SegmentTree.SegmentTreeView.BuildRecursively` | src/runtime/SegmentTreeView.cpp:11-43 | a subtree of n leaves takes exactly 2n - 1 nodes and states behind what was stored, which stays |
| `SegmentTree.SegmentTreeView.constructor` | src/runtime/SegmentTreeView.cpp:77-103 | building uses exactly the 2n - 1 nodes allocated; the count wraps around for an empty input |
| `SegmentTree.NodeBytesExact` | src/runtime/SegmentTreeView.cpp:92-94 | the 64-bit size asked for is exactly that of the tree's nodes, except that an empty input asks for 2^64 - 40 bytes |
| `SegmentTree.SegmentTreeView.LookupRecursively` | src/runtime/SegmentTreeView.cpp:62-76 | a visit adds the fold over the part of the range the subtree holds, and never goes below a leaf |
| `SegmentTree.SegmentTreeView.Lookup` | src/runtime/SegmentTreeView.cpp:52-61 | the left-to-right fold over the clipped range; the result buffer is untouched without overlap; errors exactly for inverted ranges and empty trees |
| `SegmentTree.CoverBounded` | src/runtime/SegmentTreeView.cpp:62-76 | a lookup reads at most max(1, 2 (h - 1)) states of a tree of height h |
| `SegmentTree.HeightIsLog` | src/runtime/SegmentTreeView.cpp:31-33 | the height is ceil(log2 n) |
| `Bits.NextPow2IsLeast` | src/runtime/LingoDBHashIndex.cpp:18-28 | on 64-bit words nextPow2 is the least power of two not below v for 1 to 2^63, and zero otherwise |
| `Bits.MaskIsRemainder` | src/runtime/LingoDBHashIndex.cpp:39-43 | a mask of k ones is the remainder modulo 2^k |
| `Bits.AndBits` | include/lingodb/runtime/helpers.h:196-211 | the arithmetic conjunction has a bit exactly where both operands have it |
| `Bits.TableSizeIsPow2` | src/runtime/LazyJoinHashtable.cpp:16-17 | the bucket count is a power of two, the least one not below 1.25 times the entries while that fits a word |
| `HashIndex.EntriesConserved` | src/runtime/LingoDBHashIndex.cpp:70-118 | over any sequence of inserts, persist toggles, flushes and loads no entry is lost or duplicated |
| `HashIndex.FileNeverBehind` | src/runtime/LingoDBHashIndex.cpp:70-107 | whenever an index is persistent, reopening its file gives back exactly its entries |
| `HashIndex.UnbuiltExactly` | src/runtime/LingoDBHashIndex.cpp:70-118 | after any operations there is no bucket array if and only if nothing was inserted and no file was loaded |
| `HashIndex.LingoDBHashIndex.RawBuild` | src/runtime/LingoDBHashIndex.cpp:32-47 | every buffered entry is in the chain of its bucket |
| `HashIndex.LingoDBHashIndex.FlushEntries` | src/runtime/LingoDBHashIndex.cpp:70-87 | a persistent index loads and then writes everything; otherwise nothing happens |
| `HashIndex.LingoDBHashIndex.EnsureLoadedNow` | src/runtime/LingoDBHashIndex.cpp:89-107 | the file's entries are appended once and the buckets rebuilt; without a file the bucket array stays as it was |
| `HashIndex.LingoDBHashIndex.BulkInsertRows` | src/runtime/LingoDBHashIndex.cpp:49-67 | an error exactly for an empty table; the old rows stay in front, the new row i has hash i and the id start + i, and all rows are in the buckets and, if persistent, in the file |
| `HashIndex.LingoDBHashIndex.SetPersistTo` | include/lingodb/runtime/LingoDBHashIndex.h:50-55 | switching persistence on writes everything at once; switching it off leaves the file alone |
| `HashIndex.LookupRows` | src/runtime/LingoDBHashIndex.cpp:119-149 | iterating a lookup yields exactly the ids of the rows with the hash, each as often as it is indexed; an error, for the null read, exactly when there is no bucket array |
| `HashIndex.InsertAndLookup` | src/runtime/LingoDBHashIndex.cpp:49-149 | after an insert a lookup of the hash of row i yields the id start + i |
| `Like.NextChar` | src/runtime/StringRuntime.cpp:19-26 | moves to the next character's first byte |
| `Like.IterativeLike` | src/runtime/StringRuntime.cpp:28-96 | terminates, and answers for every escape character the declarative relation for the code's own reading of the pattern, on first bytes; on ASCII strings and harmless ASCII patterns it is LIKE |
| `Like.MatchSuffixes` | src/runtime/StringRuntime.cpp:42-80 | behind a `%`, whether some suffix matches the rest of the pattern |
| `LikeTokens.HarmlessAgrees` | src/runtime/StringRuntime.cpp:61-71 | the code's reading of a harmless pattern means what the standard reading means |
| `LikeExact.ReadingCounts` | src/runtime/StringRuntime.cpp:66-71 | the code's reading never has more special literals than the standard one, and equally many only for harmless patterns |
| `LikeExact.ReadingsAgreeExactlyWhenHarmless` | src/runtime/StringRuntime.cpp:28-96 | the readings agree on every string over a set of characters if and only if the pattern over that set is harmless or matches nothing in either |
| `LikeUtf8.LeadBytesOfText` | src/runtime/StringRuntime.cpp:19-26 | walking the bytes of UTF-8 text visits the first bytes of its characters |
| `LikeUtf8.LikeExactly` | src/runtime/StringRuntime.cpp:28-96 | the code decides LIKE on every text if and only if the pattern is harmless with ASCII literals, or matches nothing in either reading |
| `LikeUtf8.AsciiLikeExactly` | src/runtime/StringRuntime.cpp:28-96 | on ASCII strings the code decides LIKE for an ASCII pattern if and only if it is harmless, or matches nothing in either reading |
| `LikeUtf8.AccentsConfused` | src/runtime/StringRuntime.cpp:84-86 | e with grave accent matches e with acute accent |
| `LikeUtf8.EscapedPercentConfused` | src/runtime/StringRuntime.cpp:66-71 | the pattern percent, escape, percent accepts a string without a percent sign |
| `SparqlTerm.UnescapeLexicalForm` | src/tools/sparql-endpoint.cpp:239-255 | the loop computes the unescaped form of any input |
| `SparqlTerm.UnescapeInvertsEscape` | src/tools/sparql-endpoint.cpp:239-255 | unescaping undoes canonical escaping of every string |
| `SparqlTerm.UnknownEscapesStay` | src/tools/sparql-endpoint.cpp:239-255 | a string without one of the four escapes is its own unescaped form, backslashes included |
| `SparqlTerm.QuoteAfterEscape` | src/tools/sparql-endpoint.cpp:262-267 | the scan stops at the closing quote of every printed literal, whatever follows it |
| `SparqlTerm.ClassifyInvertsPrint` | src/tools/sparql-endpoint.cpp:257-281 | every IRI, blank node, and plain, tagged or typed literal is read back from its canonical printing |
| `SparqlTerm.PrintIsInjective` | src/tools/sparql-endpoint.cpp:257-281 | no two terms have the same canonical printing |
| `SparqlTerm.OtherStringsAreLiterals` | src/tools/sparql-endpoint.cpp:257-281 | a string that begins like no term, or like an IRI or a literal that is not closed, is a literal with itself as value |
| `SparqlTerm.OtherSuffixesAreIgnored` | src/tools/sparql-endpoint.cpp:268-278 | what follows a closing quote is ignored unless it begins a language tag or a datatype |
| `SparqlTerm.ClassifyTerm` | src/tools/sparql-endpoint.cpp:257-281 | the branches and the scanning loop classify any input, and printed terms as the terms they are |

## Left out

- Sorting.ParallelSort: `std::sort`, `std::lower_bound` and `std::priority_queue` enter through what they promise; the comparator given to the priority queue is true on ties, and only that its top is a minimum is used.
- SortSplits.LocalSeparatorInside: is about the exact floor, which `SortSplits.RoundedSeparatorExact` ties to line 131's `double` arithmetic; beyond its bound nothing is said, and sizes are unbounded.
- SchedulerModel: `stop`, thread creation, stacks, guard pages and the sanitizer variant of fibers are not modelled; whether a fiber stack is free is left open.
- BufferScan.UnitsTile: unit numbers are unbounded, the source uses `int`.
- Emitter.EmittedFunctionKeepsMeaning: types, arithmetic templates, labels, calls with several results through a temporary, and the mode that declares variables at the top are not modelled; straight-line operations are opaque.
- PreAggregation.Fragment.Insert: the combining of partials inside a fragment is done by generated code; a partial carries the value it has at merge time.
- PreAggregation.MergePartition: the merged entries are copies of the fragments' entries, so the relinking inside the fragments' memory is not visible in them.
- Hashtable.Hashtable.Insert: the caller's write of key and value through the returned pointer is part of the method.
- Heap.Heap.GetBuffer: requires k >= 1; a heap cannot be used again after its buffer was taken.
- SegmentTree.SegmentTreeView.constructor: requires at most 2^63 entries; whether the allocation for an empty input succeeds is not modelled, the model stores no nodes then.
- HashIndex.LingoDBHashIndex.BulkInsertRows: hashing the columns is not modelled, nor are indexes of more than 2^63 entries; appendRows is the same operation.
- Bits.TableSizeIsPow2: 1.25 times the number of entries is the exact floor; the source multiplies in `double`, which is exact below 2^51 entries.
- HashMultiMap: the same chain invariant with value lists, which would add only easy members.
- MLIR passes, back ends, front ends, catalog serialization, Arrow columns, dates, floats, HTTP and file input and output: thin drivers or library calls.
- `charIndexToByteIndex`, `substr`, `split`, `csvEscape` and `extractRows`: short loops with easy properties.
