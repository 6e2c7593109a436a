# PaStiX analysis and redistribution, modelled in Dafny

PaStiX factorizes sparse matrices. Before any number is computed, its analysis ("blend")
turns a symbol matrix, the block structure of the factors, into a static schedule and a
distribution over processes; then the matrix and the right-hand sides are moved to that
distribution ("bcsc", "bvec"). Both parts are integer algorithms that update arrays in
place, and the source states what they guarantee only in its asserts. This project models
them and proves these guarantees for every input.

`dafny verify dfyconfig.toml` checks the whole project.

## The model

* **Symbol matrix** (`Symbol`): column blocks tile the columns; each owns a diagonal block
  and sorted disjoint blocks of rows below it, each inside the column block it faces. A
  symbol is *closed under fill* when, for any two blocks of a column block, the rows of the
  lower one are inside some block of the column block faced by the upper one: each such
  couple is an *update* or *contribution*.
* **Priority queue** (`PQueue`): the binary heap used by the scheduler and the mapping.
* **Splitting** (`SplitCuts`, `SplitSmart`): wide column blocks are cut where the fewest
  blocks cross. **Merging** (`SplitSpec`, `ExtraCblkMerge`, `SplitTheorems`, `SplitCount`,
  `SplitMeaning`): `ExtraCblkMerge` is the two-pass array code, proved equal to the
  specification `SplitSpec.Merged`; the theorems are about that specification: a
  well-formed symbol, the same lower triangle, fill closure kept, exact block count.
* **Elimination tree and mapping** (`TreeSpec`, `ElimTree`, `CandTree`, `PropMapSpec`,
  `PropMapPlan`, `PropMap`): a tree is the sequence of the fathers of its nodes, node -1
  being the root. Costs are exact reals. `PropMapPlan` tells how the work of a node is shared
  (the *rule*): idle times are what a candidate was given minus its share of the node and what
  the sons mapped so far take of it, and they decide the candidates of the next son. The plan
  kept by the mapping, idle times handed to each node and order of its sons, is ghost.
* **Scheduling simulation** (`Simu`, `Contributions`, `SimuHeaps`, `SimuDates`,
  `SimuReceive`, `SimuTimes`, `SimuSchedule`, `TaskOrder`, `SimuRun`): `SimuRun.SimuCtrl` is
  the discrete-event state machine, with one clock and two heaps per core and contribution
  counters that release tasks. `SimuCtrl.LoopHead` is the invariant of its main loop, over all
  reachable states; ghost start and end dates record the schedule it builds.
* **The analysis end to end** (`Blend`): split, merge, tree, costs, mapping, check,
  initialization and run of the simulation, each calling the next on its real result.
* **Local solver structures** (`SolverRecv`, `SolverLocal`, `SolverGenSpec`, `SolverGenThm`,
  `SolverGen`, `SolverGenMeaning`, `Rowtab`, `Distribute`): each process builds its fan-ins
  and its receptions alone; sender and receiver agree. The counting pass numbers and counts
  what the generation pass then writes in arrays of exactly these sizes, and
  `SolverGenMeaning` tells what they hold from the distributed symbol.
* **In-place permutation** (`Permute`): cycles are followed with sign marks in the
  permutation itself.
* **Compressed matrix** (`BcscFill`, `Bcsc`, `BcscInit`, `BcscWrite`, `BcscMirror`,
  `BcscMeaning`): counting, start tables, fills through moving cursors, restoring the start
  table, and what the stored entries sum to. **Distributed assembly** (`BcscDist`,
  `BcscSpread`, `BcscRecv`): counts from held and received entries, buffers sent, and the
  fill of each process from what it receives and holds, proved to give each column what
  shared memory gives it.
* **Distributed vectors** (`BvecDist`, `BvecBack`, `Ring`): both ways of the
  redistribution, and the ring on which processes meet.

Where the code and its comments or asserts say different things, the model follows the
code and states exactly when the assert holds:

* forward in-place permutation without a workspace gives the permutation array back, and
  satisfies its last assert, only for the identity (`Permute.ZlapmrShm`,
  `Permute.ExchangeIsNotIdentity`);
* the assert that the proportional mapping keeps a candidate fails exactly for two
  overloaded candidates on a subtree whose sons have no work (`PropMapSpec.WindowHolds`,
  `PropMapSpec.NoCandidateLeft`);
* the assert on the columns left by a cut holds for all widths only if the maximal width is
  at least twice the minimal one, while the options only order the two
  (`SplitCuts.EnoughLeftExactly`);
* the transpose of a general matrix is written on the column sizes counted for the matrix
  itself, which fits exactly when each node has as many row entries as column entries
  (`BcscMirror.TransposeFits`, `BcscMirror.TransposeMayNotFit`);
* the simulation stops when no available start date is below its initial sentinel:
  completeness is ensured when the total work is below it (`SimuRun.SimuCtrl.Run`), and
  tasks are left once all clocks reach it (`SimuRun.SimuCtrl.StopsEarly`);
* the second-latest receive date does not take over the former latest one, so a task may be
  dated on one cluster before all its fan-ins are there (`SimuReceive.WaitsForOthers`,
  `SimuReceive.LatestMayNotWait`).

## Model

| member | source | states |
|---|---|---|
| `Symbol.FaceReceives` | symbol/symbol.c:231-285 | On a symbol closed under fill the facing-block search of an update always lands on a block of the faced column block that contains the rows of the update |
| `Symbol.FaceIsReceiver` | symbol/symbol.c:231-285 | and it is the only block of that column block that contains them: any receiver is the one found |
| `Symbol.FaceMonotone` | symbol/symbol.c:231-285 | Updates of one block, taken downwards, are received further and further down, so the search may start where the last one stopped |
| `Symbol.GetFacingBloknum` | symbol/symbol.c:231-285 | The search from any start at or before the receiver returns the receiver: the hint changes nothing but time |
| `PQueue.HeadIsLeast` | kernels/queue.c:44-58 | In a heap whose items are not below their parents, the head is a least item for the couple of keys |
| `PQueue.Push2` | kernels/queue.c:178-222 | Pushing keeps the heap order and adds exactly the pushed item to the multiset of items |
| `PQueue.Pop` | kernels/queue.c:268-316 | Popping returns the head, removes exactly it from the multiset, and keeps the heap order although the last item replaces it and sifts down |
| `Simu.FaninIndexSound` | blend/simu.h:138-139 | CLUST2INDEX and INDEX2CLUST invert each other between the candidate clusters of a block and its fan-in indices |
| `Simu.Clust2IndexInRange` | blend/simu.c:123-144 | The index of a candidate cluster of a block stays in the range reserved for that block; consecutive ranges share no index |
| `Simu.ContributionIndexSound` | blend/simu_run.c:852-862 | When a task runs on one of its candidate cores, the index it forms for every block it faces lies in the range of that block, because candidate intervals nest and cores are grouped by cluster in order |
| `SimuRun.SimuCtrl.BuildFtgtNum` | blend/simu.c:123-144 | The running total gives each block the start of its range, the ranges tile all the fan-in indices |
| `Contributions.Deliver` | blend/simu_run.c:838-878 | Decrementing the counters of the receiver of one update keeps: counter of a block = updates still owed to it by unmapped column blocks, counter of a column block = sum over its blocks; none goes below zero |
| `Contributions.MapTask` | blend/simu_run.c:838-878 | Mapping a task turns what it owed into the updates left to deliver in its own double loop |
| `Contributions.NextUpdateExpected` | blend/simu_run.c:838-878 | The counter about to be decremented is positive, for the block and for its column block |
| `Contributions.ContributorsMapped` | blend/simu_run.c:868-878 | When the counter of a column block is zero, every column block that updates it is mapped |
| `Contributions.FirstUnmappedIsReleased` | blend/simu_run.c:1079-1139 | The first unmapped column block has a zero counter: while some task is left, some task is released |
| `Contributions.AllDelivered` | blend/simu_run.c:838-878 | After the double loop of a task exactly its own updates are gone from the counters |
| `SimuRun.SimuCtrl.ComputeBlockCtrbNbr` | blend/simu_run.c:206-263 | The counting pass establishes the counter invariant: each block counts the couples of blocks whose update it receives |
| `SimuHeaps.HeadStartsFirst` | blend/simu_run.c:435-554 | Of all tasks queued on a core, mapped ones aside, the better of the two pruned heads has the smallest start date, given that ready dates do not pass the clock and future dates do not precede it |
| `SimuHeaps.HeadGoesFirst` | blend/simu_run.c:435-500 | The head of a core goes first: of the unmapped tasks whose date its clock has passed it has the least tree level, then the least first block; when it must wait itself it has the least date, then level |
| `SimuHeaps.MoveToReady` | blend/simu_run.c:907-953 | Moving the head of the future heap to the ready heap once its date is reached keeps the invariant of both heaps |
| `SimuHeaps.CaughtUp` | blend/simu_run.c:907-953 | When no future head is due, the heaps agree with the clock again |
| `SimuHeaps.ClockAdvances` | blend/simu_run.c:774-881 | Advancing one clock leaves the heaps of all other cores right and needs catching up on that core only |
| `SimuHeaps.PushReleased` | blend/simu_run.c:348-404 | Queuing a released task on each of its candidate cores, in the heap its date calls for, keeps the invariant of all heaps |
| `SimuHeaps.MapTaken` | blend/simu_run.c:1120-1139 | A task mapped on one core stays in the heaps of the others as a stale entry and nowhere else |
| `SimuDates.WorkWithinTotal` | blend/simu_run.c:1101-1223 | Costs of mapped tasks and of fan-ins of released ones never exceed the total work, which bounds every date the run can form |
| `SimuRun.SimuCtrl.PutInAllReadyQueues` | blend/simu_run.c:348-404 | A released task enters once, for every candidate core, the future heap if its date is after the clock there and the ready heap otherwise, by level and first block; other cores keep their heaps |
| `SimuRun.SimuCtrl.PruneReady` | blend/simu_run.c:435-470 | Popping mapped tasks off the ready heap loses no task that can still be mapped |
| `SimuRun.SimuCtrl.GetNextTaskNextProc` | blend/simu_run.c:435-554 | The couple returned is available and its start date is minimal over all released unmapped tasks and all their candidate cores, though only heads are read; of the tasks of that core it goes first; of the cores with that date it is the first one, or the one of least clock among the next ones below the clock kept; -1 only if every available couple starts at or after the initial date |
| `SimuReceive.SecondBounds` | blend/simu_run.c:648-663 | The date kept beside the latest one is never above it and covers every fan-in met after the latest |
| `SimuReceive.WaitsForOthers` | blend/simu_run.c:648-678 | The date given to a cluster covers the fan-ins of all the others, except for the cluster of the latest fan-in: there it does so if and only if the fan-in that was the latest before comes no later than the date kept, or than the completion of the latest one |
| `SimuReceive.LatestMayNotWait` | blend/simu_run.c:653-662 | Two fan-ins in increasing order of dates, for which the cluster of the second may start a task before it has received the first |
| `SimuRun.SimuCtrl.ComputeTaskReceiveTime` | blend/simu_run.c:582-679 | The fan-ins of the diagonal block take exactly the dates their clusters wait for, no other date moves, and all stay within the work done |
| `SimuRun.SimuCtrl.PostponeTask` | blend/simu_run.c:852-868 | A contribution raises to the clock the date of the task, or of its fan-in on the cluster of the core, and moves no other date |
| `SimuRun.SimuCtrl.Contribute` | blend/simu_run.c:838-878 | One update decrements the two counters it must, raises the date of the faced task, or of the fan-in its core fills, to the clock after the block, and releases the task, dated from its fan-ins, exactly when its counter reaches zero; no other date moves |
| `SimuRun.SimuCtrl.ComputeTask` | blend/simu_run.c:774-881 | The clock of the core ends later by the cost of all blocks of the task and no other clock moves; each faced task, or its fan-in, is dated by the later of its old date and the clock after the last block that faces it, and a task released there by what its clusters wait for from these dates; the counters of all its updates are delivered |
| `SimuRun.SimuCtrl.WaitForTask` | blend/simu_run.c:1145-1160 | The clock of the chosen core becomes the later of its value and the date of the task for that core, and no other clock moves |
| `SimuRun.SimuCtrl.AdvanceClock` | blend/simu_run.c:805-812 | One block moves the clock of its core by its cost, and no other clock |
| `SimuTimes.Postponed` | blend/simu_run.c:852-868 | However many updates a block makes, the dates they leave are those of the clock after the last block that faces each task: raising twice is raising to the later clock |
| `SimuTimes.NowReleased` | blend/simu_run.c:868-878 | Releasing a task of several clusters replaces the dates of its own fan-ins by what each cluster waits for, and leaves the dates of all other tasks |
| `SimuSchedule.ScheduleGrows` | blend/simu_run.c:1120-1223 | A turn keeps the schedule of the whole run: each task ends its cost after it starts and by the clock of its core, starts after its data, and every block computed counts in the date of the task it faces |
| `SimuRun.SimuCtrl.OneTaskPerCore` | blend/simu_run.c:985-1259 | Over a run, two tasks mapped on one core never overlap: one ends, its whole cost after its start, before the other starts |
| `SimuRun.SimuCtrl.ContributionsComeFirst` | blend/simu_run.c:985-1259 | Over a run, all contributors of a mapped task are mapped, and it starts after the contributions computed on its own cluster: after all of them when it has one candidate cluster |
| `SimuRun.SimuCtrl.ContributionsReceived` | blend/simu_run.c:985-1259 | Over a run, a task of several clusters starts after what is contributed on the others is computed, sent and added; on the cluster of the fan-in received last this holds when the fan-in that was the latest before comes no later than the date kept, or than the completion of the latest one |
| `SimuRun.SimuCtrl.PushToReadyHeap` | blend/simu_run.c:907-953 | Exactly the tasks dated before the clock leave the future heap of the core; the core has the same tasks, in one heap or the other, and the heaps of other cores do not move |
| `SimuRun.SimuCtrl.Turn` | blend/simu_run.c:1120-1223 | One turn maps one task on one of its candidates, the couple of smallest start date of all available ones, the first of its core by level and block, and the core the tie rule gives; the clock of that core becomes that start date plus the cost of the task, the others stay, and the dates are those its contributions set |
| `SimuRun.SimuCtrl.TasksInDependencyOrder` | blend/simu_run.c:1130-1139 | On every core no task precedes one that contributes to it, and the list holds tasks mapped on that core |
| `SimuRun.SimuCtrl.NothingLeft` | blend/simu_run.c:1120-1127 | If no couple starts before the initial date and the total work is below it, every column block is mapped |
| `SimuRun.SimuCtrl.StopsEarly` | blend/simu_run.c:1120-1127 | Once every clock has reached the initial date of the search, no couple is found although a released task still waits |
| `SimuRun.SimuCtrl.Run` | blend/simu_run.c:985-1259 | A whole run takes as many turns as it maps tasks and keeps the schedule of start and end dates; when the work is below the initial date it maps every column block once, on one of its candidates, in exactly cblknbr turns, and stops only then |
| `SimuRun.SimuCtrl.constructor` | blend/simu.c:65-175 | Initialization gives a state of the loop invariant: nothing mapped, empty heaps, clocks at zero, fan-in ranges laid out |
| `TaskOrder.CoreListInOrder` | blend/simu_run.c:1130-1139 | The tasks of one core, taken from an order that respects contributions, respect them too |
| `SplitTheorems.MergedIsSymbol` | blend/extracblk.c:424-520 | The merged symbol is well formed: column blocks tile the columns, blocks are sorted, disjoint, and each lies in its renumbered column block and inside the one it faces |
| `SplitMeaning.MergePreservesStructure` | blend/extracblk.c:424-504 | For every split table whose pieces tile the split column blocks, a position on or below the diagonal is covered by the merged symbol if and only if it was covered before |
| `SplitMeaning.MergePreservesFill` | blend/extracblk.c:424-504 | A symbol closed under fill stays closed under fill: every update of the merged symbol still lands in one block |
| `SplitCount.PredictedIsEmitted` | blend/extracblk.c:282-388 | The number of extra blocks predicted by the counting pass is the number of blocks the filling pass emits |
| `ExtraCblkMerge.NumberAndCount` | blend/extracblk.c:240-388 | The first pass renumbers old column blocks and pieces, copies the column blocks and returns the predicted number of extra blocks |
| `ExtraCblkMerge.EmitAll` | blend/extracblk.c:390-520 | The second pass writes every block of the merged symbol at its place, filling the allocated array exactly |
| `ExtraCblkMerge.ExtraCblkMerge` | blend/extracblk.c:221-525 | The whole merge returns the merged symbol, or the old one when nothing was split, with the predicted number of blocks |
| `SplitCuts.StepBounds` | blend/splitsymbol.c:78-102 | With 1 <= min and 2 min <= max, a column block wider than max is cut in ceil(width/max) >= 2 parts, the decrease of the count never happens, the step is above 1 and between min and max, and more than min columns are left |
| `SplitCuts.EnoughLeftExactly` | blend/splitsymbol.c:440-446 | The assert on the columns left holds for every width if and only if the maximum is at least twice the minimum |
| `SplitCuts.SmallestSplit` | blend/splitsymbol.c:199-241 | The cut returned is step - 1 unless another cut of the window crosses strictly fewer blocks; then it is the first best one upwards, or the first best one downwards when strictly better than all those from step - 1 on; the piece is neither too narrow nor wider than the step plus its allowed shift |
| `SplitCuts.SmallestSplitMax` | blend/splitsymbol.c:274-308 | The same for the upper variant, which returns the last of the best cuts |
| `SplitCuts.ConstantSplit` | blend/splitsymbol.c:337-349 | The constant cut respects the same bounds |
| `SplitSmart.ExtraTable.Add` | blend/extracblk.c:82-198 | Adding a piece, growing the table by 5% when full, keeps every piece already there and the marks of split column blocks |
| `SplitSmart.NbBlocksPerLine` | blend/splitsymbol.c:124-161 | The array built counts, for every row, the blocks that hold both that row and the next |
| `SplitSmart.UpdateLines` | blend/splitsymbol.c:461-471 | After a column block is split, the array counts the blocks of the symbol as cut so far |
| `SplitSmart.CutColumns` | blend/splitsymbol.c:413-452 | The cutting loop terminates; its pieces tile the column block, each is between the minimal width and the maximum plus the allowed shift, and ends at the cut its strategy takes: the first best or the last best one of its window on the blocks of the symbol; with the constant strategy each piece but the last has the width min(ceil(left / parts), left - min) for the columns then left |
| `SplitSmart.SplitSmart` | blend/splitsymbol.c:376-491 | The table is a valid split table: wide column blocks, unless kept whole, are cut into pieces of bounded width, each cut being the one its strategy takes on the blocks as cut so far; the others are left alone |
| `SplitSmart.MergedWidths` | blend/splitsymbol.c:376-571 | Once merged, every column block is at most as wide as the bound, but for supernodes kept whole |
| `TreeSpec.PlacesApart` | blend/elimintree.c:141-161 | Two nodes never get the same place of the array of sons |
| `TreeSpec.PlaceInSlice` | blend/elimintree.c:141-161 | The place of a node lies in the slice of its father, at the rank it has among the sons |
| `ElimTree.EliminTree.SetSonsIndex` | blend/elimintree.c:113-127 | First-son indices are the prefix sums of the son counts, and they end at the number of nodes |
| `ElimTree.EliminTree.SetSons` | blend/elimintree.c:141-161 | The slice of each node is exactly its sons in increasing order, and the first-son indices are restored although they served as cursors |
| `ElimTree.EliminTree.NodeLevel` | blend/elimintree.c:288-305 | Climbing to the root gives the depth of the node |
| `ElimTree.EliminTree.ComputeHeight` | blend/elimintree.c:208-224 | The bottom-up height is the greatest depth of a node |
| `ElimTree.EliminTree.ComputeLevels` | blend/elimintree.c:249-267 | The top-down pass writes in each node of the subtree the depth the climb gives, touches no other node or field, and returns the greatest depth: the height when started at the root |
| `ElimTree.Build` | blend/elimintree.c:477-517 | The stored tree has as father of each column block the one faced by its first off-diagonal block, with sons listed and counted accordingly |
| `ElimTree.FacesAncestor` | blend/elimintree.c:458-464 | On a symbol closed under fill every column block faced by a block of a node is an ancestor of the node, not only the first one |
| `CandTree.SubTreeBuild` | blend/cand.c:270-322 | Costs of every node of a subtree and depths below its root are set, no other node is touched, and the cost of the subtree is returned |
| `CandTree.SubCostCountsUnder` | blend/cand.c:270-322 | The recursive cost of a subtree counts every node under its root exactly once |
| `CandTree.RootCostIsTotal` | blend/cand.c:270-322 | The cost of the root is the cost of all column blocks |
| `CandTree.CandCheck` | blend/cand.c:203-229 | The check returns 1 if and only if the candidates of every column block are among those of each column block it faces |
| `CandTree.SetClusterCand` | blend/cand.c:157-179 | Cluster candidates are the clusters of the first and last candidate cores, for every node, and nothing else moves |
| `PropMapSpec.WindowHolds` | blend/propmap.c:171-195 | The assert on the candidates left fails only for two overloaded candidates on a subtree without work; the candidates left can take all the work of the sons, so idle times are never rescaled |
| `PropMapSpec.NoCandidateLeft` | blend/propmap.c:171-195 | Two candidates without idle time on a node whose sons have no work: the assert that one is left fails |
| `PropMapSpec.SonTaken` | blend/propmap.c:206-230 | Taking one son out of the queue lowers the work to map by exactly the cost of its subtree |
| `PropMapSpec.AllMapped` | blend/propmap.c:222-360 | When no son is left, the intervals below the node nest and are not empty |
| `PropMap.PropMapping.PopSon` | blend/propmap.c:206-233 | The son taken has the largest subtree of those left and, of two equal ones, the larger whole cost of its own node |
| `PropMap.Participants` | blend/propmap.c:264-281 | As few candidates join in as leave no more work than one more is worth, or all that are left; the work left after them is what the last of them could still take |
| `PropMap.ShareOut` | blend/propmap.c:283-306 | Each candidate hands out its idle time and an equal part of the work beyond it, or, when idle time is left over, the last one hands out that much less; it keeps exactly what it does not hand out |
| `PropMap.PropMapping.OpenWindow` | blend/propmap.c:158-198 | Each candidate pays its share of the node: what is left sums to the work of the sons, and the rescaling branch is dead |
| `PropMap.PropMapping.MapOntoSeveral` | blend/propmap.c:256-322 | A son that does not fit goes onto the least number of candidates, from the open one on, that leaves no more work than one more is worth; each candidate gives what it hands out and nothing else, and every node below gets a non-empty interval inside its father's |
| `PropMap.PropMapping.MapOnOpen` | blend/propmap.c:227-250 | A son that fits on the open candidate goes there alone, and that candidate pays for its whole subtree |
| `PropMap.PropMapping.MapLargest` | blend/propmap.c:222-325 | The largest son left is mapped by the rule, from the idle times that the sons before it leave, and the open candidate moves on as the rule tells |
| `PropMap.PropMapping.MapToMostIdle` | blend/propmap.c:339-355 | The largest son left goes to a single candidate of most idle time, which pays for its whole subtree |
| `PropMap.PropMapping.SecondStage` | blend/propmap.c:327-360 | All sons left are mapped, largest first, each on one candidate of most idle time at its turn, and no idle time is left |
| `PropMap.PropMapping.Subtree` | blend/propmap.c:121-364 | Every node under the root with several candidates is shared by the rule from the idle times handed to it, sons in decreasing order of cost; what the candidates of the root keep is what they were given minus their share of the node and what the sons take; nodes outside do not move, intervals nest, and the idle times end at zero in total |
| `PropMap.MapTree` | blend/propmap.c:414-451 | With allcand every node gets all candidates; else each candidate is given an equal share of the whole cost and every node with several candidates is shared among them by the rule; either way intervals nest |
| `PropMapPlan.GivenIsTakenOrKept` | blend/propmap.c:158-355 | What a candidate is given is its equal share of the node, the whole of each son it gets alone, what it hands out for the sons it shares, and what it keeps |
| `PropMapPlan.SeveralOnlyIfTooLarge` | blend/propmap.c:227-250 | A son gets more than one candidate only when its cost exceeds what the open candidate has left, by more than the tolerance with nocrossproc |
| `PropMapPlan.ClosedAfterFit` | blend/propmap.c:227-355 | The son that fits on the open candidate gets that one alone, and each later son a single one of most idle time |
| `PropMapPlan.TraceGrows` | blend/propmap.c:222-355 | One more son mapped by the rule keeps the record of the node: the sons taken, what each took, and the idle times left |
| `PropMapPlan.TraceEnds` | blend/propmap.c:222-360 | Once every son is taken the node and all below it are shared by the rule |
| `Blend.MappedNests` | blend/cand.c:203-229 | On a symbol closed under fill, intervals nested along the tree nest along every block |
| `Blend.MapCandidates` | blend/pastix_subtask_blend.c:253-340 | Tree, costs, mapping and clusters together share the candidates by the given costs and make the candidate check return 1 |
| `Blend.PrepareSimulation` | blend/simu.c:65-175 | The simulation is handed the mapped candidates and the costs of each block and fan-in |
| `Blend.SplitSymbol` | blend/splitsymbol.c:521-571 | Cutting and merging return a well-formed symbol closed under fill |
| `Blend.Analyse` | blend/pastix_subtask_blend.c:230-470 | From any symbol closed under fill and any non-negative costs: the split symbol is well formed, the candidates are shared by the costs of its column blocks, the candidate check returns 1, the simulation runs on the costs of its blocks and fan-ins from a right state and, if the work is below the initial date, maps every column block |
| `SolverRecv.AddContrib` | blend/solver_recv.c:141-169 | Adding a contribution moves the hulls of columns and of each block's rows to the hulls of the contributions with that one; every block finds the one it lands in by moving forward |
| `SolverRecv.RecvUnique` | blend/solver_recv.c:141-281 | The hulls depend on the set of contributions only, not on their order |
| `SolverRecv.UpdateFanin` | blend/solver_recv.c:201-216 | The fan-in is created at the first contribution and then holds the hull of all of them |
| `SolverRecv.UpdateRecv` | blend/solver_recv.c:248-281 | The list keeps exactly one reception for each contributing process, holding the hull of its contributions |
| `SolverRecv.KeptIsTouched` | blend/solver_recv.c:304-325 | A block is counted in a fan-in if and only if some update lands in it |
| `SolverRecv.GetBloknbr` | blend/solver_recv.c:304-325 | The number of blocks counted is at least one for a fan-in with some contribution |
| `SolverRecv.SenderReceiverAgree` | blend/solver_matrix_gen_utils.c:131-208 | A process has a fan-in for a column block if and only if its owner has a reception tagged with that process, and they have the same columns, rows and blocks |
| `SolverLocal.RegisterRecvs` | blend/solver_matrix_gen_utils.c:131-152 | Whatever the order of the list of contributions, the receptions are those of the remote ones, and the entries left are the local ones |
| `SolverLocal.RegisterFanin` | blend/solver_matrix_gen_utils.c:178-208 | Fan-ins of all column blocks hold the hulls of what this process sends them so far |
| `SolverLocal.FaninComplete` | blend/solver_matrix_gen_utils.c:210-225 | A fan-in is complete before its column block is reached |
| `SolverLocal.FillLocalnums` | blend/solver_matrix_gen_utils.c:64-274 | Receptions and fan-ins are complete, column blocks and blocks are numbered in the order they will be stored, and the five counts are the totals over the symbol |
| `SolverLocal.ProcessesAgree` | blend/solver_matrix_gen_utils.c:131-208 | What two processes build apart agrees: for a column block owned by one, the fan-in of the other is the reception tagged with it, with the same number of blocks, or both are missing |
| `Permute.PermuteBackward` | bcsc/bvec_zlapmr.c:701-730 | For any permutation every row ends at its image, rows outside stay, and every entry is left marked |
| `Permute.PermuteForward` | bcsc/bvec_zlapmr.c:731-759 | For any permutation every row takes the value of its image; only the start of each cycle is left marked, so all entries are marked if and only if the permutation is the identity |
| `Permute.ZlapmrShm` | bcsc/bvec_zlapmr.c:667-773 | With a workspace, or backward, the permutation array is given back unchanged; forward without workspace it is given back, and the final assert holds, if and only if it is the identity. A wrong buffer is refused and nothing moves |
| `Permute.UndoEachOther` | bcsc/bvec_zlapmr.c:701-759 | The two directions undo each other in either order |
| `Permute.ExchangeIsNotIdentity` | bcsc/bvec_zlapmr.c:731-770 | Exchanging two rows is a permutation the forward direction without workspace does not give back |
| `Bcsc.InitGlobalColtab` | bcsc/bcsc.c:802-847 | Each node counts the rows of its column and, for a symmetric type, those its row adds off the diagonal |
| `Bcsc.SizeIsWritten` | bcsc/bcsc.c:802-847 | The counted size of a column is the number of values that both fills write in it |
| `BcscInit.InitColtab` | bcsc/bcsc.c:1603-1669 | Start tables are the prefix sums of the sizes over the local columns, across blocks |
| `BcscInit.RestoreColtab` | bcsc/bcsc.c:1687-1705 | Once every column is full, shifting the cursors by one column gives the start table back |
| `BcscFill.PutKeeps` | bcsc/bcsc_zinit.c:1101-1115 | A write at the cursor of one column disturbs what no other column holds |
| `BcscWrite.WriteColRun` | bcsc/bcsc_zinit.c:1101-1115 | One column of a block goes to consecutive places, the cursor moves past them and never passes the next one |
| `BcscWrite.InitA` | bcsc/bcsc_zinit.c:1045-1133 | All values of the local columns are written, in order, at the end of what each column holds; columns of other processes are skipped |
| `BcscMirror.InitAt` | bcsc/bcsc_zinit.c:1171-1285 | Mirrored values follow in the columns of their rows, diagonal blocks skipped unless the matrix is general; what they amount to, conjugated or not, is told by ArraysHoldMatrix |
| `BcscMirror.Zinit` | bcsc/bcsc_zinit.c:1373-1453 | Every local column holds exactly its values, no place is left or written twice, and the start table is back |
| `BcscMirror.PlacesApart` | bcsc/bcsc_zinit.c:1101-1115 | No two values share a place |
| `BcscMirror.ZinitTranspose` | bcsc/bcsc_zinit.c:1373-1453 | The transpose of a general matrix is written on the same start table, which is given back |
| `BcscMirror.TransposeFits` | bcsc/bcsc.c:829-836 | The transpose fits in the places counted for the matrix if and only if each node has as many row entries as column entries |
| `BcscMirror.TransposeMayNotFit` | bcsc/bcsc.c:829-836 | A general matrix of two unknowns with one entry, whose transpose does not fit in the counted places |
| `BcscMeaning.StoredIsPermuted` | bcsc/bcsc_zinit.c:1046-1285 | The sum stored at the new place of (row, column) is the value of the matrix there, summed over its repeated entries; off the diagonal blocks a symmetric type adds the value given across the diagonal, and a Hermitian one adds its real part and subtracts its imaginary part |
| `BcscMeaning.TransposeIsPermuted` | bcsc/bcsc_zinit.c:1171-1285 | The stored transpose of a general matrix is its transpose, permuted |
| `BcscMeaning.StoredMirrors` | bcsc/bcsc_zinit.c:1171-1285 | Off the diagonal blocks the values stored at two places across the diagonal are equal for a symmetric type, and of equal real and opposite imaginary parts for a Hermitian one |
| `BcscMeaning.ArraysHoldMatrix` | bcsc/bcsc_zinit.c:1373-1453 | In the arrays themselves, between the two starts of the new column, the values at the new row sum to that value of the permuted matrix, by cases of the type |
| `BcscDist.CountHeld` | bcsc/bcsc.c:974-1124 | Each process counts at once what it holds of its own columns, and announces to every process two indices for each entry it will send |
| `BcscDist.StoreData` | bcsc/bcsc_zinit.c:90-274 | Every announced buffer is filled exactly, with the entries of its destination in the order they are met |
| `BcscDist.UpdateGlobcol` | bcsc/bcsc.c:1357-1420 | Received entries add a column for A, a row of a symmetric type for At, and both for AAt |
| `BcscDist.EntryCounted` | bcsc/bcsc.c:974-1124 | An entry, wherever it is held, counts once at the owner of its column and, off the diagonal of a symmetric type, once at the owner of its row |
| `BcscDist.DistributedIsShared` | bcsc/bcsc.c:974-1124 | For any partition of the columns, what the owner of a node counts at once and from what it receives is what shared memory counts |
| `BcscDist.GlobalColtab` | bcsc/bcsc.c:1463-1567 | The column counts of each process are those of shared memory for the columns it owns |
| `BcscSpread.EntrySpread` | bcsc/bcsc_zinit.c:90-274 | What a process sends for one of its entries makes, in the columns of the receiver, exactly the values the entry makes in shared memory |
| `BcscSpread.SpreadIsWritten` | bcsc/bcsc_zinit.c:1373-1453 | For any partition of the columns, what the owner of a column writes in it, received or held, is what shared memory writes there, in some order |
| `BcscSpread.SpreadIsTransposed` | bcsc/bcsc_zinit.c:1428-1445 | The same of the transpose of a general matrix, for which pairs sent for both are used once more |
| `BcscRecv.WriteBothRun` | bcsc/bcsc_zinit.c:619-645 | A column of a block for both goes mirrored at the cursors of its rows and in place after a cursor read before them: the two never meet, and the late cursor ends where it should |
| `BcscRecv.HandleRecv` | bcsc/bcsc_zinit.c:313-651 | A received buffer is placed in place, mirrored or both, each value at the cursor of its column |
| `BcscRecv.ExchangeValues` | bcsc/bcsc_zinit.c:676-1005 | The buffers of all other processes are placed in the order of the ring |
| `BcscRecv.ZinitDist` | bcsc/bcsc_zinit.c:1373-1453 | One process counts, lays out, receives, writes what it holds and restores the starts; each of its columns then holds exactly what shared memory writes there, in some order |
| `BcscRecv.ZinitTransposeDist` | bcsc/bcsc_zinit.c:1420-1445 | The distributed transpose of a general matrix fills the same start table, which is given back, with what shared memory writes, in some order |
| `BcscRecv.SpreadIsPermuted` | bcsc/bcsc_zinit.c:1373-1453 | What the owner of a column stores at the new place of (row, column) sums to the value of the whole matrix there, completed across the diagonal as told for each type, with real and imaginary parts |
| `BcscRecv.SpreadArraysHold` | bcsc/bcsc_zinit.c:1373-1453 | so do the arrays of each process, in the columns it owns |
| `BcscRecv.SpreadTransposes` | bcsc/bcsc_zinit.c:1428-1445 | and for the transpose of a general matrix to the value across the diagonal |
| `BvecDist.ComputePloc2Pglob` | bcsc/bvec.c:281-319 | The array lists the owned permuted unknowns in increasing order and is filled exactly |
| `BvecDist.ComputeAmount` | bcsc/bvec.c:409-446 | Amounts to send are the rows held that each process owns |
| `BvecDist.FillForward` | bcsc/bvec_zlapmr.c:120-160 | Rows owned here stand at their permuted place, the others fill the announced buffers exactly |
| `BvecDist.HandleRecvForward` | bcsc/bvec_zmpi_comm.c:276-301 | What another process sent is placed, and nothing already placed is lost |
| `BvecDist.Vec2Bvec` | bcsc/bvec_zlapmr.c:80-166 | Every unknown owned by the process stands at its permuted place with the value its holder had |
| `BvecBack.AmountsSwap` | bcsc/bvec.c:522-550 | What a process sends back to another is as much as what it received from it |
| `BvecBack.SwitchAmount` | bcsc/bvec.c:522-550 | Exchanging the forward amounts gives the backward amounts of every couple of processes |
| `BvecBack.HandleRecvBackward` | bcsc/bvec_zmpi_comm.c:343-368 | What an owner sent back is placed, and nothing already placed is lost |
| `BvecBack.Bvec2Vec` | bcsc/bvec_zlapmr.c:205-300 | Every row held by the process has the value its owner has for it |
| `BvecBack.RoundTrip` | bcsc/bvec_zlapmr.c:80-300 | For any two distributions, there and back restores every row of every process |
| `Ring.Targets` | bcsc/bvec_zmpi_comm.c:525-560 | Walking the ring, a process sends to each other process at exactly one step, the one at which that process receives from it, and never meets itself |
| `SolverGenThm.SizesCounted` | blend/solver_matrix_gen.c:143-385 | What the generation lays out before each column block has the sizes that the counting pass predicts there |
| `SolverGenThm.CblkAt` | blend/solver_matrix_gen.c:155-329 | The counted local number of a stored column block is the place where it is generated |
| `SolverGenThm.RecvCblkAt` | blend/solver_matrix_gen.c:175-225 | The receptions of a column block stand just before it, in the order of the list |
| `SolverGenThm.BlokAt` | blend/solver_matrix_gen_utils.c:873-928 | The counted local number of an owned block is the place where it is generated |
| `SolverGenThm.FaninBlokAt` | blend/solver_matrix_gen_utils.c:969-1056 | A block has a number in a fan-in if and only if its hull is kept, and stands there: the test of the generation, a hull of one row or more, agrees with the longer test of the count |
| `SolverGenThm.BrowApart` | blend/solver_matrix_gen.c:334-361 | No block is listed twice as a contribution, in one column block or in two |
| `SolverGenThm.EveryBlokListed` | blend/solver_matrix_gen_utils.c:314-457 | Every owned off-diagonal block is listed by the column block it faces, which is stored |
| `SolverGenThm.EntryFrom` | blend/solver_matrix_gen_utils.c:314-457 | Conversely what a column block lists is an owned off-diagonal block that faces it, or after these the diagonal block of one of its receptions |
| `SolverGenThm.FacedNumbered` | blend/solver_matrix_gen_utils.h:76-78 | The asserts of a block hold: an owned block faces a stored column block, numbered at or after its own |
| `SolverGenThm.AllMine` | blend/solver_matrix_gen.c:248-249 | When one process computes everything the index of a column block in the right-hand side is its first column |
| `SolverGenThm.CountedIsLocal` | blend/solver_matrix_gen.c:113-125 | Receptions and fan-ins of the count have the shape the generation asserts: never tagged with the process itself, one fan-in at most, the diagonal block kept |
| `SolverGen.SolverMatrix.RegisterRemote` | blend/solver_matrix_gen_utils.c:969-1056 | The blocks with a non-empty hull are written next to each other, in order, the first one facing the column block itself, and nothing written before moves |
| `SolverGen.SolverMatrix.RegisterLocal` | blend/solver_matrix_gen_utils.c:873-928 | The blocks of an owned column block are written with the local numbers of their own and faced column blocks |
| `SolverGen.SolverMatrix.FirstPass` | blend/solver_matrix_gen_utils.c:359-415 | 1D contributions are listed in order, 2D ones left for the second pass, the remote ones dropped; the number kept is the one that was counted |
| `SolverGen.SolverMatrix.SecondPass` | blend/solver_matrix_gen_utils.c:421-452 | 2D contributions follow in order, although the pass starts at the first one and skips marks |
| `SolverGen.SolverMatrix.ReorderBrowtab` | blend/solver_matrix_gen_utils.c:314-457 | The list of a column block is its owned 1D contributions then its 2D ones in stable order, brown2d tells them apart, and every listed block points back to its place |
| `SolverGen.SolverMatrix.AddDiags` | blend/solver_matrix_gen.c:346-357 | The diagonal blocks of the receptions end the list and point back to it |
| `SolverGen.SolverMatrix.GenerateCblk` | blend/solver_matrix_gen.c:155-364 | Generating one column block keeps: cursors are the counts so far, contents are the runs so far, the list of contributions and the places of blocks are inverse |
| `SolverGen.SolverMatrixGen` | blend/solver_matrix_gen.c:87-385 | The five cursors end at the five counts, the arrays are filled exactly, and the list of contributions and the places of blocks are inverse; what the column blocks and blocks stored are is told by the lemmas of SolverGenMeaning |
| `SolverGen.CblkFound` | blend/solver_matrix_gen.c:328-329 | gcbl2loc leads to the column block generated for each global one that is stored |
| `SolverGen.BlokFound` | blend/solver_matrix_gen_utils.c:903-918 | An owned block is found at its local number, between the column blocks that gcbl2loc gives for its own and the one it faces |
| `SolverGen.ContribFound` | blend/solver_matrix_gen_utils.c:403-450 | The place stored in an owned off-diagonal block leads back to it in the list of the column block it faces, before brown2d if and only if its own column block has 1D tasks |
| `SolverGen.SentIsReceived` | blend/solver_matrix_gen.c:168-290 | In the generated matrices of two processes, the fan-in of one and the reception of the other tagged with it have the same columns and the same blocks one after the other; both are the hulls that FaninColumns and RecvColumns tell |
| `SolverGen.SentIfExpected` | blend/solver_matrix_gen.c:155-163 | A process stores a fan-in for a column block if and only if its owner stores a reception tagged with that process |
| `SolverGenMeaning.FaninColumns` | blend/solver_matrix_gen_utils.c:990-1041 | A stored fan-in has as first and last columns the least first row and the greatest last row of the blocks of this process that face the column block, and names its owner, global number and tasks |
| `SolverGenMeaning.FaninExists` | blend/solver_matrix_gen.c:155-163 | A fan-in is stored if and only if some block of this process faces the column block |
| `SolverGenMeaning.FaninRows` | blend/solver_matrix_gen_utils.c:1008-1033 | Each block of a stored fan-in has as rows the least first and greatest last row of what lands in one block of the symbol, whose number it keeps, and faces nothing |
| `SolverGenMeaning.FaninHolds` | blend/solver_matrix_gen_utils.c:1008-1033 | Every block of the symbol where something of this process lands is stored in the fan-in |
| `SolverGenMeaning.FaninOrder` | blend/solver_matrix_gen_utils.c:1008-1033 | The blocks of a fan-in come in the order of the symbol |
| `SolverGenMeaning.RecvColumns` | blend/solver_matrix_gen.c:175-225 | A stored reception has the hull of the columns of the blocks of its process; its lcolidx stands from that of the owned column block as its first column does; global number and tasks are those of the symbol |
| `SolverGenMeaning.RecvExists` | blend/solver_matrix_gen.c:168-225 | Each other process with a block that faces an owned column block has exactly one reception |
| `SolverGenMeaning.RecvRows` | blend/solver_matrix_gen_utils.c:1008-1040 | Each block of a stored reception has as rows the hull of what its process lands in one block of the symbol; the first faces the owned column block, the others nothing |
| `SolverGenMeaning.RecvHolds` | blend/solver_matrix_gen_utils.c:1008-1033 | Every block of the symbol where something of that process lands is stored in the reception |
| `SolverGenMeaning.RecvOrder` | blend/solver_matrix_gen_utils.c:1008-1033 | The blocks of a reception come in the order of the symbol |
| `SolverGenMeaning.MineColumns` | blend/solver_matrix_gen_utils.c:873-928 | An owned column block has the columns, global number and tasks of the symbol |
| `SolverGenMeaning.FirstMine` | blend/solver_matrix_gen.c:236-249 | The first owned column block has number 0 and column index 0 |
| `SolverGenMeaning.NextMine` | blend/solver_matrix_gen.c:236-249 | The next owned column block has the next number, and its column index comes right after the columns of the one before |
| `SolverGenMeaning.BcscApart` | blend/solver_matrix_gen.c:216-273 | Numbers of fan-ins and receptions are negative and all different, and those of owned column blocks are not negative |
| `Rowtab.StartEnds` | symbol/symbol.c:335-344 | The row starts end at the number of blocks minus the number of column blocks, as asserted: every block but the diagonal ones has one place |
| `Rowtab.PlacesApart` | symbol/symbol.c:349-366 | Two off-diagonal blocks never get the same place of the table |
| `Rowtab.SliceIsFacing` | symbol/symbol.c:349-366 | Once filled, the slice of each column block lists exactly the off-diagonal blocks that face it, in increasing order |
| `Rowtab.FillRows` | symbol/symbol.c:349-366 | The fill through cursors puts every off-diagonal block at its place and overwrites none |
| `Rowtab.BuildRowtab` | symbol/symbol.c:302-373 | Starts, table and largest row of the compressed table of facing blocks |
| `Distribute.BuildSolver` | blend/solver_matrix_gen.c:87-385 | From a finished simulation, the local matrix of any process is generated for the owners the simulation chose |

## Left out

Not in the model:

- ILU(k) mode (`ricar`), low-rank flags, Schur handling, two-step mapping
  (`PASTIX_BLEND_PROPMAP_2STEPS`), variable degrees of freedom.
- Floating point: costs, dates and idle times are exact reals, matrix values are complex
  numbers over exact reals; `PASTIX_INT_MAX` is the parameter `intmax`.
- Cost models: costs of blocks, column blocks and fan-ins are non-negative parameters,
  those of fan-ins one for each slot.
- `candSubTreeDistrib*`, critical paths, cost levels and the cluster of a candidate: they
  annotate the tree and no modelled decision reads them.
- Contents and priorities of fan-ins in the simulation (`simu_updateFtgt`, `ftgtsend`,
  `prionum`).
- Memory management: heaps and lists that the source reallocates or chains are sequences
  (the order of the list is kept, the cells are not); several arrays of one object are
  fields of type `seq`.
- Integer width: counters are unbounded.
- `bcsc_zsort`, which sorts each column after both fills.
- The replicated right-hand side, and the vectors of `bvec.c` that only size buffers
  (`bvec_compute_max`).
- Transport: messages are values handed from one process to the other; of the exchanges
  only the ring order is kept.
- SpMV, solver I/O, thread assignment of tasks, statistics, dot and trace output.
- Strides, coefficient indices, layouts, low-rank and supernode fields of the solver
  matrix; its 1D/2D statistics and buffer sizes; degrees of freedom above one.

Weaker than the source, or different in form:

- SimuRun.SimuCtrl.ComputeTaskReceiveTime: the send and add costs summed for a fan-in are one parameter of the fan-in of the diagonal block.
- SimuRun.SimuCtrl.GetNextTaskNextProc: of the cores with the least date, the clock below which a later one replaces the first is told as that of some core before the first, or the initial one; nothing is told when that date is the initial date of the search.
- CandTree.SubTreeBuild: critical paths and cost levels are not computed.
- SolverLocal.FillLocalnums: the local numbers of tasks are not computed.
- SolverGen.SolverMatrix.RegisterLocal: strides and coefficient indices are not computed, and there is one degree of freedom.
- SplitSmart.SplitSmart: the choice made for supernodes kept whole is a flag of each column block, where the source reads the mapping of the ordering.
- BcscDist.GlobalColtab: the columns a process holds are given as indices into one global matrix.
- BcscRecv.ZinitDist: a message carries the number of its entry in the global matrix, from which its values are read, where the source copies them; received values are placed before the columns are sorted.
- BvecDist.Vec2Bvec: the values of one unknown, over its degrees of freedom and all right-hand sides, are one item.
- BcscMeaning.StoredIsPermuted: entries of a column are not sorted yet, so positions are stated through the sum stored at each row.
