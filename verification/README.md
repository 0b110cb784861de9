# Verified models of the scriptc runtime

scriptc compiles TypeScript to native code on a C runtime. This project models, in Dafny 4.11, the parts of that runtime
whose correctness depends on a global invariant rather than on any one function, and one loop of the compiler, and proves
what they are for. `dafny verify dfyconfig.toml` checks everything.

- **The cycle collector** (`HeapGraph`, `CycleState`, `HeapState`, `CollectPhases`, `CycleCollector`). Objects are ids with
  a count, a colour, a buffered flag, traced slots and untraced owned references. The invariant says that every count is
  exactly the number of references, that the candidate buffer is consistent, and that everything live is reachable from a
  candidate or from an object with a reference that is no traced edge. Every mutator keeps it, at every release, including
  those during which a collection runs; and a collection frees exactly the objects that nothing outside reaches.
- **Reference arrays** on that heap (`HeapArrays`): push, pop, shift, set, get, slice, splice, `toSpliced`, `with`.
- **The line diff** (`EditScripts`, `MyersDiff`): Myers' greedy algorithm over a match relation that is not transitive,
  with its walks outside the grid; the script found is a shortest one, and it rebuilds both texts.
- **The deep-equality memo** (`DeepEquality`, `DeepEqualMemo`, `DeepEqualMeaning`, `DeepEqualCycles`): two remembered pairs
  and a stack refine "the open pairs and one mode bit", and comparisons of cyclic values terminate. A comparison is
  structural equality when one operand reaches no cycle. When both do it is not: instances of both kinds of error are
  given. What does hold then: copies are equal, and a difference is missed only behind a repeated value. There is no guard
  to state as an exact condition, because whether the answer is right depends on the two operands together and on which
  nodes are shared: no condition on each operand, and none on what their unfoldings look like, describes it.
- **Promises and fibers** (`PromiseState`, `PromiseFibers`, `PromiseBuilding`, `PromiseHistory`, `Promises`): settlement
  through networks of race and all callbacks; fibers, the promises they own and await, parked and woken through the ready
  array, in the order they awaited; and what a whole run's attempts to settle say about its settlements.
- **The loop** (`ReadyQueue`, `TimerOrder`, `TimerHeap`, `Immediates`, `LoopLog`, `EventLoop`): the compacting ready array,
  the timer min-heap in place, the immediate queue, and the loop as a machine whose callbacks are arbitrary sequences of
  calls on those queues. The heap refines a plain bag of timers, of which the first by deadline and arming number fires,
  the array of immediates with its cursor and cleared slots refines two plain lists, ticks and fibers two lines, and every run
  leaves a log that obeys their law. The clock is arbitrary, but does not run backwards, and after a sleep it has reached
  the deadline slept to: the source sets `now` to that deadline without looking, so an interrupted `nanosleep`
  (`packages/runtime/src/scr_async.c:2036-2043`) is left out.
- **Byte codecs** (`Utf8Form`, `Utf8Decode`, `Base64`, `StringDecoder`): UTF-8 repair, base64, and the chunked decoder.
- **Windows command lines** (`ArgumentRules`, `CommandLine`): quoting, and the CommandLineToArgvW rules that undo it. The
  comment at `packages/runtime/src/scr_child.c:137-141` says that every case round-trips; an argument with a NUL does not,
  because lengths are taken with `wcslen`. The model follows the code.
- **AsyncLocalStorage** (`ContextState`, `AsyncContext`, `ContextPrograms`): counted snapshots over main and fiber slots, and
  nested programs of calls on them.
- **The static-package fallback** (`Fallback`): the loop of `runFrontend`, against any checker, every load it makes and
  why. That a package which stayed static is blamed by nothing holds of checkers that answer alike for the same packages,
  or when no probe was made; a checker that changes its mind, for which it fails, is given.

Objects and arrays that the source updates in place are classes and arrays; each method is proved against a function or
predicate on plain states, and the lemmas about those carry the results. Addresses, handles and callbacks are numbers;
bit operations on bytes are written as the equivalent arithmetic; clocks and deadlines are reals, delays whole numbers.
An immortal object (`rc == SIZE_MAX`) is a kind of slot that is never counted. The allocator is a parameter: it answers an
id not in use.

## Model

| member | source | states |
|---|---|---|
| HeapGraph.ReachableIffPath | packages/runtime/src/scr_cycle.c:6-17 | being in every closed set around the sources is the same as ending a path of slots from one of them, so every collector theorem below is about paths |
| CycleCollector.Collector.MgVisit | packages/runtime/src/scr_cycle.c:110-116 | one edge of the marking phase: the target is marked, with all that is below it, and its count gives up this edge |
| CycleCollector.Collector.MarkGray | packages/runtime/src/scr_cycle.c:117-122 | marking turns exactly the objects reachable from the argument gray, and every count in that region has lost exactly the edges from the part marked, whatever the order of the recursion |
| CycleCollector.Collector.SbVisit | packages/runtime/src/scr_cycle.c:124-130 | one edge of the restoring walk: the count gets the edge back and the target is black, with all below it |
| CycleCollector.Collector.ScanBlack | packages/runtime/src/scr_cycle.c:131-134 | restoring blackens exactly what its argument reaches and gives back exactly those trial decrements |
| CycleCollector.Collector.Scan | packages/runtime/src/scr_cycle.c:136-156 | after scanning, nothing below is gray, and counts equal external references plus edges from the black part: the invariant that decides black against white |
| CycleCollector.Collector.CollectWhite | packages/runtime/src/scr_cycle.c:158-175 | gathers every white object once and leaves none behind |
| CycleCollector.Collector.MarkRoots | packages/runtime/src/scr_cycle.c:177-196 | the buffer is compacted in place to the entries still purple, `buf_index` stays its inverse, and the region marked is the union over those entries |
| CycleCollector.Collector.GatherGarbage | packages/runtime/src/scr_cycle.c:177-210 | the three phases together list exactly the objects that no reference from elsewhere reaches, and restore every survivor |
| CycleCollector.Collector.FreeWhite | packages/runtime/src/scr_cycle.c:201-215 | each gathered object releases what it owns outside traced edges, and only those; nested releases keep the heap exact |
| CycleCollector.Collector.CollectCycles | packages/runtime/src/scr_cycle.c:177-217 | one collection frees every object no anchor reaches, and nothing else when those own nothing untraced; each survivor's count is exactly its references from survivors and holders; a collection inside a collection does nothing |
| CycleCollector.Collector.OnDead | packages/runtime/src/scr_cycle.c:72-81 | a dying object leaves the candidate buffer by swap-with-last, and `roots[buf_index[o]] == o` holds for exactly the buffered objects |
| CycleCollector.Collector.OnRelease | packages/runtime/src/scr_cycle.c:83-105 | a surviving object becomes a purple candidate, buffered once; when that fills the buffer to the threshold, and only then, a collection runs, never inside another |
| CycleCollector.Collector.Release | packages/runtime/src/scr_closure.c:121-136 | a release: at zero the object is torn down, otherwise it becomes a candidate; either way every count equals the references left and nothing reachable is freed |
| CycleCollector.Collector.TearDown | packages/runtime/src/scr_closure.c:217-241 | a teardown gives up each traced and each untraced reference once, and the invariant holds again at every nested release |
| CycleCollector.Collector.ReleaseSlots | packages/runtime/src/scr_array.c:156-178 | releasing an object's slots one by one: whatever each release frees or collects, the rest are still valid references |
| CycleCollector.Collector.SetSlot | packages/runtime/src/scr_closure.c:176-185 | the slot holds the new value before the old one is released, so the collection that release may start finds every count exact; the caller's reference moves in |
| CycleCollector.Collector.Attach | packages/runtime/src/scr_closure.c:196-229 | an untraced property table or original counts as a reference from outside |
| CycleCollector.Collector.Retain | packages/runtime/src/scr_runtime.h:205-262 | a retained candidate turns black again and the invariant is kept |
| CycleCollector.Collector.Alloc | packages/runtime/src/scr_cycle.c:45-52 | a new object is held by its caller with a count of one |
| HeapState.DieOk | packages/runtime/src/scr_cycle.c:24-29 | an object whose last reference was given up is nobody's slot or candidate any more, and its own references are in the releasing hands |
| HeapState.DropOk | packages/runtime/src/scr_cycle.c:24-29 | giving up one of several references keeps every count exact, provided the object becomes a candidate |
| HeapState.RelinkedOk | packages/runtime/src/scr_cycle.c:24-29 | any exchange of held references against slots of a held object keeps the invariant: the reason overwriting before releasing is safe |
| HeapState.AttachedOk | packages/runtime/src/scr_closure.c:196-229 | an untraced edge keeps the invariant |
| HeapState.PartitionGarbage | packages/runtime/src/scr_cycle.c:6-17 | the white part of a scanned region is exactly the garbage of the whole heap |
| HeapState.GatheredOk | packages/runtime/src/scr_cycle.c:14-17 | handing the garbage to its teardown keeps the invariant for the survivors |
| HeapState.NoCandidatesNoGarbage | packages/runtime/src/scr_cycle.c:177-186 | with an empty buffer there is no garbage: nothing is ever missed |
| HeapState.ReachableSurvives | packages/runtime/src/scr_cycle.c:19-29 | whatever a release or a collection frees, and whatever the garbage owned, no object that a path of references of either kind leads to from a held object is freed |
| HeapState.LiveIffReachable | packages/runtime/src/scr_cycle.c:6-29 | after a collection of a heap without untraced edges an object lives if and only if a path of slots leads to it from a held object |
| HeapState.GarbageByRegion | packages/runtime/src/scr_cycle.c:110-217 | the freed set stated region by region: reachable from a purple candidate, and not from any object of that region with a reference from elsewhere |
| HeapState.AnchorsAreHeld | packages/runtime/src/scr_cycle.c:20-23 | without untraced edges, "external reference" means held by a stack, local or runtime buffer |
| HeapArrays.Push | packages/runtime/src/scr_array.c:261-277 | the caller's reference becomes the last element; every count stays exact |
| HeapArrays.Pop | packages/runtime/src/scr_array.c:279-292 | the last element moves to the caller; trap on empty |
| HeapArrays.Shift | packages/runtime/src/scr_array.c:297-313 | the first element moves to the caller and the rest move down by one |
| HeapArrays.Set | packages/runtime/src/scr_array.c:232-259 | an in-range index overwrites, the length appends, anything else traps; counts stay exact through the release of the old value |
| HeapArrays.Get | packages/runtime/src/scr_array.c:221-230 | an in-range element is retained for the caller |
| HeapArrays.Slice | packages/runtime/src/scr_array.c:416-443 | a fresh array holds the resolved run, each element counted once more |
| HeapArrays.Splice | packages/runtime/src/scr_array.c:321-347 | a fresh array takes over the resolved run without changing a count, and the remainder closes up |
| HeapArrays.SpliceRebuilds | packages/runtime/src/scr_array.c:321-347 | what splice removes, put back between the two parts it leaves, is the old contents |
| HeapArrays.ToSpliced | packages/runtime/src/scr_copying.c:53-77 | the copy holds what splice would leave with the items inserted at the same resolved index; the source is untouched and every shared element is counted once more |
| HeapArrays.With | packages/runtime/src/scr_copying.c:112-120 | the copy differs at one resolved index; the given value is borrowed and retained, as is every shared element; it answers a range error exactly when the array is empty or the index, its fraction dropped, counts to no element from either end |
| HeapArrays.WithIndex | packages/runtime/src/scr_copying.c:78-93 | the resolved index, negative exactly when out of range: infinities, any index of an empty array, and what lies at or past the length or below minus the length; NaN and fractions around 0 are 0 |
| ArrayIndex.From | packages/runtime/src/scr_array.c:321-332 | a start counts from the end when negative and is clamped to the array; NaN is 0, infinities are the two ends |
| ArrayIndex.Count | packages/runtime/src/scr_array.c:321-332 | a delete count is clamped to what is available; NaN and what is not positive delete nothing |
| EditScripts.ReachBounds | packages/runtime/src/scr_assert.c:905-941 | a walk with d insertions and deletions ends on a diagonal of d's parity, at most d away |
| EditScripts.Clip | packages/runtime/src/scr_assert.c:905-941 | a walk that leaves the grid can be cut back into it without costing more |
| EditScripts.ScriptWalks | packages/runtime/src/scr_assert.c:905-941 | every edit script of the two texts is a walk of the same cost |
| EditScripts.SlideFurthest | packages/runtime/src/scr_assert.c:905-941 | sliding over matching lines from the best entry of a diagonal gives the furthest point of any walk with that many edits, though matching is not transitive |
| EditScripts.ReconstructsActual | packages/runtime/src/scr_assert.c:948-988 | without deletions a script is the actual text: exactly without the comma rule, else up to one trailing comma a line |
| EditScripts.ReconstructsExpected | packages/runtime/src/scr_assert.c:948-988 | without insertions a script is the expected text, in the same sense |
| EditScripts.EqUpToComma | packages/runtime/src/scr_assert.c:879-891 | two lines match exactly when they are equal or, under the comma rule, one is the other with a comma at its end |
| MyersDiff.Slide | packages/runtime/src/scr_assert.c:905-935 | the inner loop ends at the furthest point of its diagonal |
| MyersDiff.ForwardLevel | packages/runtime/src/scr_assert.c:905-935 | one level leaves in `v`, in place, the furthest point of every diagonal of that level, or stops at the first diagonal that reaches the end |
| MyersDiff.Forward | packages/runtime/src/scr_assert.c:905-941 | the forward pass ends at the least number of edits; the end test first holds exactly at the end of both texts, and the saved levels are those the backtrack needs |
| MyersDiff.Backtrack | packages/runtime/src/scr_assert.c:948-988 | the backtrack stays in both texts, ends at the origin, and fits the array made for it; an inserted step carries the actual line, a deleted one the expected line, and a common one either of the two, which under the comma rule ends in a comma exactly when one of them does |
| MyersDiff.Myers | packages/runtime/src/scr_assert.c:905-988 | the returned script turns one text into the other with the fewest insertions and deletions of all scripts, carries the lines the backtrack does, and of equally short scripts is the one that inserts only where no walk as short gets by deleting last |
| MyersDiff.NoCheaper | packages/runtime/src/scr_assert.c:905-941 | no script costs less than the level at which the forward pass stops |
| DeepEquality.NestingBound | packages/runtime/src/scr_assert.c:207-292 | pairs answered "walk" and still open involve, from the third on, values not open before: over V values nesting is at most V/2 + 1 |
| DeepEqualMeaning.CompareIsEquality | packages/runtime/src/scr_assert.c:207-292 | where one operand reaches no cycle, whatever else the heap holds, the memoised comparison answers equal exactly when no path tells the operands apart: structural equality |
| DeepEqualMeaning.CompareSwapped | packages/runtime/src/scr_assert.c:207-292 | the answer does not depend on which operand comes first |
| DeepEqualCycles.CopiesAreEqual | packages/runtime/src/scr_assert.c:150-200 | what the memo is for: a value and a copy of it are equal, with any cycles and any shared parts, at any depth of a comparison |
| DeepEqualCycles.EqualUntilRepeated | packages/runtime/src/scr_assert.c:234-269 | whatever is answered equal shows alike along every path on which no value occurred before: a difference is missed only behind a repeated one |
| DeepEqualCycles.CyclicValuesMayDiffer | packages/runtime/src/scr_assert.c:207-292 | where both operands reach cycles the answer may be wrong: a concrete pair of different values is answered equal |
| DeepEqualCycles.AlikeValuesMayBeUnequal | packages/runtime/src/scr_assert.c:150-200 | and the other way: a loop of one node and a loop of two show alike and are answered unequal |
| DeepEqualCycles.SecondLevelWalks | packages/runtime/src/scr_assert.c:244-255 | below the outermost comparison a pair of values, neither met before in its own column, is compared by its contents, even if one was met in the other column |
| DeepEqualCycles.RingIsEqual | packages/runtime/src/scr_assert.c:150-200 | so neighbours in a ring of three alike nodes are equal, as they show: the set of all values must not be consulted at the second level |
| DeepEqualCycles.NoGuardByOperand | packages/runtime/src/scr_assert.c:207-292 | no condition on the operands one by one, joined by "and" or "or", says when the answer is right |
| DeepEqualCycles.NoGuardByLooks | packages/runtime/src/scr_assert.c:207-292 | nor does any condition that looks at nothing but the unfolded operands: the right answers have no guard to check beforehand |
| DeepEqualMemo.Memo.IsPresent | packages/runtime/src/scr_assert.c:216-221 | a value is found exactly when it is in either column of the stack |
| DeepEqualMemo.Memo.Enter | packages/runtime/src/scr_assert.c:234-269 | the two-phase fields refine a stack of open pairs and one mode bit; told by the values open: nothing open always walks; with one pair open and no promotion only a value met again in its own column is answered; from the third level on the set of all open values decides, and stays in force after a promotion until the outermost pair closes |
| DeepEqualMemo.Memo.Leave | packages/runtime/src/scr_assert.c:271-292 | closing pops the innermost pair, and closing the outermost restores the initial state |
| DeepEqualMemo.Memo.DeepEqual | packages/compiler/src/frontend/lowering/lower-assert.ts:1530-1592 | the emitted walk terminates on any finite graph, leaves the memo as it found it, answers as the rule does, and at top level decides structural equality when one operand has no cycle |
| PromiseState.SettledOk | packages/runtime/src/scr_async.c:876-948 | recording a settlement keeps the network consistent |
| PromiseState.FilledOk | packages/runtime/src/scr_async.c:910-923 | a fulfilled input of an `all` fills its slot; exactly when it was the last one missing may the result be fulfilled |
| PromiseState.FailedOk | packages/runtime/src/scr_async.c:910-926 | a rejected input allows exactly the rejection of a result still pending |
| Promises.Scheduler.Settle | packages/runtime/src/scr_async.c:876-948 | a settlement terminates through any network of race and all callbacks, changes no settled promise, wakes the waiters in park order behind those already ready, leaves every race it was entered in settled, and its callbacks' attempts go on record in the order the callbacks were parked |
| Promises.Scheduler.SettleWake | packages/runtime/src/scr_async.c:934-948 | waiters first, then the callbacks in order, then both lists are empty |
| Promises.Scheduler.RunCallback | packages/runtime/src/scr_async.c:936-946 | one callback: an `all` entry reports, a pending race destination takes the adapted fulfilment or the raw rejection |
| Promises.Scheduler.AllSettle | packages/runtime/src/scr_async.c:910-927 | a fulfilment is stored at its input index and counted; the last one fulfils the result; a rejection reaches a result still pending, so the first one processed is its reason for good |
| Promises.Scheduler.SettleFrom | packages/runtime/src/scr_async.c:876-895 | a settlement is copied only to a pending destination |
| Promises.Scheduler.Fulfill | packages/runtime/src/scr_async.c:1308-1354 | first settlement wins: a settled promise, and everything else, stays as it is; a pending one puts the fibers that awaited it on the ready queue, in the order of their awaits and behind those already ready, runs its callbacks in the order they were parked, and settles every race it was entered in; every `all` under way stays complete |
| Promises.Scheduler.Reject | packages/runtime/src/scr_async.c:1367-1385 | the same for a rejection |
| Promises.Scheduler.RaceAdd | packages/runtime/src/scr_async.c:960-978 | a settled entry settles the race at once unless an earlier one did; a pending one parks one callback behind those already there |
| Promises.Scheduler.All | packages/runtime/src/scr_async.c:991-1038 | settled inputs report at once, pending ones are subscribed, none is left out, and no inputs at all fulfil |
| PromiseBuilding.AllOutcome | packages/runtime/src/scr_async.c:900-1038 | in every state between two calls an `all` is fulfilled exactly when every input is, with input i's value at index i whatever the order, and rejected exactly when some input is, with the reason of one (section 27.2.4.1 of ECMA-262) |
| PromiseBuilding.RemainingCounts | packages/runtime/src/scr_async.c:910-923 | in every such state the countdown is the number of inputs not fulfilled |
| PromiseHistory.FirstAttemptWins | packages/runtime/src/scr_async.c:876-978 | over a whole run, of all attempts to settle a promise by resolvers, inputs and race entries, the first decides: a promise is settled exactly when there was one, and as it said |
| PromiseHistory.FirstRejectionIsReason | packages/runtime/src/scr_async.c:910-926 | a rejected `all` carries the reason of the first of its inputs to be processed as a rejection; before that one nothing tried to settle it |
| PromiseHistory.FirstEntryWins | packages/runtime/src/scr_async.c:936-978 | a race is settled as its first entry to be processed was, converted if that one fulfilled |
| PromiseFibers.OnePlace | packages/runtime/src/scr_async.c:352-367 | an unfinished fiber is in exactly one place, once: the running chain, the ready queue, or one promise's waiters; a finished one is nowhere |
| PromiseFibers.MovedOk | packages/runtime/src/scr_async.c:1199-1262 | moving fibers between those places keeps every promise and `all` as it was |
| PromiseFibers.AwaitsAdvance | packages/runtime/src/scr_async.c:1254-1257 | through any settlement, the waiters of a pending promise are exactly the fibers awaiting it, and each unfinished fiber owns a promise that is pending: nobody else may settle it |
| PromiseFibers.EarlierAwaitFirst | packages/runtime/src/scr_async.c:1199-1213 | the line of those waiting for a promise, which every call keeps equal to its waiters over whole runs, has the earlier of two awaits before the later |
| PromiseFibers.WokenInAwaitOrder | packages/runtime/src/scr_async.c:876-948 | of two fibers woken by one settlement the one that awaited first is first among those resumed or ready, behind all that were so before |
| Promises.Scheduler.Await | packages/runtime/src/scr_async.c:1254-1257 | a settled promise costs one hop through the ready queue, a pending one parks the fiber behind its other waiters, last in line; the fiber is recorded as awaiting it, and the line of the promise's waiters is that of all awaits of it so far, in order |
| Promises.Scheduler.Awaited | packages/runtime/src/scr_async.c:1256-1263 | when a fiber runs again, the promise it awaited is settled: the loop around parking never goes round a second time, and the outcome is that promise's value or reason |
| Promises.Scheduler.Park | packages/runtime/src/scr_async.c:1199-1213 | the running fiber, and no other, joins the waiters, behind those there |
| Promises.Scheduler.Yield | packages/runtime/src/scr_async.c:1220-1229 | the running fiber goes to the back of the ready queue |
| Promises.Scheduler.Resume | packages/runtime/src/scr_async.c:1615-1639 | the oldest fiber of the ready array runs next; those resumed, then those ready, stay one line that only grows at its end |
| Promises.Scheduler.Spawn | packages/runtime/src/scr_async.c:1149-1195 | a new fiber runs at once above its spawner and owns a new pending promise that nobody waits for |
| Promises.Scheduler.Finish | packages/runtime/src/scr_async.c:1095-1113 | a finished body settles the promise it owns, which is still pending, with its outcome, wakes that promise's waiters in the order of their awaits, and leaves the chain; nothing else changes but what the settlement sets off |
| ReadyQueue.Queue.Push | packages/runtime/src/scr_async.c:352-367 | appends; the array is compacted before it grows, and grows only with every slot in use |
| ReadyQueue.Queue.Compact | packages/runtime/src/scr_async.c:356-359 | moving the contents to the front, in place, keeps them and their order |
| ReadyQueue.Queue.Pop | packages/runtime/src/scr_async.c:1777-1781 | takes the oldest |
| ReadyQueue.Serve | packages/runtime/src/scr_async.c:352-367 | for every interleaving of pushes and pops: what came out, then what is left, is what was there, then what went in |
| TimerOrder.RootLeast | packages/runtime/src/scr_async.c:401-404 | no timer of the heap has a smaller deadline than its root, nor the same deadline and a smaller arming number |
| TimerHeap.Heaped.SiftUp | packages/runtime/src/scr_async.c:415-422 | restores heap order above a loose entry, permuting the timers |
| TimerHeap.Heaped.SiftDown | packages/runtime/src/scr_async.c:430-440 | restores heap order below a loose entry, permuting the timers |
| TimerHeap.Heaped.Push | packages/runtime/src/scr_async.c:406-423 | adds one timer; heap order, the ref'd count and distinct arming numbers are kept |
| TimerHeap.Heaped.Pop | packages/runtime/src/scr_async.c:425-442 | takes out the timer with the smallest deadline, and of equal deadlines the one armed first |
| TimerHeap.Heaped.RemoveAt | packages/runtime/src/scr_async.c:481-504 | takes out exactly the entry at any position |
| TimerHeap.RootFirst | packages/runtime/src/scr_async.c:401-404 | with distinct arming numbers every other timer is later: a larger deadline, or the same and a larger arming number |
| TimerHeap.Delay | packages/runtime/src/scr_async.c:448-452 | a delay is a whole number of milliseconds, at least 1; out of range is 1 |
| TimerHeap.Heaped.SetRef | packages/runtime/src/scr_async.c:539-565 | ref and unref change one timer's flag and the count with it |
| TimerHeap.Heaped.Clear | packages/runtime/src/scr_async.c:689-702 | afterwards no timer has that handle, and no other timer changed |
| TimerHeap.Heaped.Refresh | packages/runtime/src/scr_async.c:577-594 | the timer with the handle is due its own delay from now, with a new arming number, and is otherwise as it was; no other timer changes |
| Immediates.CheckAdvances | packages/runtime/src/scr_async.c:2089-2101 | the cursor passing a slot takes the first of the handles the phase has still to run if the slot is live, and none if it was cleared |
| Immediates.CheckCleared | packages/runtime/src/scr_async.c:749-760 | clearing a slot in place takes its handle off the list of this phase or the next, wherever the cursor is |
| Immediates.CheckBegins | packages/runtime/src/scr_async.c:2086-2089 | a check phase takes over the whole queue, and what is set from then on is for the next one |
| Immediates.QueueFlag | packages/runtime/src/scr_async.c:749-781 | both counters stay true when a live slot is cleared, ref'd or unref'd |
| EventLoop.Loop.Act | packages/runtime/src/scr_async.c:454-800 | what each timer, immediate and queue call of a callback does, including to the timer that is firing, and what it leaves in the log; nothing becomes due |
| EventLoop.Loop.Perform | packages/runtime/src/scr_async.c:2058-2060 | a callback is any sequence of such calls |
| EventLoop.Loop.StepTicks | packages/runtime/src/scr_async.c:1744-1777 | ticks run dry before promise jobs, except at the first checkpoint |
| EventLoop.Loop.StepJobs | packages/runtime/src/scr_async.c:1777-1792 | promise jobs run dry; with neither jobs nor ticks left the loop exits exactly when no timer that waits and no immediate is ref'd (line 1899) |
| EventLoop.Loop.Sleep | packages/runtime/src/scr_async.c:1918-2045 | the sleep ends at the least of all deadlines, or at once if a timer is due already or an immediate is pending, and after a second with neither timers nor immediates |
| EventLoop.Loop.FireTimer | packages/runtime/src/scr_async.c:2046-2080 | the timer due first of all runs with no job waiting; its callback's effects, then re-arming as an interval or after its own refresh, unless cleared |
| EventLoop.AfterFiring | packages/runtime/src/scr_async.c:2058-2080 | what a fired timer leaves: nothing if it has no handle, was cleared or neither repeats nor was refreshed; an interval its period from now, a refreshed timer its delay from now, behind all others armed |
| EventLoop.Loop.StepTimers | packages/runtime/src/scr_async.c:2046-2089 | a timer fires if and only if it is due; a woken fiber ends the phase, and otherwise its end opens a check phase over the whole queue, exactly when an immediate is queued |
| EventLoop.Loop.TimerPhase | packages/runtime/src/scr_async.c:2046-2080 | the timer phase terminates whatever its callbacks arm, because a delay is at least 1 |
| EventLoop.Loop.StepCheck | packages/runtime/src/scr_async.c:2088-2115 | one slot of the phase: a live one runs its callback, a cleared one is passed; past the end taken when the phase began, the phase is over, and a queue fully drained starts over |
| EventLoop.Loop.StepCheckJobs | packages/runtime/src/scr_async.c:2103-2107 | promise jobs run dry between two immediates |
| EventLoop.Loop.Step | packages/runtime/src/scr_async.c:1743-2115 | every step keeps all of this: an orderly log that says which timers are armed, which handles were cleared, where the immediates stand and who is in line, and the true counts in the counters the exit test reads |
| EventLoop.Loop.Run | packages/runtime/src/scr_async.c:1743-2115 | on every run the log is orderly: the timer that fires is the first of all armed, due, and no job waits; the loop sleeps to the first deadline; each turn has a check phase unless a fiber was woken or no immediate is set; what a check phase runs, it takes from the immediates set before it, in order; ticks and promise jobs keep their lines; and the loop ends only with nothing left to keep it going |
| LoopLog.PhaseIsExact | packages/runtime/src/scr_async.c:2086-2115 | in an orderly log, a check phase runs, in order and once each, exactly the immediates set before it that had neither run nor been cleared, less those cleared while it ran |
| LoopLog.RunsInOrder | packages/runtime/src/scr_async.c:706-724 | over a whole run, immediates run in the order they were set |
| LoopLog.EveryHandleOnce | packages/runtime/src/scr_async.c:706-760 | every handle given out has run, or was cleared, or is still queued: one of these, and once |
| LoopLog.EarliestFires | packages/runtime/src/scr_async.c:401-404 | in an orderly log, whatever other timer is armed when one fires has a larger deadline, or the same and a larger arming number |
| LoopLog.ClearedNeverFires | packages/runtime/src/scr_async.c:689-702 | once a handle is cleared, from outside or by its own callback, no timer with it fires in the rest of the run |
| LoopLog.ServedInOrder | packages/runtime/src/scr_async.c:1744-1792 | over a whole run ticks run in the order they were set and fibers resume in the order they were woken; those that have not are still in line |
| LoopLog.TicksBeforeJobs | packages/runtime/src/scr_async.c:1744-1792 | after the timers or a check phase, whatever the callbacks set, no promise job runs before every tick ever set has run |
| LoopLog.JobsBeforeTicks | packages/runtime/src/scr_async.c:1777-1792 | once promise jobs run, no tick runs before every fiber ever woken was resumed; and the loop never sleeps with either left |
| Utf8Form.RepairedWellFormed | packages/runtime/src/scr_bytes.c:411-413 | the decoder's output is well formed and at most three bytes per input byte |
| Utf8Form.RepairedIdentity | packages/runtime/src/scr_bytes.c:411-413 | exactly the well-formed inputs (section 4 of RFC 3629) come back unchanged |
| Utf8Form.PartialIff | packages/runtime/src/scr_bytes.c:414-481 | the bytes one replacement may stand for are those that more bytes can make a character |
| Utf8Decode.EncodeDecoded | packages/runtime/src/scr_bytes.c:458-476 | decoding a character's bits and encoding them again gives its bytes |
| Utf8Decode.CharIffScalar | packages/runtime/src/scr_bytes.c:414-481 | the characters are exactly the encodings of the code points up to 0x10ffff outside 0xd800..0xdfff: no overlong form, no surrogate (section 3 of RFC 3629) |
| Utf8Decode.SubpartExample | packages/runtime/src/scr_bytes.c:411-413 | the Unicode Standard's own example of one replacement for each maximal subpart (section 3.9) |
| Utf8Decode.Decode | packages/runtime/src/scr_bytes.c:414-481 | the automaton, writing into a buffer of three bytes per byte, gives the input with one replacement per maximal subpart; looking at a byte twice terminates |
| StringDecoder.PackUnpack | packages/runtime/src/scr_bytes.c:514-530 | at most three held bytes survive packing into a 32-bit number |
| StringDecoder.FindTail | packages/runtime/src/scr_bytes.c:532-548 | finds the trailing truncated character, if there is one, and nothing else |
| StringDecoder.CutAtStart | packages/runtime/src/scr_bytes.c:505-508 | decoding splits before any byte that is not a continuation |
| StringDecoder.CutAtEnd | packages/runtime/src/scr_bytes.c:532-548 | decoding splits after any bytes that hold nothing back |
| StringDecoder.Write | packages/runtime/src/scr_bytes.c:615-657 | a write decodes all but the held tail, at most three bytes, for utf8, base64 and base64url |
| StringDecoder.DecodeChunks | packages/runtime/src/scr_bytes.c:514-675 | for every way of cutting the bytes, all writes and the end together give the one-shot result |
| Base64.EncodedConcat | packages/runtime/src/scr_bytes.c:610-614 | encoding splits at groups of three bytes |
| Base64.RoundTrip | packages/runtime/src/scr_bytes.c:695-719 | decoding undoes encoding, for both alphabets, padded or not (sections 4 and 5 of RFC 4648) |
| Base64.ForeignSkipped | packages/runtime/src/scr_bytes.c:910-922 | a byte that is in neither alphabet is skipped wherever it stands, padding included |
| Base64.EncodedShape | packages/runtime/src/scr_bytes.c:695-719 | n bytes have a standard encoding of (n + 2) / 3 * 4 characters, all in its alphabet but exactly the padding at the end, and an url encoding of (4n + 2) / 3 characters, all in its own alphabet and none of them padding |
| Base64.DigitTable | packages/runtime/src/scr_bytes.c:696-700 | the two alphabets, character by character |
| Base64.GroupBitsDown | packages/runtime/src/scr_bytes.c:705-717 | three bytes are written from their top six bits down |
| Base64.LastBitsDown | packages/runtime/src/scr_bytes.c:705-717 | one byte or two left over are followed by zero bits, and then by two or one characters of padding, or by nothing in the url encoding |
| Base64.Encode | packages/runtime/src/scr_bytes.c:695-719 | the encoder writes the encoding, inside its buffer |
| Base64.Decode | packages/runtime/src/scr_bytes.c:910-938 | the lenient decoder takes the bits of the characters of either alphabet and never passes `n / 4 * 3 + 2` bytes |
| CommandLine.ReadEscaped | packages/runtime/src/scr_child.c:170-190 | inside quotation marks the parser reads an escaped argument, and the closing mark, back to the argument |
| CommandLine.ReadQuoted | packages/runtime/src/scr_child.c:137-193 | the same for an argument in any of the three tiers |
| ArgumentRules.ParseSplits | packages/runtime/src/scr_child.c:137-141 | a space or a tab outside quotation marks ends an argument, backslashes before it included |
| ArgumentRules.ParseSkips | packages/runtime/src/scr_child.c:137-141 | blanks before an argument, tabs included, are skipped |
| ArgumentRules.ReadMark | packages/runtime/src/scr_child.c:137-141 | n backslashes before a quotation mark count as half as many, an odd one making the mark part of the argument; without it the mark opens or closes a quotation |
| CommandLine.EscapedRun | packages/runtime/src/scr_child.c:170-187 | a run of backslashes is doubled exactly when a quotation mark or the closing one follows it |
| CommandLine.EscapedOther | packages/runtime/src/scr_child.c:170-187 | a quotation mark gets one backslash, and any other character none |
| CommandLine.Quoted | packages/runtime/src/scr_child.c:148-160 | an argument stands as it is exactly when it is not empty and has no space, tab or quotation mark |
| CommandLine.RoundTrip | packages/runtime/src/scr_child.c:137-193 | parsing the quoted arguments, joined by spaces, returns any list of wide strings |
| CommandLine.RoundTripUncut | packages/runtime/src/scr_child.c:137-223 | a list of arguments comes back from its command line exactly when none of them contains a NUL; otherwise each comes back cut at its first NUL |
| CommandLine.NulIsCut | packages/runtime/src/scr_child.c:96-103 | such an input: an argument with a NUL between two letters comes back without the second |
| CommandLine.QuoteArgument | packages/runtime/src/scr_child.c:137-193 | the printer writes the quoted argument, up to its first NUL, at most 2n+2 characters, and changes nothing before it |
| CommandLine.WriteBackwards | packages/runtime/src/scr_child.c:176-187 | the reverse scan doubles a backslash exactly when a quotation mark or the end follows its run |
| CommandLine.ReverseInPlace | packages/runtime/src/scr_child.c:188-190 | the in-place reversal turns that into the escaped argument |
| CommandLine.Build | packages/runtime/src/scr_child.c:196-223 | the whole line fits the room made for it; what follows the program name parses back to the arguments, each cut at its first NUL, hence to the arguments themselves exactly when none has one |
| ContextState.ChangedLookup | packages/runtime/src/scr_async_dyn.c:74-113 | a changed context gives the new value for its store and the old ones for every other, and keeps ids unique |
| ContextState.StepOk | packages/runtime/src/scr_async.c:319-335 | every step keeps each snapshot's count equal to the slots and frames that hold it |
| ContextState.Immutable | packages/runtime/src/scr_async_dyn.c:70-113 | no step changes a snapshot that lives |
| ContextState.OthersSee | packages/runtime/src/scr_async_dyn.c:70-113 | no step changes what another owner sees |
| ContextPrograms.ProgramRestores | packages/runtime/src/scr_async_dyn.c:130-147 | for every callback, a program of nested `run` and `exit`, `enterWith`, `disable` and spawning, and whatever other fibers do while it is suspended, `run` and `exit` end with the context they started with, entries and all |
| ContextPrograms.ProgramBalances | packages/runtime/src/scr_async_dyn.c:115-147 | such a program, run to its end inside a `run`, leaves the frames of its owner as they were |
| AsyncContext.Contexts.Get | packages/runtime/src/scr_async_dyn.c:61-69 | the value of the one entry for the store in the active snapshot, and none exactly when it has no entry |
| AsyncContext.Contexts.Enter | packages/runtime/src/scr_async_dyn.c:74-113 | a fresh snapshot becomes active and the previous one is the caller's; the owner then sees the new value for one store and what it saw for the others, and every other owner what it saw |
| AsyncContext.Contexts.Restore | packages/runtime/src/scr_async_dyn.c:115-118 | the previous snapshot is active again and the other released; no other owner sees anything else |
| AsyncContext.Contexts.EnterWith | packages/runtime/src/scr_async_dyn.c:120-128 | `enterWith` and `disable` leave nothing to restore and leak nothing; one store changes, for this owner alone |
| AsyncContext.Contexts.Spawn | packages/runtime/src/scr_async.c:1149-1195 | a fiber starts in its spawner's context, counted once more: it sees what its spawner sees, and nobody sees anything else than before |
| AsyncContext.Contexts.Destroy | packages/runtime/src/scr_async.c:1138-1145 | a finished fiber gives its snapshot up, and nobody else sees anything else |
| Fallback.Blamed | packages/compiler/src/index.ts:476-498 | the packages dropped after a load are exactly those its resolution, its diagnostics' files or, failing both, its typecheck messages blame |
| Fallback.BlameMeans | packages/compiler/src/index.ts:477-498 | what a package is blamed for: being reported by the resolution; else a diagnostic in its files; else, if no opted-in package is blamed in either way, the typecheck errors that name it, each counted once |
| Fallback.Drop | packages/compiler/src/index.ts:499-506 | each dropped package leaves the set and gets its one status, in the order given |
| Fallback.Detect | packages/compiler/src/index.ts:308-394 | an automatic lane requests exactly the eligible candidates and settles the others |
| Fallback.Probe | packages/compiler/src/index.ts:507-553 | each package left is probed alone, exactly those whose probe has a type error fall back, and the rest is loaded again; if that fails too everything falls back; a non-empty set has no type error |
| Fallback.RunFrontend | packages/compiler/src/index.ts:417-556 | for every checker: it ends; each package gets exactly one status, static if and only if it is in the final set; every load of the fallback loop but its last blames packages, which fall back for that, and the next load is made of exactly the others; its last load blames nobody left, and is the one returned unless it has a type error, which alone starts the probes; every other load is disposed of once; a non-empty final set has no type error; and opt-ins that load cleanly all stay |
| Fallback.StaticUnblamed | packages/compiler/src/index.ts:476-553 | what stayed static was not blamed: with a checker that answers alike for the same packages, if no package fell back for the program's own type errors, the load returned blames nobody in the final set |
| Fallback.AnswersMayChange | packages/compiler/src/index.ts:507-553 | with a checker that answers differently each time this can fail: every probe passes, and the load made after them, which the loop does not look at, blames the package that stays |

## Left out

- HeapArrays.Push: the growth of the element buffer is not modelled; an array's contents are its slots, so in-place moves
  inside one element buffer (`memmove`) appear as the sequence they leave.
- DeepEqualMemo.Memo.DeepEqual: values are nodes with one collapsed leaf and a list of children; the per-type walks the
  compiler emits (maps, records, arrays) differ only in how children are listed.
- DeepEqualMeaning.CompareIsEquality: an equality is not claimed where both operands reach cycles, because it does not hold
  (see `CyclicValuesMayDiffer` and `AlikeValuesMayBeUnequal`), and no exact guard exists (`NoGuardByOperand`,
  `NoGuardByLooks`).
- MyersDiff.Myers: texts of more than 4096 lines together are answered "none", as in the source; splitting a text into
  lines and printing the script are left out.
- Promises.Scheduler.Settle: payloads are values and their counts are not modelled; in particular overwriting before
  releasing is not claimed for callback destinations, which are released while the list still covers them. The ledger of
  unhandled rejections is left out.
- Promises.Scheduler.Fulfill: not for the result of an `all`, nor for a fiber's own promise, which no resolver outside the
  runtime can settle.
- Promises.Scheduler.RaceAdd: an adapter is a pure conversion of the payload, as the emitted ones are.
- Promises.Scheduler.Finish: the completion value is settled here; the trampoline that stores it is not part of this model.
  Fibers that run generators, and closures queued as microtasks, own no promise and are left out of the scheduler.
- Promises.Scheduler.Awaited: the rethrow of a rejection is the answered reason; exceptions themselves are not modelled.
- PromiseFibers.AwaitsAdvance: a module's wait for a dependency, which does not hop when the dependency is settled, is left
  out.
- EventLoop.Loop.Step: hooks of streams, signals, sockets, file watching, child processes and the dynamic island, the
  rejected top-level promise and throwing callbacks are left out; so is the cycle collection between turns. Ticks queued by
  one timer may still wait while the next timer of the same phase fires, as in the source.
- EventLoop.Loop.StepJobs: the same hooks, where they keep the loop alive, are left out of the exit test.
- EventLoop.Loop.Sleep: the sleep is a wait for the clock alone; polling for input and children is left out.
- EventLoop.Loop.Perform: a callback runs to its end before the loop goes on; what a resumed fiber does is such a sequence.
- StringDecoder.DecodeChunks: utf16le is left out, where the source does depend on the cut; latin1, ascii and hex keep no
  state.
- CommandLine.Build: arguments are wide strings already, so conversion to UTF-16 is left out, as is parsing of the
  program's name, which has rules of its own;
  nested quotation marks written as a doubled mark never occur in what is printed, so the parser has no rule for them.
- AsyncContext.Contexts.Enter: counts of the stored values, and generator resumption, which does not switch contexts, are
  left out.
- ContextPrograms.ProgramRestores: a callback that throws corresponds to a shorter program, because the previous context is
  restored on that way out too; exceptions themselves are not modelled.
- Fallback.RunFrontend: library mode, reason texts, and a checker that throws are left out; a package's fallback notes come
  in the order of the opt-ins within one round of typecheck blame, where the source uses the order of the messages.
- Context switching, system calls, number formatting and the text of messages: not modelled.
- Typed (non-reference) arrays, `toReversed`, `indexOf`, `join`: they would only add easy members.
