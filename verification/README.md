# phpco in Dafny

phpco is a coroutine scheduler for PHP written in C. This project models its scheduling core
and proves properties of every run of it: the coroutine-id allocator, the life cycle of
coroutines with its `setjmp`/`longjmp` checkpoints, the per-fd event registry with its epoll
set, and the chained hash table kept under `src/hashtable`.

`dafny verify dfyconfig.toml` verifies everything.

## How the model is laid out

| file | what it holds |
|---|---|
| `CidSpec.dfy`, `CidMap.dfy` | the id allocator as a value (ids in use, cursor), and the bitmap class over an array of 32-bit words that implements it |
| `Registry.dfy` | the event table and the epoll interest set |
| `Machine.dfy` | the scheduler as a state machine: state, one function per operation, `Fault` for undefined behaviour in C |
| `Scheduler.dfy` | the same operations as a class whose methods overwrite the globals step by step, each proved to do exactly the machine's step |
| `Invariants.dfy`, `Leaving.dfy`, `Saving.dfy`, `Entering.dfy`, `Creating.dfy`, `Preservation.dfy` | the invariant, and that every step keeps it |
| `Runs.dfy`, `Nesting.dfy`, `Effects.dfy`, `Ownership.dfy`, `Wakeups.dfy`, `Reuse.dfy`, `Callbacks.dfy`, `Dispatches.dfy`, `MainTask.dfy`, `Identity.dfy`, `Requests.dfy`, `Resources.dfy`, `ForeignClose.dfy` | the theorems about whole runs |
| `Limits.dfy`, `Witnesses.dfy` | the exact conditions where a guarantee ends, and runs from `coro_init` that get there |
| `HashSpec.dfy`, `HashTable.dfy` | the hash table as a value with its theory, and the linked structure that implements it |

**Steps.** A C function that runs PHP code is cut at the point where control enters the VM, so
a step is what happens between two moments at which PHP code runs. A run is any sequence of
creates, resumes, yields, waits, ends, dispatches, closes and VM activity, chosen freely at
every step; it is not limited to finite program trees. The C stack is explicit: a frame holds
the locals of `coroutine_create`, `coroutine::resume` or `aio_invoke`, and a `longjmp` goes to
whatever frame last filled the buffer `checkPoint` points to. That this is always the innermost
frame is proved, not built in.

**Pointers** come from a counter that never repeats, so a stale pointer is visible as one that
is no longer allocated.

**Histories.** The state also records refused creates, which cids a client may resume, where
each live coroutine is, which contexts were resumed and released, and which callback copies
were made and freed. No step reads them, except that freeing a copy again is a fault.

**Undefined behaviour** is an explicit outcome of a step: a jump to a dead frame, an access to
freed memory, an index outside an array, and a double free, that of a callback copy included.
Table entries have addresses, because `aio_invoke` reads its entry again after the waiter has
run, and a wait that the kernel refuses frees the entry meanwhile.

**Hypotheses**, all in `Machine.Disciplined`: yield, wait and return happen inside a coroutine;
`event_loop` runs in main; a cid is resumed only after its coroutine yielded and before it is
resumed again (`tests/co_accept.php` keeps to this; `cid_context_map` is not cleared on resume);
descriptors and cids are inside their arrays; the kernel refuses to add a descriptor it already
watches; and no descriptor the kernel watches is closed behind the extension's back. Theorems
about runs also assume that no create so far met an empty allocator (`Runs.IdsLeft`), which
`Limits.CreateKeepsIff` shows to be necessary; any number of refused creates is allowed.
One waiter per fd and closing only idle fds are not assumed: the coroutines lost by
breaking either rule are characterised exactly. Nor are creates at the cap and refused waits
restricted: the two cases in which a disciplined step is undefined behaviour are characterised
over whole runs (`MainTasks.FaultsInRunIff`), and so are the callback copies that refused
creates lose (`Callbacks.CallbackFate`). `Witnesses.dfy` has a run into each of these cases.

**The code as it is.** A create refused by the limit keeps its cid, settles its callback on the
caller's task and reports success, because CORO_LIMIT is 2 and the caller tests `ret < 0`. The
limit is not tested when no id is left. A store on an fd that has a waiter reports success
without recording the new one, and loses its arguments. `aio_event_free` keeps the function
name of an entry, so dispatching an idle one repeats the call without arguments. `hash_table_rm` of a chain head drops the whole chain, although
the header only speaks of removing one value.

## Model

| member | source | states |
|---|---|---|
| CidMaps.CidMap.constructor | coroutine_util.c:260-270 | the zero page stands for no id in use, counter 0x8000, cursor -1 |
| CidMaps.CidMap.TestAndSetBit | coroutine_util.c:272-281 | answers whether the id was unused and adds exactly that id to the set the words stand for; words past the first 1024 stay zero |
| CidMaps.CidMap.ClearBit | coroutine_util.c:283-290 | removes exactly that id; every other bit of every word is unchanged |
| CidMaps.CidMap.FindNextZeroBit | coroutine_util.c:293-315 | the free id at the least cyclic distance from the mark, or the mark itself on a full bitmap; terminates from mark -1 only because a zero bit exists |
| CidMaps.CidMap.Alloc | coroutine_util.c:317-335 | next-fit: an id in 1..32768 not in use and nearest to the cursor, -1 exactly when the counter is 0 (the last return is unreachable); one bit and the counter change |
| CidMaps.CidMap.Free | coroutine_util.c:337-342 | gives back an id in use: one bit cleared, counter up by one, counter and bitmap still agree |
| CidSpec.NextFreeIsNearest | coroutine_util.c:293-315 | the scan function finds the nearest free id whenever one exists |
| CidSpec.NearestIsUnique | coroutine_util.c:293-315 | the nearest free id is unique, so next-fit leaves no choice |
| CidSpec.ScanTerminatesIff | coroutine_util.c:293-326 | the scan loop stops if and only if its mark is inside the range or some bit is zero |
| CidSpec.CounterAgrees | coroutine_util.c:261-342 | nr_free counts the zero bits, lies in 0..32768, and is zero exactly when every bit is set |
| CidSpec.IssuesInOrder | coroutine_util.c:293-335 | as long as nothing is given back, ids are handed out in order from the first one on |
| CidSpec.ReuseDistance | coroutine_util.c:293-342 | in every run of allocations and frees, between two issues of one id every id that was free right after the first is issued, hence at least nr_free others |
| CidSpec.ReuseDistanceIsTight | coroutine_util.c:293-342 | any run that ends with an issue can be continued so that the same id comes back after exactly nr_free others: the bound cannot be raised |
| Reuse.RunIsCidRun | coroutine_util.c:86-158 | every run of the scheduler, without exception, is a run of its allocator: creates issue the nearest id or find none, ends release one in use |
| Reuse.CidReuseDistance | coroutine_util.c:86-342 | reuse distance for coroutine ids over every scheduler run, refused creates included |
| Registry.StoreAgrees | coroutine_event.c:3-45 | a store, successful or failed, keeps table and kernel in agreement |
| Registry.FreeAgrees | coroutine_event.c:53-89 | a free or a close keeps the agreement, leaves the entry idle and out of epoll, and a second free changes nothing |
| Registry.StoreHarmsNoWaiter | coroutine_event.c:18-44 | a store fails only where nobody waits; on a busy fd it changes nothing and still reports success; on an idle one it records exactly the request; other entries are untouched |
| Registry.ForeignCloseAgreesIff | free_unused_result_bug_trace.txt:374-385 | a close the table does not see keeps the agreement if and only if the kernel was not watching the fd |
| Registry.ForeignCloseLosesNextWaiter | free_unused_result_bug_trace.txt:374-385 | after such a close the next descriptor with that number is neither added to epoll nor recorded |
| ForeignCloses.ForeignCloseStep | free_unused_result_bug_trace.txt:374-374 | as a step: the kernel drops that descriptor and no other, table and everything else stay, and the two no longer agree |
| ForeignCloses.NextWaitIsLost | free_unused_result_bug_trace.txt:374-385 | as a sequence of steps: after the close the next wait on the number, by whatever coroutine runs, reports success and suspends, the kernel watches nothing, and the coroutine has no wake source |
| Witnesses.LosesAfterForeignClose | free_unused_result_bug_trace.txt:374-385 | for every cap of two or more, on every descriptor, a run from coro_init gets there |
| Schedulers.Scheduler.constructor | coroutine_util.c:54-81 | coro_init builds the machine's initial state |
| Schedulers.Scheduler.ResumeParent | coroutine_util.c:233-243 | all registers come back from the context |
| Schedulers.Scheduler.TakeCid | coroutine_util.c:88 | the id comes from the allocator before the limit is looked at |
| Schedulers.Scheduler.RefusedCreate | coroutine.c:196-235 | a refused create gives the caller everything back except the id and the callback |
| Schedulers.Scheduler.AdmittedCreate | coroutine_util.c:94-136 | a create that goes through: fresh stack, task and checkpoint, one more coroutine, caller's registers in the frame |
| Schedulers.Scheduler.CoroutineCreate | coroutine.c:167-224 | create takes the machine's create step, refused exactly at the cap with an id in hand |
| Schedulers.Scheduler.CoroResume | coroutine_util.c:183-214 | the coroutine's saved registers become current, behind the suspended call, and the checkpoint is filled by this frame |
| Schedulers.Scheduler.CoroutineResume | coroutine.c:254-272 | resume takes the machine's resume step; nothing happens when the map entry is null |
| Schedulers.Scheduler.EventStore | coroutine_event.c:3-45 | the table after the store, entry by entry, and the result code |
| Schedulers.Scheduler.EventFree | coroutine_event.c:53-89 | the table after the free, for each descriptor type |
| Schedulers.Scheduler.AioInvoke | coroutine.c:39-56 | dispatch makes the call its entry stores, clears the entry, then enters its waiter, and enters nobody for an idle or missing entry |
| Schedulers.Scheduler.Restore | coroutine.c:278-281 | the frame's own checkpoint is freed and the caller's checkpoint, registers and require come back |
| Schedulers.Scheduler.FrameReturns | coroutine.c:46-59 | what the innermost C function does after its coroutine ended or yielded; a dispatch reads its entry once more |
| Schedulers.Scheduler.CoroYield | coroutine_util.c:245-256 | origin stack, then a jump to the frame that filled the checkpoint |
| Schedulers.Scheduler.CoroutineYield | coroutine.c:245-252 | yield parks a fresh context under the coroutine's cid and jumps |
| Schedulers.Scheduler.SocketWait | coroutine.c:287-312 | a wait suspends exactly when the store reported success |
| Effects.RefusedWaitFrees | coroutine.c:303-308 | a wait that the kernel refuses frees the context it allocated, and nothing else of the coroutine changes |
| Schedulers.Scheduler.CoroClose | coroutine_util.c:150-167 | callback and id released, one coroutine fewer, origin stack, no current task |
| Schedulers.Scheduler.CoroutineEnd | coroutine_util.c:134-147 | an ended coroutine is closed and its frame returns |
| Schedulers.Scheduler.SocketClose | coroutine.c:443-464 | closing leaves the entry idle and drops its waiter |
| Schedulers.Scheduler.Perform | coroutine.c:167-464 | every disciplined action that neither hits a dead task nor reads a freed entry, taken on the globals, is exactly the machine's step and keeps the invariant |
| Invariants.InitHolds | coroutine_util.c:54-81 | the invariant holds after coro_init |
| Invariants.InitInMain | coroutine_util.c:59-68 | coro_init leaves main's registers alone, takes main's stack for the origin, and sets the cap to 3000 if none is configured |
| EnteringSteps.IdleDispatch | coroutine.c:46-56 | dispatching an idle or missing entry changes nothing, however often |
| EnteringSteps.ResumeKeeps | coroutine.c:254-272 | a disciplined resume faults nowhere and keeps the invariant |
| EnteringSteps.DispatchKeeps | coroutine.c:9-60 | a dispatch from main faults nowhere and keeps the invariant |
| CreatingSteps.CreateKeeps | coroutine_util.c:86-137 | a create with an id left, admitted or refused, keeps the invariant unless it hits a dead task |
| SavingSteps.JumpIsReturn | coroutine_util.c:245-256 | the longjmp target is the innermost frame |
| LeavingSteps.ReturnKeeps | coroutine.c:204-224 | a frame on its way out frees what is its own, restores its caller and re-establishes the invariant |
| Preservation.StepKeeps | coroutine.c:9-464 | every disciplined step that neither hits a dead task nor reads a freed entry is free of undefined behaviour, double frees included, and keeps the whole invariant |
| Preservation.StepFaultsIff | coroutine.c:57-211 | a disciplined step with an id left is undefined behaviour if and only if it is a create at the cap, in main, while current_coro points to a task that has ended, or ends a dispatch whose entry has been freed |
| Runs.RunIsSafe | coroutine_util.c:86-164 | in every run in which no create met an empty allocator: free ids + coroutines + refusals = 32768, the cap holds, and only a create that hits a dead task and a return that reads a freed entry can fault |
| Runs.FewRefusalsLeaveIds | coroutine_util.c:88-93 | fewer than 32768 - cap refusals are enough for that |
| Nesting.LandsInnermost | coroutine_util.c:134-256 | every yield, wait and end pops the innermost frame and only it, restores what that frame saved, and keeps the invariant |
| Nesting.NestingRestoresCaller | coroutine.c:196-282 | whatever runs nested between a create or resume and its return, at any depth, the caller's registers, current task, require and checkpoint are those it called with |
| Effects.StepEffect | coroutine.c:167-464 | what each step does to contexts, cid map, entries, live coroutines and ids, and what it leaves alone; a create below the cap starts the new coroutine on the stack, in the frame and with the return value allocated for it |
| Ownership.SingleOwner | coroutine.c:245-312 | a live coroutine has exactly one wake source (an activation, an fd entry or a fresh map entry), or none if it is lost |
| Ownership.SingleHolder | coroutine_event.c:32-44 | no context has two owners, and an owned context is allocated |
| Ownership.OneOwnerUnlessThrownAway | coroutine.c:245-464 | over whole runs: a live coroutine has a wake source, and one only, if and only if it never waited on a busy fd and no fd was closed under it |
| Wakeups.ResumeContinuesLatestYield | coroutine.c:245-277 | resume(cid) continues the live coroutine of that cid with exactly the registers of its latest yield, across any creates, ends and cid reuse in between |
| Wakeups.ReRegistrationSurvivesDispatch | coroutine.c:46-56 | the first wait on the dispatched fd that the kernel accepts, at any depth, is intact when the dispatch is over; the last step releases the old context and no other |
| Wakeups.DispatchAnswersWait | coroutine.c:39-56 | the next dispatch of a descriptor after an accepted wait makes exactly the call the wait asked for, with its arguments, and continues the coroutine that waited with exactly its registers |
| Registry.StoreAddresses | coroutine_event.c:7-31 | a store frees the entry of its own descriptor exactly when the kernel refuses it, no other entry, and never puts one back at an old address |
| Registry.CallOutlivesWaiter | coroutine_event.c:53-64 | an entry dispatched again makes the same call without arguments |
| Dispatches.EntryFreedIff | coroutine.c:57-59 | the entry a dispatch in progress reads again at its end has been freed if and only if the kernel refused a wait on the descriptor since the dispatch was made, at any depth; an entry added again does not count |
| Wakeups.WokenAtMostOnce | coroutine.c:478-498 | over any dispatches a context is resumed and released at most once, and not resumed while an entry or fresh map slot holds it |
| Wakeups.TableAgreesThroughout | coroutine_event.c:3-89 | in every state of a run: context set, type non-zero, mask non-zero and fd in the epoll set are equivalent |
| Callbacks.CallbackFate | coroutine.c:190-211 | in every run, with refused creates or without: a callback copy is held by one create in progress, or by one live task, or was freed once, or is lost, exactly one of the four; it is lost if and only if a step settled another copy on the task that held it |
| Callbacks.StepLeaks | coroutine.c:204-211 | the copies a step loses are exactly those it overwrites: by a refused create on the current task, or by a suspension that returns through the create of a task that holds one |
| Callbacks.CallbackReleasedOnce | coroutine.c:190-211 | in runs without refusals each copy is freed at most once, exactly when no create and no task holds it, and all are freed when nothing is left |
| Callbacks.CreateSettlesCallback | coroutine.c:204-211 | when a create returns, after a suspension its own coroutine gets the callback, after an end it is freed |
| Limits.OutsideFaultsIff | coroutine_util.c:9-78 | a resume of a cid not in the map, and a close, are undefined behaviour exactly outside the 32769 places of cid_context_map and the 102400 of the event table |
| Limits.ResumeSafeIff | coroutine.c:261-277 | resuming a cid with a map entry is safe if and only if its coroutine yielded and was not resumed since |
| MainTasks.CurrentTaskInMain | coroutine.c:46-56 | in main, current_coro is the coroutine woken by the last dispatch that woke one, if that dispatch ended in a suspension, and null otherwise; it dangles if and only if that coroutine has ended since |
| MainTasks.DispatchReturnsToMain | coroutine_util.c:245-256 | over whole runs every dispatch returns to the very stack coro_init was called on, with the base checkpoint and without require |
| MainTasks.FaultsInRunIff | coroutine.c:57-207 | over whole runs: a step is undefined behaviour if and only if it is a create made by main at the cap after the coroutine the event loop last woke and saw suspend has ended, or it ends a dispatch of a descriptor on which the kernel refused a wait meanwhile |
| Witnesses.FaultsAtCap | coroutine.c:204-207 | for every cap a run from coro_init reaches such a create: wait, dispatch, yield, resume by main, end, fill up, create |
| Witnesses.LosesCallback | coroutine.c:204-207 | for every cap a run from coro_init loses a callback copy: a refused create inside a coroutine whose own create then returns |
| Witnesses.FaultsAfterRefusedWait | coroutine_event.c:22-29 | for every cap a run from coro_init reads a freed entry: a woken coroutine waits on its descriptor again, the kernel refuses, and it yields |
| Witnesses.LosesWaiter | coroutine_event.c:33-44 | for every cap of two or more a run from coro_init loses a coroutine: two wait on one descriptor |
| Witnesses.FaultsOnSecondResume | coroutine.c:261-277 | for every cap a run from coro_init resumes a cid twice into freed memory, after the coroutine ended and after it waited |
| Identities.CurrentCidIsOwn | coroutine.c:238-243 | inside a coroutine get_current_cid is the id its own create took, at any depth and across any suspension |
| Identities.CurrentCidInMain | coroutine.c:238-243 | in main get_current_cid is the id that the coroutine last woken took when it was created, as long as it has not ended |
| Identities.CurrentCidInMainIff | coroutine.c:238-243 | in main get_current_cid follows a live pointer if and only if the last dispatch that woke a coroutine ended in its suspension and that coroutine has not ended since; then the create that made it is in the run, and the id is the one it took |
| Schedulers.Scheduler.GetCurrentCid | coroutine.c:238-243 | reads the id of the task current_coro points to, where that is alive |
| Identities.RetPtrIsOwn | coroutine_util.c:150-160 | the return value coro_close frees is the one the coroutine's own create allocated, across any nesting, suspension and resumption |
| Requests.RequestFate | coroutine_event.c:33-81 | the arguments or timer of a wait are held by one entry until one dispatch or close frees them; they are lost if and only if the kernel refused the wait or the descriptor had a waiter |
| Limits.CreateKeepsIff | coroutine_util.c:88-93 | a create that goes through keeps the invariant if and only if an id was left; without one its coroutine can neither yield nor end inside the arrays |
| Limits.CapBreaksIff | coroutine_util.c:88-93 | the step that exceeds the cap is exactly a create at the cap with no id left, that is, after exactly 32768 - cap refusals |
| Limits.CapBreaksInRunIff | coroutine_util.c:88-93 | the same at every step of a run |
| Limits.CapIsTight | coroutine_util.c:88-93 | for every cap a run with exactly 32768 - cap refusals exists whose next create is admitted past the cap with id -1 |
| Resources.ResumedComesBack | coroutine.c:254-282 | a resumed context has been released, once, or the activation that resumed it still runs, never both |
| Resources.BuffersComeBack | coroutine.c:196-224 | the allocated jmp_bufs are exactly the base one and one per create or resume in progress, each its own |
| Resources.AllComesBack | coroutine.c:196-282 | with no live coroutine and an empty stack every context and every jmp_buf but the base one is free again |
| HashSpec.Hash33 | src/hashtable/hashtable.c:44-51 | the loop computes the sum of c_i * 33^(n-1-i) over signed characters modulo 2^32, and wrap-around never changes a bucket |
| HashSpec.HornerIsPoly | src/hashtable/hashtable.c:44-51 | one character at a time gives the same polynomial as the sum of powers |
| HashSpec.PutLookup | src/hashtable/hashtable.c:93-138 | after a put its key has the new value and every other key its old one; a failed put changes no key |
| HashSpec.RmLookup | src/hashtable/hashtable.c:155-174 | after a removal the key is gone; others are gone only if the key headed a longer chain and they shared its bucket |
| HashSpec.RmIsExactIff | src/hashtable/hashtable.c:162-170 | a removal removes its key alone if and only if the key does not head a chain of two or more |
| HashSpec.ApplyWellFormed | src/hashtable/hashtable.c:93-174 | keys stay unique and in their own bucket |
| HashSpec.LookupIsLatest | src/hashtable/hashtable.c:93-174 | for every key and every sequence of puts and removals: a lookup gives the latest value put if and only if the key's chain was not dropped from under it since |
| HashSpec.ForgetsKey | src/hashtable/hashtable.c:162-170 | two keys of one bucket are put and the first removed: the second is gone without having been removed |
| HashSpec.ApplyConserves | src/hashtable/hashtable.c:93-174 | values with a destructor are conserved by every operation: held, destroyed or leaked |
| HashSpec.DestructorsRunOnce | src/hashtable/hashtable.c:32-174 | over any sequence, everything stored with a destructor was destroyed once, is held, or leaked with a dropped chain; nothing leaks without one |
| HashSpec.StoredCount | src/hashtable/hashtable.c:93-138 | a value with a destructor is accounted for as often as a put of it had memory or found its key, one without never |
| HashSpec.DestroyedCount | src/hashtable/hashtable.c:101-163 | the destructor runs for a value that has one, and for no other, exactly as often as an overwrite or a removal met that value under its key |
| HashTables.HashTable.constructor | src/hashtable/hashtable.c:61-68 | the zeroed heads stand for the empty map |
| HashTables.HashTable.New | src/hashtable/hashtable.c:54-69 | null exactly when one of the two allocations fails, otherwise a fresh empty table with nothing destroyed or freed |
| HashTables.HashTable.Get | src/hashtable/hashtable.c:141-152 | the value stored under the key, NULL if there is none |
| HashTables.HashTable.Search | src/hashtable/hashtable.c:95-110 | the walk finds the key's node, or the end of the chain and its last node |
| HashTables.HashTable.Overwrite | src/hashtable/hashtable.c:100-107 | the old value goes to its own destructor, the node gets the new one, no other node changes |
| HashTables.HashTable.Append | src/hashtable/hashtable.c:112-136 | a new node is linked at the end of its chain, all other chains intact |
| HashTables.HashTable.Put | src/hashtable/hashtable.c:93-138 | the linked table does the specified put, with result code and destructor call, and stays what its operations so far make of an empty table |
| HashTables.HashTable.Unlink | src/hashtable/hashtable.c:164-169 | an inner node leaves its chain; a head empties its bucket |
| HashTables.HashTable.Walk | src/hashtable/hashtable.c:159-173 | the walk goes on behind the removed node and removes no other |
| HashTables.HashTable.Remove | src/hashtable/hashtable.c:155-174 | the linked table does the specified removal, destroys that one value and frees that one node |
| HashTables.HashTable.DeleteChain | src/hashtable/hashtable.c:77-84 | each node of a chain is freed once, its link read before, and its value destroyed |
| HashTables.HashTable.Delete | src/hashtable/hashtable.c:71-90 | every value ever stored with a destructor has then gone to it once or leaked with a dropped chain; every linked node is freed and no node twice |

## Left out

- The PDO wrappers and `c_convert_to_fd`: they live on Zend, mysqlnd and stream internals that are not part of this model; descriptors are given as numbers inside the table.
- Zend VM detail (frame layout, opline stepping, reference counts, exceptions, memory of stacks and return values): stacks and frames are opaque, and the VM may change its own registers at any time.
- Schedulers.Scheduler.AioInvoke: says which call is made on the waiter's behalf; what the called PHP function does, its result, and the branch for PDO objects are not part of this model.
- The loops of `event_loop` (1000 rounds, batches of ready descriptors): a run may dispatch any descriptors in any order, repeated and idle ones included.
- The timeout list and `src/link/link.c`: a dispatch may come for any fd at any time, which covers whatever the list decides.
- The system calls around timers, `get_current_time`, `socket_setnonblock`, and `sleep` with a non-positive time, which returns at once.
- `initMutex`, module registration and argument tables.
- What follows a create admitted with id -1: its yield and its end reach outside the arrays, and the machine faults there.
- HashTables.HashTable.Delete: the memory of heads, keys and the table struct is not modelled, and nodes of a dropped chain are only counted by their values; a freed node stays readable, because `hash_table_rm` reads its link.
- HashTables.HashTable.Put: the two allocations of a put fail together.
