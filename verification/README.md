# Verified model of xrcu

xrcu is a library of lock-free containers on top of its own RCU runtime. This project models
its protocols and index structures in Dafny and proves what they promise.

* **Concurrent code** (the RCU runtime, the queue, the stacks, the futex lock) is a step relation:
  a state, the actions that threads may take in it, and the state after an action. Any number of
  threads interleave, one access to a shared word per step, sequentially consistent. The
  theorems are about every run (`IsRun`), for all threads and all interleavings. Fields called
  history variables in the comments record what has happened; no word of the modelled memory is
  computed from them.
* **Sequential code** (hash table, skip list, the intrusive rings, the finalizer list, the node
  walk of the stack, `find_hsize`, `upsize`) keeps its own form: classes with the source's fields,
  methods with its loops and branches, proved against maps, sets and sequences.
* The queue and the stack are there in both forms. Their objects (`QueueData.dfy`,
  `StackNodes.dfy`) run without interference; those of the queue keep the invariant of the step
  relation and act on the same abstract queue.

## Files

| file | content |
|---|---|
| `Common.dfy`, `ReaderRings.dfy` | shared definitions; the three rings of readers as sets, and what passes and thread changes do to them |
| `ReaderWord.dfy` | the packed reader word: phase bit and nesting count, on 64-bit words |
| `Rcu.dfy`, `RcuInvariant.dfy`, `RcuTheorems.dfy` | the runtime: sections, grace periods, deferred destruction, thread exit |
| `RcuCalls.dfy`, `RcuAlone.dfy` | what a thread has obtained when a call of the runtime returns; calls that nothing stands in the way of end |
| `RcuLeak.dfy` | a run in which an exiting thread leaves 2^32 objects behind |
| `Rings.dfy` | `td_link` rings and one pass of `poll_readers` on the heap |
| `RingPolls.dfy` | `poll_readers` and the ring work of `sync` on the heap, while threads register and exit |
| `Finalizers.dfy` | the list of pending objects of one thread on the heap |
| `LwLock.dfy` | the futex lock |
| `Queue.dfy`, `QueueInvariant.dfy`, `QueueTheorems.dfy`, `QueueDrained.dfy` | the growable queue |
| `QueueCalls.dfy`, `QueueAlone.dfy` | the effect of an operation is that of its call, and what a pop returns; operations that run alone end |
| `QueueBlocked.dfy` | waits of the queue that nobody is left to end |
| `QueueMemory.dfy` | when the arrays that have been replaced are destroyed |
| `QueueData.dfy` | the arrays of the queue as objects |
| `Stack.dfy`, `StackInvariant.dfy`, `StackTheorems.dfy` | push, batch push, pop, swap and clear over many heads |
| `StackCalls.dfy`, `StackAlone.dfy` | the effect of an operation is that of its call; operations that run alone end |
| `StackMemory.dfy` | what leaves the stacks is retired, and its memory given back by the destruction |
| `StackBlocked.dfy` | swaps that wait for each other |
| `StackNodes.dfy` | heads and nodes of a stack as objects, and who destroys the nodes of a chain |
| `Primes.dfy`, `Probing.dfy`, `HashSlots.dfy`, `HashTable.dfy` | the hash table |
| `SkipLevels.dfy`, `SkipList.dfy` | the skip list |
| `Upsize.dfy`, `Traits.dfy` | rounding up to a power of two, and the encoding of small integers |

## Where the code does not do what it is for

Each of these is proved, with the exact condition or with a concrete input.

* A queue that grows while it is drained (`rd_idx == cap` when the growing thread marks its slot)
  copies the FREE sentinel into the new array. A growth acts as a push exactly if
  `rd_idx < cap` at that moment (`QueueTheorems.GrowthIsPushIff`), and a run is first in, first
  out at every point exactly if all its growths are such (`QueueTheorems.FifoIff`).
  `QueueDrained.SentinelPopped` is a run of one thread in which the next `pop` takes the sentinel
  for an element.
* A push that finds the array full marks the slot at `rd_idx`. If a pop has already deleted that
  slot, the mark stays there for good (`QueueBlocked.DeadMarkIff`), and when the push comes back
  to the slot, because the pop has not moved `rd_idx` yet, it waits for its own mark. While nobody
  is growing the array, a waiting push is blocked exactly if its slot is marked
  (`QueueBlocked.BlockedIff`), and it leaves the wait if and only if a new array is installed
  (`QueueBlocked.LeavesIff`). `QueueBlocked.PushBlocked` is a run of one push and one pop that ends
  with an empty queue, an idle thread, and the push waiting.
* A pop that meets a marked slot waits for a new array, too, and goes on waiting when the growth is
  given up because its allocation has failed (`QueueBlocked.LeavesIff`); `QueueBlocked.PopBlocked`
  is a run that ends with a value in the queue, an idle thread, and the pop waiting.
* Two swaps of the same stacks in opposite order can wait for each other (a run:
  `StackBlocked.SwapsDeadlock`). No step of any thread ends such a wait of any number of threads
  (`StackBlocked.DeadlockedForGood`), and there is none as long as every swap names its stacks in
  the same order (`StackBlocked.OrderedSwapsNeverDeadlock`).
* The skip list indexes its root at the high-water mark, which does not know the depth of the
  list. With random numbers other than 0 the mark can reach 20, so this stays within the root for
  every sequence of draws exactly if the depth is at least 19, or at least 20 once the list has
  been cleared (`SkipList.DepthSuffices`).
* `n_fins` is a 32-bit number. A thread that exits has destroyed all its pending objects in the end
  exactly if their number L is 0 or no multiple of 2^32; otherwise it leaves all of them behind.
  Outside critical sections L is below 1000, so this takes an exit inside an open one
  (`RcuTheorems.ExitDestroysAll`, `RcuTheorems.Accounting`); `RcuLeak.LeftBehind` is a run that
  gets there.
* Entering a section at nesting count 2^63 - 1 carries into the phase bit; below that count it is
  the increment that is meant (`ReaderWord.PackedEnter`, `ReaderWord.AddOneOverflows`).
* `upsize` of a number of 2^63 or more is 0 (`Upsize.SmearPlusOne`, `Upsize.RoomIff`).
* `hash_table::clear` computes the new growth budget from the number of stored pairs and not from
  the number of slots. The budget is positive exactly if that number times the load factor is at
  least 1 (`HashTable.HashTable.Clear`). Otherwise, and so for every table that held at most one
  pair, the next insertion moves to the next size (`HashTable.HashTable.ClearThenInsert`), and n
  rounds of one insertion and one clear move the table n sizes up
  (`HashTable.HashTable.InsertAndClear`).
* Tombstones are not used again before a rehash, which always goes to the next size. So a table that
  never holds more than one pair still moves up, after a budget's worth of insertions and removals
  and one more (`HashTable.HashTable.InsertAndRemove`).

## Model

| member | source | states |
|---|---|---|
| ReaderWord.PackedTests | src/xrcu.cpp:156-170 | the state and in_cs tests on packed words decide exactly nesting count zero and equal phases |
| ReaderWord.PackedEnter | src/xrcu.cpp:281-287 | adding one to a packed word adds one to the count and keeps the phase for every count below the maximum, at which it corrupts the phase; `RcuCalls.StepsOnPackedWords` ties it to the steps of the runtime |
| ReaderWord.PackedExit | src/xrcu.cpp:289-293 | exit_cs takes one off the count and keeps the phase |
| ReaderWord.PackedFlip | src/xrcu.cpp:365-366 | the flip of sync changes the phase and keeps the count |
| ReaderWord.AddOneOverflows | src/xrcu.cpp:281-287 | from the maximal count, adding one flips the phase and leaves count 0 |
| RcuInvariant.LockStep | src/xrcu.cpp:346-372 | each mutex is held by exactly the thread that the program counters name, in every step |
| RcuInvariant.RingStep | src/xrcu.cpp:305-372 | every step keeps the rings disjoint and made of exactly the registered threads, and the stage of the running sync right about which of them are empty |
| RcuInvariant.HolderOther | src/xrcu.cpp:305-372 | while other threads move, a section that was open at the call of sync and still is stays where the running poll will meet it |
| RcuInvariant.HolderOwn | src/xrcu.cpp:312-331 | the poller stops waiting for a reader only when its word shows that the section of the snapshot has ended, also across the flip |
| RcuInvariant.InvStep | src/xrcu.cpp:172-372 | all invariants of the runtime are kept by every step of every thread |
| RcuInvariant.SyncReturns | src/xrcu.cpp:346-372 | a step by which sync returns leaves no section of its snapshot open |
| RcuTheorems.SnapshotKept | src/xrcu.cpp:346-372 | during a call of sync the snapshot is the set of sections that were open at the call |
| RcuTheorems.GracePeriod | src/xrcu.cpp:281-372 | in every run, each critical section of each thread that was open when sync was called has ended when it returns |
| RcuTheorems.GuardsKept | src/xrcu.cpp:191-204 | the sections recorded for a finalized object are those open at its finalize, for the rest of the run |
| RcuTheorems.Reclamation | src/xrcu.cpp:172-219 | in every run, when an object is destroyed no section that was open at its finalize is open, whatever made its thread flush, and its own thread destroys it |
| RcuTheorems.LaterSections | src/xrcu.cpp:172-219 | when a thread destroys an object, no section is open that was open in any state in which that thread was inside a section: also readers that found the object between its finalize and its removal are safe |
| RcuTheorems.Accounting | src/xrcu.cpp:172-204 | objects are destroyed once and in finalize order, the rest is pending, n_fins is the length of the list modulo 2^32, and the list itself reaches the limit only in a section whose end will flush, or while flushing or exiting |
| RcuTheorems.ExitDestroysAll | src/xrcu.cpp:206-219 | a thread that exits with L pending objects has destroyed everything when it is gone if and only if L is 0 or no multiple of 2^32; otherwise its whole list is left, and it exited inside an open section |
| RcuLeak.LeftBehind | src/xrcu.cpp:191-219 | a run at whose end a thread is gone with 2^32 objects finalized and none destroyed |
| RcuTheorems.RingConservation | src/xrcu.cpp:305-372 | in every reachable state a registered thread lies in exactly one of root, out and qs and any other in none, and all are in root when no sync runs |
| RcuTheorems.OldWorkShrinks | src/xrcu.cpp:281-287 | without a flip, the old sections that a thread ends are paid for by its old work at the start |
| RcuTheorems.AtMostOneOldSection | src/xrcu.cpp:312-331 | between two flips a thread ends at most one section with the non-current phase, however stale the counter it had loaded |
| RcuTheorems.OldSectionsBounded | src/xrcu.cpp:312-331 | between two flips all threads together, new ones included, end at most as many such sections as there were threads with such work, and so as there were threads, at the start |
| RcuCalls.SyncCall | src/xrcu.cpp:346-381 | in every run, whenever a thread that has called sync outside a section is idle again, no section that was open at the call is open; it returns with its record as it was |
| RcuCalls.SyncInside | src/xrcu.cpp:374-381 | inside a section the call does nothing |
| RcuCalls.StepsOnPackedWords | src/xrcu.cpp:281-293 | the words that the steps of the runtime store are those of the bit operations of the code |
| RcuCalls.StateOnPackedWords | src/xrcu.cpp:156-165 | what a poll makes of a reader is the test of the code on the packed words |
| RcuCalls.NestCounts | src/xrcu.cpp:281-293 | over runs, until its exit the nesting count of a thread is the number of its entries minus that of its exits |
| RcuCalls.InsideIff | src/xrcu.cpp:281-293 | and it is inside a section exactly while there are more entries than exits |
| RcuCalls.EnterCall | src/xrcu.cpp:281-287 | enter_cs returns inside a section, with the phase that it loaded |
| RcuCalls.FinalizedInOrder | src/xrcu.cpp:191-194 | the finalized objects of a thread are those of its calls of finalize, in order |
| RcuCalls.FlushDestroys | src/xrcu.cpp:172-204 | after flush_finalizers, or a finalize at the limit, inside a section or outside, everything finalized up to the call is destroyed whenever the thread is idle outside of all sections |
| RcuCalls.FlushDueIff | src/xrcu.cpp:196-204 | inside a section a flush is due if and only if one was asked for in this section |
| RcuCalls.FlushStartsIff | src/xrcu.cpp:191-214 | a flush starts exactly with a call that asks for one outside a section, the end of a section in which one is due, or the exit of a registered thread with objects, as the counter sees them |
| RcuAlone.SyncEnds | src/xrcu.cpp:346-372 | with the mutexes free and no thread in a section, a sync comes to its end by the steps of its own thread |
| RcuAlone.DestroyEnds | src/xrcu.cpp:176-189 | a flush whose grace period is over destroys all of its objects in order and ends, whatever the other threads do |
| Rings.TdLink.InitHead | src/xrcu.cpp:48-51 | makes an empty ring |
| Rings.TdLink.Add | src/xrcu.cpp:53-59 | adds the link at the front of a well-formed ring, which stays well formed and keeps its other links in order |
| Rings.TdLink.Del | src/xrcu.cpp:61-65 | takes the i-th link out of a well-formed ring, which stays well formed and keeps the others in order |
| Rings.TdLink.Splice | src/xrcu.cpp:77-86 | the destination ring holds the links of this ring, then its own, in order |
| Rings.TdLink.MoveTo | src/xrcu.cpp:318-319 | del followed by add moves the link between two rings that share none |
| Rings.PollOne | src/xrcu.cpp:315-332 | a reader stays, or goes to out or qs, as its state and the presence of out decide; three rings stay well formed and apart, and no link is lost |
| Rings.PollPass | src/xrcu.cpp:309-333 | after a pass, who stayed and who moved, in which order, for every possible view of the readers; no link is lost |
| ReaderRings.PassVisits | src/xrcu.cpp:309-333 | on the sets, a pass is one visit of the step relation after the other, in any order |
| ReaderRings.PassKeeps | src/xrcu.cpp:309-333 | a pass keeps the three rings apart and loses nobody, and leaves the readers' ring empty exactly if it sees no old reader |
| ReaderRings.PollEnds | src/xrcu.cpp:305-344 | a poll comes to its end if and only if one of its passes sees no old reader |
| ReaderRings.LiveIff | src/xrcu.cpp:216-229 | after any changes, registered is whoever has registered last and not exited since, or was registered before and has done neither; a record may register again |
| ReaderRings.PollKeeps | src/xrcu.cpp:305-344 | a poll keeps everybody in exactly one ring, and the rings hold who is registered, whoever registers, exits or registers again between its passes |
| ReaderRings.SyncKeeps | src/xrcu.cpp:346-372 | during a sync, ended or still waiting, the three rings hold who is registered; at its end all are in root |
| RingPolls.FirstPass | src/xrcu.cpp:309-333 | a pass of the first poll on the heap does to the rings what the step relation does to the sets |
| RingPolls.SecondPass | src/xrcu.cpp:309-333 | the same for a pass of the second poll, which leaves root alone |
| RingPolls.Register | src/xrcu.cpp:222-229 | a thread that registers goes to the front of root, also with a record that was in a ring before; the rings stay well formed and apart |
| RingPolls.Exit | src/xrcu.cpp:216-218 | a thread that exits unlinks itself from whichever of the three rings holds it |
| RingPolls.Interlude | src/xrcu.cpp:338-342 | any sequence of registrations and exits while the mutex is dropped keeps the rings well formed and has the effect of the sets |
| RingPolls.PollReaders | src/xrcu.cpp:305-344 | the passes with registrations and exits between them keep three well-formed rings, end as the sets say, and lose no link |
| RingPolls.SyncRings | src/xrcu.cpp:346-372 | after both polls and the splice, root is a well-formed ring of who is registered then; the same links are in three well-formed rings while it still waits |
| Finalizers.TlData.FlushAll | src/xrcu.cpp:172-189 | refused exactly inside a section; otherwise destroys every pending object once, in list order, reading no object after its destruction, and empties the list |
| Finalizers.TlData.Append | src/xrcu.cpp:193-194 | the stores through the tail pointer append to the list |
| Finalizers.TlData.Finalize | src/xrcu.cpp:191-204 | the list grows by the object or, when it reaches the limit outside a section, is destroyed with it; inside one it is noted that a flush is due |
| Finalizers.TlData.EnterCs | src/xrcu.cpp:281-287 | keeps the list invariant and is in a section afterwards |
| Finalizers.TlData.ExitCs | src/xrcu.cpp:289-297 | the end of an outermost section destroys the list exactly if a flush had to wait |
| Finalizers.TlData.FlushFinalizers | src/xrcu.cpp:389-398 | destroys the list, or notes inside a section that a flush is due |
| Finalizers.TlData.Fini | src/xrcu.cpp:206-214 | destroys the list unless its length is a multiple of 2^32, and leaves a list behind only if the thread was inside a section |
| LwLock.ExclusiveStep | src/lwlock.cpp:48-75 | every step keeps the word zero exactly when nobody holds the lock, and one holder at most |
| LwLock.MutualExclusion | src/lwlock.cpp:48-75 | in every run at most one thread holds the lock; `LwLock.AcquireHolds` is about who does |
| LwLock.CoveredStep | src/lwlock.cpp:56-74 | every step keeps sleepers covered: the word is 2, a releaser owes a wake, or a contender will swap in 2 |
| LwLock.NoLostWakeup | src/lwlock.cpp:56-74 | in every run, while a thread sleeps some other one holds the lock with word 2, owes a wake, or is about to swap in 2 |
| LwLock.AcquireHolds | src/lwlock.cpp:48-67 | in every run, from an acquire to the release a thread is not idle, and when it is not in the call any more it alone holds the lock |
| LwLock.ReleaseFrees | src/lwlock.cpp:69-75 | a release leaves the lock free, and its thread does not hold it again without another acquire |
| LwLock.Uncontended | src/lwlock.cpp:48-75 | without contention, acquire and release are one exchange each and leave everything as it was |
| LwLock.ContenderSleeps | src/lwlock.cpp:56-74 | a contender of a held lock is put to sleep, and the release must then wake somebody |
| LwLock.TriesAgain | src/lwlock.cpp:56-67 | whoever comes out of the wait tries the swap again, and has the lock if it is free |
| QueueInvariant.PushCasHits | src/queue.cpp:34-39 | a push exchange succeeds only on the slot at wr_idx, when no other push is between exchange and bump |
| QueueInvariant.PopCasHits | src/queue.cpp:55-60 | a pop exchange succeeds only on the slot at rd_idx of the installed array while nobody grows it, and takes a value |
| QueueInvariant.FirstMarkHits | xrcu/queue.hpp:318-327 | the first mark of a growth hits the slot at rd_idx of the installed array, with no other grower and no pop under way |
| QueueInvariant.GrowerKept | xrcu/queue.hpp:357-359 | what a growing thread has seen and marked does not change under it: the array is frozen for pushes and pops |
| QueueInvariant.InstalledOk | xrcu/queue.hpp:345-362 | an array grown from one that was not drained is well formed, and everything fits |
| QueueInvariant.InstalledContents | xrcu/queue.hpp:357-362 | the grown array holds what was left in the old one in order, or the FREE sentinel if it was drained, and then the pushed value |
| QueueInvariant.ReplacedArr | xrcu/queue.hpp:357-365 | a replaced array stays frozen |
| QueueInvariant.AllocFailKept | xrcu/queue.hpp:350-355 | a failed allocation undoes the mark and leaves the array usable |
| QueueInvariant.AlwaysInBounds | xrcu/queue.hpp:311-414 | no thread indexes outside its array |
| QueueInvariant.InvStep | src/queue.cpp:26-66 | every step but the installation of an array grown from a drained one keeps the invariant of all arrays and threads |
| QueueTheorems.Linearizes | xrcu/queue.hpp:369-414 | every step acts on the abstract queue as its event says: a push appends, a pop takes the first element, an empty answer is given of an empty queue, nothing else changes it |
| QueueTheorems.GrowthIsPushIff | xrcu/queue.hpp:357-366 | a growth appends the pushed value if and only if rd_idx < cap when the slot was marked; otherwise the queue becomes the sentinel and the value |
| QueueTheorems.SlotsMoveForward | src/queue.cpp:26-66 | slots move only from FREE to a value to DELT |
| QueueTheorems.OneOwner | src/queue.cpp:37-39 | of one array, at most one push and one pop are between exchange and bump, and at most one thread is the grower |
| QueueTheorems.Fifo | xrcu/queue.hpp:369-414 | as long as no array has been grown from a drained one, what was popped is a prefix of what was pushed and the queue holds the rest |
| QueueTheorems.DrainedBreaks | xrcu/queue.hpp:357-366 | after the first growth from a drained array this no longer holds |
| QueueTheorems.FifoIff | xrcu/queue.hpp:357-414 | a run is first in, first out at every point if and only if it never grows a drained array |
| QueueTheorems.EmptyAnswers | src/queue.cpp:51-53 | a pop answers "empty" at a moment at which everything pushed has been popped |
| QueueTheorems.TakesEffectOnce | xrcu/queue.hpp:369-414 | each operation takes effect once between its call and its return, but for a push whose allocation failed |
| QueueCalls.PushCall | xrcu/queue.hpp:369-384 | the first effect of a thread after push(v) is that of pushing v, unless its allocation fails, and it returns with that effect and not before |
| QueueCalls.PopCall | xrcu/queue.hpp:393-414 | the first effect of a thread after pop is that of a pop or of an empty answer |
| QueueCalls.PopReturns | src/queue.cpp:55-62 | what a pop returns is the element that its exchange has taken |
| QueueCalls.CallsFifo | xrcu/queue.hpp:369-414 | the values of the calls, in the order of their effects, are the elements taken by pops followed by those left in the queue |
| QueueCalls.GrowsIff | src/queue.cpp:30-36 | a push turns to growing exactly when it finds the array full or meets a mark, and then the array is full |
| QueueAlone.PushEnds | xrcu/queue.hpp:316-378 | a push that nobody interferes with comes to its end in a bounded number of steps, growth included |
| QueueAlone.PopEnds | src/queue.cpp:45-66 | a pop that nobody interferes with comes to its end within six steps |
| QueueAlone.EndsUnlessBlocked | xrcu/queue.hpp:316-414 | while all others are idle, a waiting push or pop comes to its end alone if and only if it is not blocked |
| QueueBlocked.DeadMarkIff | xrcu/queue.hpp:318-327 | the marking step leaves a mark for good exactly if it meets a deleted slot |
| QueueBlocked.BlockedIff | xrcu/queue.hpp:329-341 | while nobody grows the installed array, a waiting push is blocked if and only if its slot is marked |
| QueueBlocked.BlockedStays | xrcu/queue.hpp:316-414 | no step but an installation ends such a wait, of a push or of a pop |
| QueueBlocked.LeavesIff | xrcu/queue.hpp:316-414 | over runs, a blocked push or pop leaves its loop if and only if an array is installed |
| QueueBlocked.PushBlocked | xrcu/queue.hpp:316-342 | a run of one push and one pop, capacity 1, at whose end the push waits for its own mark and nobody else runs |
| QueueBlocked.PopBlocked | xrcu/queue.hpp:343-414 | a run at whose end a pop of a non-empty queue waits for a growth whose allocation has failed |
| QueueMemory.NeverTouched | xrcu/queue.hpp:363-365 | in every run, no thread works on an array that has been destroyed, and the installed one is never destroyed |
| QueueMemory.ArrayDestroyedOnce | xrcu/queue.hpp:363-365 | no array is destroyed twice |
| QueueMemory.SameQueues | xrcu/queue.hpp:363-365 | with destruction the queue reaches no other states than without |
| QueueMemory.AllRetired | xrcu/queue.hpp:363-365 | as long as no drained array is grown, every replaced array, and no other, can be destroyed |
| QueueDrained.SentinelPopped | xrcu/queue.hpp:318-358 | a run with capacity 1 in which a pop takes the FREE sentinel |
| QueueData.QData.Push | src/queue.cpp:26-45 | fills the slot at wr_idx and appends to the queue, unless the array is full, and keeps the invariant of the step relation |
| QueueData.QData.Pop | src/queue.cpp:47-66 | takes the first element, or finds the queue empty, and keeps the invariant of the step relation |
| QueueData.RegrownArr | xrcu/queue.hpp:345-362 | the slots that a growth copies, with the new element, make a well-formed array with the same queue and the element, if the old array was not drained |
| QueueData.GrowingQueue.CopyMarked | xrcu/queue.hpp:357-359 | copies the slot at rd_idx and the rest of the array, and marks exactly what it copies |
| QueueData.GrowingQueue.Rearm | xrcu/queue.hpp:311-367 | installs an array of twice the size that holds the queue and the element, or the sentinel and the element if the old array was drained; the old array stays frozen |
| QueueData.GrowingQueue.Push | xrcu/queue.hpp:369-378 | appends to the queue, growing a full array, unless it is drained |
| QueueData.GrowingQueue.Pop | xrcu/queue.hpp:393-414 | returns the first element, or none exactly if the queue is empty |
| StackInvariant.PopHits | src/stack.cpp:86-93 | a pop exchange succeeds only on the first node of a stack whose spin bit is clear, and writes the node after it although that was read before |
| StackInvariant.SpecKept | src/stack.cpp:48-135 | nodes of a stack from which nothing is taken keep their links |
| StackInvariant.HeadStep | src/stack.cpp:48-135 | every step keeps each head leading through its abstract stack, and the stacks disjoint |
| StackInvariant.SafeKept | src/stack.cpp:82-100 | a node that a popper holds is neither destroyed nor relinked under it |
| StackInvariant.NewGarbage | xrcu/stack.hpp:331-342 | what is finalized is one popped node with a null link, or the whole chain of a cleared stack, and none of it was retired before |
| StackInvariant.DestroyExact | xrcu/stack.hpp:175-183 | the walk of a destruction visits exactly the chain that was retired |
| StackInvariant.InvStep | src/stack.cpp:48-135 | every step of push, batch push, pop, swap and clear, weak failures included, keeps the invariant |
| StackTheorems.Linearizes | src/stack.cpp:48-135 | every step acts on the abstract stacks as its event says, swap at its second set_spin; a pop returns the first node, "empty" is said of an empty stack, a clear returns the whole chain |
| StackTheorems.PhysicalStack | src/stack.cpp:48-135 | a head whose spin bit is clear leads through exactly its abstract stack; stacks share no node and repeat none |
| StackTheorems.AlwaysTouchable | src/stack.cpp:82-100 | no thread touches a destroyed node |
| StackTheorems.TakenOnce | src/stack.cpp:82-135 | each pushed node leaves the stacks at most once, by a pop or by a clear |
| StackTheorems.DestroyedOnce | xrcu/stack.hpp:175-183 | the chain walks of two destructions never meet |
| StackTheorems.TakesEffectOnce | src/stack.cpp:48-135 | each operation takes effect exactly once between its call and its return |
| StackCalls.CallTakesEffect | src/stack.cpp:48-135 | in every run, the first effect of a thread after a call of push, batch push, pop, swap or clear is that of the call, on the stacks and with the nodes that it names, and it does not return before |
| StackCalls.PopReturns | src/stack.cpp:82-100 | what a pop returns is the node that it has taken |
| StackAlone.RunsToItsEnd | src/stack.cpp:48-135 | from every reachable state in which the spin bits of its stacks are clear, a call that runs alone takes its effect and returns within six steps |
| StackMemory.NothingForgotten | xrcu/stack.hpp:331-342 | in every run, a retired node is in a finalized chain, and its memory is given back exactly when that chain is destroyed |
| StackMemory.TakenIsRetired | src/stack.cpp:82-135 | every node that a pop or a clear has taken is retired once its thread has unlinked it |
| StackBlocked.DeadlockStays | src/stack.cpp:102-135 | no step of any thread ends a deadlock of any set of threads |
| StackBlocked.DeadlockedForGood | src/stack.cpp:102-135 | a deadlock lasts for the rest of every run |
| StackBlocked.OrderedSwapsNeverDeadlock | src/stack.cpp:120-128 | a run whose swaps all name their heads in ascending order never gets into a deadlock |
| StackBlocked.SwapsDeadlock | src/stack.cpp:120-128 | a run of two swaps into a deadlock |
| StackNodes.CleanNodes | xrcu/stack.hpp:175-183 | destroys each node of the chain once and in order, and reads no node after its destruction |
| StackNodes.PoppedAlone | xrcu/stack.hpp:331-342 | a node is destroyed alone if and only if its link is null |
| StackNodes.StackHead.Push | src/stack.cpp:48-61 | puts the node in front of the stack |
| StackNodes.StackHead.PushChain | src/stack.cpp:63-80 | puts the chain in front of the stack, in order |
| StackNodes.StackHead.Pop | src/stack.cpp:82-100 | takes the first node off and cuts its link, so that it is a chain of its own |
| StackNodes.StackHead.Clear | src/stack.cpp:130-135 | leaves an empty stack with a clear spin bit and returns the whole chain |
| StackNodes.Swap | src/stack.cpp:120-128 | exchanges the two stacks and leaves both spin bits clear |
| Primes.PrimesAreGood | src/hash_table.cpp:29-42 | every table size exceeds 7, has no common factor with 2, 3, 5 or 7, and is at least three times the one before |
| Primes.FindHsize | src/hash_table.cpp:49-63 | finds the smallest size that is not below the one asked for, and its limit |
| Probing.NoShortCycle | xrcu/hash_table.hpp:95-100 | fewer than n steps of 2, 3, 5 or 7 are never a multiple of the table size n |
| Probing.PosInjective | xrcu/hash_table.hpp:435-438 | n probes in a row, each with one conditional subtraction, visit different slots |
| Probing.SecondProbesDiffer | xrcu/hash_table.hpp:95-100 | hash codes that meet in one slot go on to different slots if they differ modulo 4 |
| Probing.Coverage | xrcu/hash_table.hpp:435-438 | the first n probes visit every slot exactly once |
| Probing.BackAtStart | xrcu/hash_table.hpp:440-441 | the test that ends a fruitless probe holds after n steps and not before |
| HashSlots.ProbeMisses | xrcu/hash_table.hpp:440-451 | a probe that meets a FREE slot or its start has shown that the key is absent |
| HashSlots.FullCircle | xrcu/hash_table.hpp:440-441 | a probe that comes back to its start has met no FREE slot anywhere |
| HashSlots.Filled | xrcu/hash_table.hpp:623-628 | filling the FREE slot found for an absent key adds the pair to the map and keeps keys unique and reachable |
| HashSlots.Replaced | xrcu/hash_table.hpp:595-600 | exchanging a value changes the map at that key only |
| HashSlots.Deleted | xrcu/hash_table.hpp:683-697 | a tombstone removes the key and cuts no probe path |
| HashSlots.CopyOne | xrcu/hash_table.hpp:496-508 | one step of a rehash adds one pair to what the new array denotes |
| HashSlots.CopiedAll | xrcu/hash_table.hpp:496-510 | the pairs that a rehash copies are the whole map |
| HashSlots.AllItems | xrcu/hash_table.hpp:170-186 | the pairs that the iterator accepts are those of the map, each key once, and as many as the live slots |
| HashSlots.NextSizeHasRoom | xrcu/hash_table.hpp:512-514 | the limit of the next table size exceeds any number of pairs of the current one and stays below the size |
| HashSlots.LimitIs | xrcu/hash_table.hpp:287-290 | a limit is the largest whole number of entries within the load factor |
| HashTable.ProbeAnswers | xrcu/hash_table.hpp:418-452 | what a probe returns tells whether the map has the key; a probe for insertion never comes back without a slot |
| HashTable.HashTable.constructor | xrcu/hash_table.hpp:351-367 | makes a valid table of at least the size asked for, with the empty map; load factors outside [0.4, 0.9] become 0.85 |
| HashTable.HashTable.SetLoadFactor | xrcu/hash_table.hpp:331-344 | changes the load factor if it is in range, and nothing else |
| HashTable.HashTable.Probe | xrcu/hash_table.hpp:418-452 | ends, at the first slot on the path of the key that is FREE or holds it, or after all slots |
| HashTable.HashTable.GProbe | xrcu/hash_table.hpp:461-480 | ends at the first FREE slot on the path, given that some slot is FREE |
| HashTable.HashTable.Find | xrcu/hash_table.hpp:527-544 | answers as the map does |
| HashTable.HashTable.Has | xrcu/hash_table.hpp:552-556 | answers as the map does |
| HashTable.HashTable.Rehash | xrcu/hash_table.hpp:482-525 | preserves the map, drops every tombstone, leaves a positive budget, marks every value of the old array and changes nothing else in it; does nothing if the budget is positive |
| HashTable.HashTable.MoveSlots | xrcu/hash_table.hpp:496-510 | the loop of a rehash copies the whole map into the new array and counts it |
| HashTable.HashTable.DecrLimit | xrcu/hash_table.hpp:558-573 | takes one off a positive budget |
| HashTable.HashTable.TryUpsert | xrcu/hash_table.hpp:580-634 | one round: stores the pair and takes one off the budget if the key is new, or finds the key absent and the budget spent |
| HashTable.HashTable.Upsert | xrcu/hash_table.hpp:575-639 | ends within two rounds, stores the right value, says whether the key was new, keeps the free-slot reserve, rehashes exactly for a new key without budget, and leaves a budget that tells when the next rehash will come |
| HashTable.HashTable.InsertNew | xrcu/hash_table.hpp:575-654 | new keys within the budget take one slot each and leave the table at its size |
| HashTable.HashTable.WithinLoadFactor | xrcu/hash_table.hpp:558-634 | the share of the slots in use stays within the load factor, and the next new key moves the table exactly if one more would exceed it |
| HashTable.HashTable.Insert | xrcu/hash_table.hpp:641-654 | stores the value for a new or a present key, says which, and accounts for size and budget |
| HashTable.HashTable.Update | xrcu/hash_table.hpp:656-661 | applies the function to the present or the default value, and accounts for size and budget |
| HashTable.HashTable.Remove | xrcu/hash_table.hpp:663-714 | removes the key from the map and returns what it had; the slot still counts as used |
| HashTable.HashTable.Size | xrcu/hash_table.hpp:401-405 | the number of pairs of the map |
| HashTable.HashTable.Clear | xrcu/hash_table.hpp:814-839 | empties the map and all slots; the budget is computed from the number of pairs that were stored, and is positive if and only if that number times the load factor is at least 1 |
| HashTable.HashTable.ClearThenInsert | xrcu/hash_table.hpp:575-839 | an insertion after a clear moves to the next size if and only if the pairs stored before, times the load factor, make less than 1 |
| HashTable.HashTable.InsertAndClear | xrcu/hash_table.hpp:575-839 | n rounds of one insertion and one clear move the table n sizes up |
| HashTable.HashTable.InsertAndRemove | xrcu/hash_table.hpp:575-714 | rounds of one insertion and one removal move a table without pairs to the next size exactly when there is one more of them than its budget |
| HashTable.HashIter.Adv | xrcu/hash_table.hpp:170-186 | moves to the next pair in slot order, or to the end |
| HashTable.HashTable.Pairs | xrcu/hash_table.hpp:768-776 | iteration yields each pair of the map exactly once |
| HashTable.Make | xrcu/hash_table.hpp:363-367 | a table over the real table of sizes is valid |
| SkipLevels.LinkLevel | xrcu/skip_list.hpp:479-492 | storing a node between the predecessor and the successor of its place keeps a level right |
| SkipLevels.UnlinkLevel | xrcu/skip_list.hpp:387-390 | swinging the predecessor past a marked node takes it, and nothing else, out of a level |
| SkipLevels.ChainAscends | xrcu/skip_list.hpp:374-408 | the links of a level are strictly sorted |
| SkipLevels.ChainHolds | xrcu/skip_list.hpp:374-408 | a level holds exactly the nodes that reach it |
| SkipLevels.UpperLevel | xrcu/skip_list.hpp:354-417 | each level is the sublist of the one below whose nodes reach it |
| SkipList.SkipList.constructor | xrcu/skip_list.hpp:222-235 | makes a valid empty list whose root has one level more than the depth, which is at most 24 |
| SkipList.SkipList.WalkLevel | xrcu/skip_list.hpp:374-408 | stops at the place of the key; a forced walk unlinks the marked node of that key on this level |
| SkipList.SkipList.FindPreds | xrcu/skip_list.hpp:354-417 | finds the key if and only if it is there, with predecessor and successor on each level asked for; a forced search unlinks the marked node from every level |
| SkipList.SkipList.Find | xrcu/skip_list.hpp:419-430 | answers with an equivalent key if and only if the list has one |
| SkipList.GrantedIff | xrcu/skip_list.hpp:81-101 | which counts of zeros get which level, and which raise the high-water mark |
| SkipList.SkipList.RandLvl | xrcu/skip_list.hpp:81-101 | grants that level, at least 1 and at most the current high-water mark, and raises the mark by at most one, up to 24 |
| SkipList.SkipList.NewNode | xrcu/skip_list.hpp:475-478 | a new node points to the successors of its place and is in no level yet |
| SkipList.SkipList.LinkNode | xrcu/skip_list.hpp:480-505 | the node is on all its levels afterwards, and the list valid |
| SkipList.SkipList.Insert | xrcu/skip_list.hpp:463-514 | adds the key if and only if no equivalent one is there, whatever level is drawn |
| SkipList.SkipList.MarkNode | xrcu/skip_list.hpp:534-551 | all links of the node, and no others, carry the mark afterwards |
| SkipList.SkipList.Erase | xrcu/skip_list.hpp:522-572 | removes the equivalent key if and only if there is one; no marked node stays linked |
| SkipList.SkipList.Size | xrcu/skip_list.hpp:603-608 | the number of keys |
| SkipList.SkipList.Clear | xrcu/skip_list.hpp:704-709 | an empty list whose root has one level less than a new one's |
| SkipList.SkipList.LevelsNest | xrcu/skip_list.hpp:354-417 | in every valid list, level 0 holds all keys in strict order and each level is a sublist of the one below |
| SkipList.SkipList.Elements | xrcu/skip_list.hpp:291-304 | iteration yields each key once, in ascending order |
| SkipList.FromKeys | xrcu/skip_list.hpp:237-244 | a run of insertions with any draws builds a valid list of the keys given, at depth 19 or more |
| SkipList.RootSuffices | xrcu/skip_list.hpp:81-101 | the high-water mark stays within a root of n levels for all draws if and only if n is at least 20 |
| SkipList.DepthSuffices | xrcu/skip_list.hpp:222-230 | so for all draws if and only if the depth is at least 19, or 20 for a list that has been cleared |
| Upsize.SmearPlusOne | xrcu/utils.hpp:164-175 | below 2^63 the result is the least power of two above the argument; from there on it is 0 |
| Upsize.Upsize | xrcu/utils.hpp:164-175 | the shifting steps compute that number |
| Upsize.RoomIff | xrcu/queue.hpp:238-241 | the capacity exceeds the size if and only if the size is below 2^63 |
| Upsize.SizedQueue | xrcu/queue.hpp:238-258 | all n writes of the sized constructor fit and leave room, the array is well formed and every other slot is FREE |
| Traits.RoundTrip | xrcu/utils.hpp:100-116 | a small integer survives its encoding, marked or not, and is never FREE or DELT |
| Traits.Specials | xrcu/utils.hpp:103-105 | FREE and DELT differ, carry no XBIT, and come back when the XBIT is masked |

## Left out

- RcuTheorems.GracePeriod: assumes sequentially consistent accesses; fences, memory orders and inline assembly are not modelled.
- RcuTheorems.Reclamation: objects have no bodies, so destructors that finalize further objects are not modelled.
- QueueMemory.NeverTouched: the destruction of arrays is enabled by the end of the operations that were running at the installation; `RcuTheorems.LaterSections` shows that the runtime waits for these, but the two step relations are not composed.
- ReaderWord.PackedEnter: the step relation leaves out the entry at nesting count 2^63 - 1 that this lemma shows to corrupt the phase.
- RingPolls.PollReaders: may run out of passes before it ends, where the source waits for as long as it takes; `ReaderRings.PollEnds` says when it ends.
- RingPolls.SyncRings: the same; its passes see any view of the readers, which the step relation in `Rcu.dfy` ties to their words.
- QueueTheorems.Fifo: only up to the first growth from a drained array; `QueueTheorems.FifoIff` shows that exactly such a growth breaks it.
- StackTheorems.AlwaysTouchable: node names are never used again, so the reuse of an address between the two steps of a `clear`, which runs outside critical sections, is not modelled.
- HashTable.HashTable.Upsert: requires room in the table of sizes (a present key, a positive budget, or a next size); the source reads past the table of sizes otherwise.
- HashTable.HashTable.Rehash: sequential; the key is read before the value is marked, so interleaved insertions are not covered.
- HashTable.HashTable.Find: keys are compared by equality; the source takes any `eqfn` with a hash function that agrees with it.
- Primes.FindHsize: requires a size of at most the last entry; the source reads past the table for larger ones.
- SkipList.SkipList.Insert: sequential; the branches that only a concurrent removal can take are shown not to be taken. It requires that the mark stays within the root, which `SkipList.DepthSuffices` settles for all draws.
- SkipList.SkipList.FindPreds: comparison is by a rank in the real numbers, which fits every strict weak order on countably many keys.
- Finalizers.TlData.FlushAll: the grace period that it waits for is the subject of `RcuTheorems.Reclamation`.
- QueueData.GrowingQueue.Push: run without interference, so retries are shown not to be needed; `QueueTheorems.Linearizes` is about all interleavings. The same holds for the methods of `StackNodes.StackHead`.
- The lock is a step relation only: alone, acquire and release just store 1 and 0.
- QueueBlocked.LeavesIff: for runs without the growth of a drained array up to the wait.
- StackBlocked.OrderedSwapsNeverDeadlock: a deadlock is a set of threads that wait in `set_spin`, in a pop or in a batch push; a single push that retries is not counted as waiting.
- RcuAlone.SyncEnds: progress is proved for threads that run alone and, in the modules named `...Blocked`, for what never ends; that waiting loops end under a fair scheduler is not modelled. The same holds for `QueueAlone` and `StackAlone`, whose exchanges do not fail spuriously.
- Hash-table swap, move and assignment, which compute the growth budget without the slots in use.
- Queue clear, assignment and swap, front, back and iteration; stack top, size and the constructor from a count.
- Skip-list lower_bound, upper_bound, assignment and swap, and removal while other threads are active.
- Load factors are real numbers; rounding of floating-point numbers is not modelled.
- The fallback lock without futexes, spin hints and sleeps, fork handlers, MinGW support, random numbers (their trailing zeros are parameters), versions, and exceptions other than a failed growth of a queue.
- The double-width exchange of the hash table is one step; its fallback with two exchanges is not modelled.
- Wrapped values that live behind pointers: only the encoding of small integers is modelled.
