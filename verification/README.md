# Verified models of the photonlib runtime

This project models seven parts of a small user-space runtime and proves what they are for, over all
inputs and all runs.  Each part has pure definitions of its data and steps, lemmas about them, and,
where the program updates objects in place, classes whose methods are proved against those
definitions.

| part | files |
|---|---|
| cooperative scheduler | `SchedProtocol` (the steps), `SchedSafety` (what each step keeps), `SchedTheorems`, `SchedJoin` (`thread_join`), `Scheduler` (the code, on the heap of `SleepQueue`) |
| sleep queue and intrusive ring | `SleepQueue` (the binary heap with back-indices), `Ring` (the circular list) |
| synchronisation | `Mutex`, `Semaphore`, `RwLock`, `CondVar` |
| out-of-order RPC engine | `OooProtocol`, `OooSafety`, `OooTheorems`, `OooDiscipline` (what is asked of callers, and why), `OooWaiting`, `OooEngine` (the code) |
| expiring object cache | `CacheProtocol`, `CacheSafety`, `CacheTheorems`, `CacheCooldown`, `ObjectCache` |
| scatter/gather vectors and serialization | `Iov` (values), `IovView`, `IovCopy`, `IovTransfer`, `IoVector` (in place), `Serialize` (the two passes), `Layout` (messages in memory), `Archive` (the code) |
| nested generators | `Generator` (meaning and machine), `GeneratorLoops`, `GeneratorPromises` (the linked promises) |
| HTTP headers | `HeaderOrder`, `HeaderText`, `HeaderIndex`, `HeaderStore`, `HeaderParse`, `HeaderEnd` |
| chunked bodies | `ChunkedCode` (the coding), `Chunked` (the writer), `ChunkedMachine` (the reader as functions), `ChunkedPhases`, `ChunkedTheorems`, `ChunkedRuns`, `ChunkedReader` (the code) |

`Common` holds what several of them use.  `dafny verify dfyconfig.toml` checks everything.

## How the program is represented

- A protocol is a state machine.  One event is the code between two context switches, and any READY
  thread may take the next one, so every order the scheduler can produce is among the runs.  The
  clock is an input that never goes back.  The mutex, the semaphore and the reader-writer lock let any
  queued waiter time out, or be interrupted with any error, at any moment.
- Pointers into buffers are addresses in one flat memory (`IovView.Memory`); `malloc` returns new
  addresses.  The meaning of a vector is the sequence of its bytes.
- A message is bytes in that memory, and a field a struct in it: a pointer, a length and, for an array of
  segments, their sum, in words of eight bytes.  The segments themselves are a value.
- A ring is described by the sequence of its nodes; the links themselves are fields of heap objects.
- Header text is a sequence of characters in an array; the index in the same buffer is a sequence of
  entries that is counted with eight bytes each.
- What comes from outside is a parameter: the body behind a response header, what a start line parses
  to, the pieces in which a socket delivers its bytes.

## What the program does not do

These came out of the proofs; the model follows the code.

- Out-of-order engine: a thread queued for one operation while another of its own is unanswered is let
  in without the lock by the interrupt meant for the other one, and two threads read the stream
  (`OooDiscipline.TwoOperationsPerThreadBreakExclusion`).  Exclusion is proved for callers that queue only
  when the operation is answered or their others are collected.  Nothing less is enough, but for callers
  that queue behind a thread on its way out while the engine shuts down, where it was not asked
  (`OooDiscipline.QueueingIsSafeIff`).
- Out-of-order engine: a thread whose result is there can still sleep in the queue for the lock, behind a
  reader that waits for an answer (`OooWaiting.FallsAsleepIff`, `OooWaiting.SleepsOnIff`,
  `OooWaiting.ServedThreadQueues`).
- `thread_join` does not look at the state of the thread again when its wait is over; a joiner that is
  interrupted, by `thread_shutdown` for one, frees a thread that is still in the scheduler's lists
  (`SchedTheorems.InterruptedJoinFreesASleeper`, `SchedSafety.JoinKeepsIff`,
  `SchedSafety.JoinHarmlessIff`).  Uninterrupted joiners are fine (`SchedJoin.JoinWaitsForTheEnd`).
- Semaphore: an interrupt from outside that carries ECANCELED looks like a signal; it can strand the
  next waiter (`Semaphore.InterruptLosesIff`, `Semaphore.OutsideCancelStrands`,
  `Semaphore.StrandedIsReached`).
- Mutex: the comment that contended locks are granted in order of arrival (co.h:136-137) does not
  hold (`Mutex.LaterIsServedFirst`, `Mutex.WokenMayLoseTheRace`); it does exactly when nobody asks, or
  comes back from an interrupt with ECANCELED, between an unlock and the run of the thread it has woken
  (`Mutex.ArrivalOrderIff`).
- Reader-writer lock: `lock()` does not look at the state again after its wait, so a reader and a writer
  can be in together, even if all take their turns (`RwLock.TurnsBreakExclusion`).  What has to be asked
  of each step is exact (`RwLock.CarefulIsExact`).
- Object cache: the cooldown after a failed construction does nothing for an item with one holder, which
  forgets the failure when it gives its reference back (`CacheCooldown.FailureIsRememberedIff`,
  `CacheCooldown.CooldownIsForgotten`).
- `memcpy_iov` does not end when an empty segment comes to the front with bytes still to copy
  (`IovTransfer.EndsIff`).
- Chunked reader: a line that is used up can stay in the buffer, and `get_new_chunk` then searches from
  the front and finds it again (`ChunkedPhases.GetNewMid`, `ChunkedRuns.UsedUpLineIsReadAgain`); that
  takes a piece that ends at the end of a chunk-size line, which `read_from_line_buf` clears, but
  `get_new_chunk` does not (`ChunkedRuns.FirstLineIsCleared`).  When a read asks for more than there is
  and the end of the last line is cut off, that end is taken off the socket twice, and the socket is
  closed (`ChunkedTheorems.ReadMid`, `ChunkedTheorems.CutTailCloses`).
- Chunked writer: sizes from 2 to the 28 on do not fit the ten bytes of the size line
  (`Chunked.SizeLineIff`).
- Header parser: spaces at the start of a value are lost (`HeaderParse.LeadingSpaceIsLost`).
- Header parser: a line without a colon goes on into the next one that has one, past the header's end
  (`HeaderEnd.LinesEndIff`, `HeaderEnd.KeySwallowsBody`).
- Sleep queue: `pop_front` on a heap of one sifts an empty vector, and leaves the index of the thread
  it returns stale; back-indices are promised for members only, and the sift is guarded.
- `CURRENT` need not be RUNNING: after an idle sleep, or after the end of a thread nobody may join, it
  keeps the state it had (`SchedTheorems.CurrentRunsIff`, `SchedTheorems.CurrentNeedNotRun`).
- `condition_variable::wait(mutex&)` ignores the result of its last `lock()`, which an interrupt can
  make fail, and then returns without the mutex (`CondVar.ReturnsUnlockedIff`,
  `CondVar.WaitLosesTheMutex`).

## Assumptions

- Out-of-order engine: a response comes only after its request was sent, at most one for each
  registered tag; on -2 the caller drops the orphan's body; no thread outside interrupts, and the
  interrupt for a collected operation does not disturb a `do_issue` of its thread; tags do not wrap.
- Joining (`SchedJoin`): a thread has one joiner, not itself; nobody interrupts a joiner, and its wait of
  2 to the 64 microseconds does not run out.  The runs of `SchedSafety.RunKeeps` only ask that each join
  finds its thread finished.
- Headers: `kv_add_sort(...) - kv_begin()` (headers.cpp:96-97) is evaluated from left to right; the
  first call moves what the second one returns.
- Object cache: callers release only what they hold; no thread outside interrupts; the address of a
  new item is not that of a living one.
- Idle sleeping does nothing to the queues, as the default idle sleeper; interrupts from it are events.
- Serialization: the receiver's allocations succeed; the lengths of an array's segments add up to less
  than 2 to the 64; no field of a message points at one of the sums that are written into it.
- `ISocketStream::read` returns all the bytes asked for while that many are to come.
- A generator passed to `elements_of` has not been started.

## Model

| member | source | states |
|---|---|---|
| `SchedTheorems.Partition` | common/photonlib/co.cpp:315-642 | after any run from init() in which every join finds its thread finished: CURRENT exists, every thread that exists is in exactly one of run ring, sleep queue and DONE, sleepers are WAITING and never CURRENT, a thread stands in a wait queue exactly when its waitq names it and then also sleeps, and the main thread is in the ring or asleep |
| `SchedTheorems.OneListAtATime` | common/photonlib/co.cpp:119-125 | the assertions of dequeue_ready and enqueue_wait (line 303) hold over those runs: no thread is ever in two lists, one in a wait queue names just that one, a sleeper that names none is in no list, and CURRENT names none |
| `SchedTheorems.CurrentRunsIff` | common/photonlib/co.cpp:315-621 | from a RUNNING CURRENT, the next one is RUNNING exactly when the step is neither the head of a sleep nor the end of a thread that nobody may join |
| `SchedTheorems.CurrentNeedNotRun` | common/photonlib/co.cpp:330-345 | and a run from init() to each: a CURRENT that is READY, and one that is WAITING after its sleep is over |
| `SchedTheorems.InterruptedJoinFreesASleeper` | common/photonlib/co.cpp:629-651 | a run from init() in which an interrupted joiner gives back the memory of a thread that is still in the sleep queue |
| `SchedTheorems.LastRunnerHasSleepers` | common/photonlib/co.cpp:315-340 | a thread alone in the ring that is not the main thread always leaves the main thread in the sleep queue, so the end of a thread never makes CURRENT null |
| `SchedTheorems.ResumesExactlyTheDue` | common/photonlib/co.cpp:404-420 | resume_sleepers wakes exactly the sleepers whose time has come, each once, in order of wake-up time, behind the threads already in the ring; the others sleep on |
| `SchedTheorems.ResumesTerminates` | common/photonlib/co.cpp:404-420 | resume_sleepers always finishes |
| `SchedTheorems.InterruptUndoesPark` | common/photonlib/co.cpp:560-621 | an interrupt takes a park back: the thread is READY at the tail of the ring with its error, and the wait queue is what it was, in the same order |
| `SchedTheorems.ResumeTakesTheOldest` | common/photonlib/co.cpp:721-728 | after any run, the waiter that resume_one takes arrived at its wait queue before every other one that waits there, and the others stay in their order |
| `SchedTheorems.WaitersInOrder` | common/photonlib/co.cpp:300-310 | after any run, those in one wait queue stand in the order in which they last came |
| `SchedSafety.StepKeeps` | common/photonlib/co.cpp:315-642 | every step of the scheduler keeps the partition invariant, the end of a join as long as the joined thread has finished |
| `SchedSafety.RunKeeps` | common/photonlib/co.cpp:315-642 | every such run keeps it |
| `SchedSafety.JoinKeepsIff` | common/photonlib/co.cpp:629-641 | the end of thread_join, which does not look at the state again, keeps the invariant exactly when the thread is not asleep, not CURRENT and not the main thread |
| `SchedSafety.JoinHarmlessIff` | common/photonlib/co.cpp:629-641 | and it keeps the invariant without taking away a thread that has still to run exactly when that thread is DONE |
| `SchedJoin.JoinWaitsForTheEnd` | common/photonlib/co.cpp:629-641 | over every run in which nobody interrupts a joiner and a thread has one joiner: thread_join returns only when its thread is DONE, and what it gives back is in no list |
| `SchedJoin.JoinerIsWoken` | common/photonlib/co.cpp:317-345 | over those runs the end of a thread puts its joiner back into the ring |
| `SchedJoin.MoveKeeps` | common/photonlib/co.cpp:315-642 | a joiner waits on the condition variable of its thread until that has finished: every move of a joiner, a joined thread or anybody else keeps that, and the partition |
| `SchedJoin.RunKeeps` | common/photonlib/co.cpp:315-642 | every run does |
| `Scheduler.Vcpu.constructor` | common/photonlib/co.cpp:904-920 | init() leaves the main thread alone and RUNNING in the ring |
| `Scheduler.Vcpu.ThreadCreate` | common/photonlib/co.cpp:360-380 | a new thread is READY at the tail of the ring |
| `Scheduler.Vcpu.Dequeue` | common/photonlib/co.cpp:119-129 | the thread is READY at the tail of the ring and in no wait queue, the others wait in the order they did, and the partition is kept |
| `Scheduler.Vcpu.ResumeSleepers` | common/photonlib/co.cpp:404-420 | the loop over the heap carries out the resume relation and returns how many it woke |
| `Scheduler.Vcpu.Yield` | common/photonlib/co.cpp:428-438 | switches to the next of the ring, after the due sleepers have come in if nobody else was there; comes back without switching only when alone with nobody due |
| `Scheduler.Vcpu.YieldTo` | common/photonlib/co.cpp:490-523 | switches to the named thread exactly when it is READY, and changes nothing otherwise |
| `Scheduler.Vcpu.ParkCurrent` | common/photonlib/co.cpp:562-583 | CURRENT leaves the ring for the sleep queue and the wait queue |
| `Scheduler.Vcpu.UsleepTurn` | common/photonlib/co.cpp:543-583 | one pass of the sleep loop parks exactly when there is another thread or a due sleeper; otherwise it changes nothing and says whether the time is up |
| `Scheduler.Vcpu.ThreadInterrupt` | common/photonlib/co.cpp:603-621 | READY and RUNNING threads are left alone; a sleeper comes to the ring with the error; CURRENT, found WAITING in an idle sleep, is only marked READY |
| `Scheduler.Vcpu.WaitqResumeOne` | common/photonlib/co.cpp:721-728 | resumes the front waiter with ECANCELED, or nobody |
| `Scheduler.Vcpu.StubEnd` | common/photonlib/co.cpp:315-358 | the end of a thread leaves the ring exactly when someone else is in it or due; otherwise there are sleepers to wait for, and the ring is never empty |
| `Scheduler.Vcpu.DisposeJoined` | common/photonlib/co.cpp:635-640 | the end of thread_join leaves the lists in order exactly when the thread is awake, not CURRENT and not the main thread |
| `SleepQueue.Sleepers.Up` | common/photonlib/co.cpp:212-229 | sifting up restores heap order, keeps every back-index, and keeps the threads; without a move nothing changes |
| `SleepQueue.Sleepers.Down` | common/photonlib/co.cpp:232-252 | sifting down restores heap order and every back-index, and keeps the threads |
| `SleepQueue.Sleepers.Push` | common/photonlib/co.cpp:163-170 | adds one thread to the multiset, in heap order |
| `SleepQueue.Sleepers.PopFront` | common/photonlib/co.cpp:172-181 | takes a thread that is due no later than any other; the rest stays a heap with right back-indices |
| `SleepQueue.Sleepers.Pop` | common/photonlib/co.cpp:183-201 | takes exactly the thread given, from any place, or refuses one that is not in; the rest stays a heap |
| `SleepQueue.Sleepers.FrontIsDueFirst` | common/photonlib/co.cpp:151-155 | the front of the heap is due no later than any member |
| `SleepQueue.HeapMinimum` | common/photonlib/co.cpp:211-252 | the root of a heap is a minimum |
| `Ring.Node.RemoveFromList` | common/photonlib/list.h:34-44 | what is left is a ring that starts at the follower, and the node is a ring of its own; null exactly when it was alone |
| `Ring.Node.InsertTail` | common/photonlib/list.h:45-52 | a single node joins at the tail; a node that is in a longer ring is refused and nothing changes |
| `Ring.Node.InsertAfter` | common/photonlib/list.h:53-56 | a single node joins behind this one |
| `Ring.Node.InsertListTail` | common/photonlib/list.h:57-64 | a whole ring joins at the tail, in its own order |
| `Ring.Node.InsertListAfter` | common/photonlib/list.h:65-68 | a whole ring joins behind this node, in its own order |
| `Ring.Node.Split` | common/photonlib/list.h:69-88 | two rings whose concatenation is the old one |
| `Ring.Node.SplitAndSplice` | common/photonlib/list.h:57-88 | splicing the second part back undoes a split |
| `Ring.Rotate` | common/photonlib/list.h:34-107 | a ring read from any of its nodes is the rotation of the sequence |
| `Ring.List.PushBack` | common/photonlib/list.h:241-248 | appends |
| `Ring.List.PushBackList` | common/photonlib/list.h:249-257 | concatenates, leaving the other list empty |
| `Ring.List.PushFront` | common/photonlib/list.h:258-264 | prepends |
| `Ring.List.PopFront` | common/photonlib/list.h:274-282 | removes and returns the first, or null |
| `Ring.List.PopBack` | common/photonlib/list.h:283-295 | removes and returns the last, or null |
| `Ring.List.Erase` | common/photonlib/list.h:296-301 | removes the node given and keeps the order of the rest; a node that is not in the list leaves its own ring, and the list stays as it was |
| `Ring.List.SplitFrontInclusive` | common/photonlib/list.h:332-345 | the front part up to and with the node, and the rest; nothing for null or from an empty list |
| `Ring.List.SplitFrontExclusive` | common/photonlib/list.h:346-360 | the front part before the node, and the rest; null takes all |
| `Ring.List.SplitByPredicate` | common/photonlib/list.h:361-375 | exactly the longest prefix that satisfies the predicate, which may read the nodes, and the rest in order |
| `Mutex.AtMostOneHolder` | common/photonlib/co.cpp:732-763 | over every run of locks, unlocks, barging, time-outs and interrupts with any error, at most one thread has a successful lock not yet undone, and owner names it |
| `Mutex.FreeMutexIsClaimed` | common/photonlib/co.cpp:732-763 | whenever owner is null with waiters queued, a thread woken by unlock, and not by an interrupt, is inside the retry loop; no other event takes it out, and its own run, the mutex still free, ends with success |
| `Mutex.RelockIsRefused` | common/photonlib/co.cpp:732-736 | the holder that locks again is refused without effect, so a locker that must lock would ask for ever |
| `Mutex.WokenMayLoseTheRace` | common/photonlib/co.cpp:738-752 | the lock is not granted in order of arrival: who asks between the unlock and the run of the woken thread gets it, and the woken thread queues behind the rest |
| `Mutex.LaterIsServedFirst` | common/photonlib/co.cpp:732-763 | a run from the start: 2 asks before 3, 1 unlocks, and 3 has the mutex |
| `Mutex.GivenAwayIff` | common/photonlib/co.cpp:732-763 | with a free mutex handed to one thread, the next event gives it to another exactly when that asks then, or comes back from an interrupt with ECANCELED |
| `Mutex.LineMoves` | common/photonlib/co.cpp:732-763 | without such an event the line of those who wait gains whoever joins it at its end, and loses one whose wait ends, or the first, who has the mutex then |
| `Mutex.ArrivalOrderIff` | common/photonlib/co.cpp:732-763 | in any run the mutex goes to those who wait in their order exactly when there is no such event between an unlock and the run of the thread it has woken |
| `Mutex.StepKeeps` | common/photonlib/co.cpp:732-763 | every event keeps the mutex invariant |
| `Mutex.RunKeeps` | common/photonlib/co.cpp:732-763 | every run keeps it |
| `CondVar.ReturnsUnlockedIff` | common/photonlib/co.cpp:807-813 | wait(mutex&) comes back without the mutex exactly when its last lock() has ended with an error other than ECANCELED, and what it returns says nothing of that |
| `CondVar.WaitLosesTheMutex` | common/photonlib/co.cpp:807-813 | a run from the start in which wait() returns 0 while another thread holds the mutex |
| `CondVar.RunKeeps` | common/photonlib/co.cpp:807-825 | over every run a thread asleep in wait() neither holds the mutex nor waits for it |
| `Mutex.Lockable.LockFrom` | common/photonlib/co.cpp:732-753 | lock() up to success, refusal or the first wait; a success adds the caller to the holders |
| `Mutex.Lockable.AfterWait` | common/photonlib/co.cpp:738-752 | lock() resumed: any errno but ECANCELED fails; with ECANCELED it has the lock exactly if there is no owner, and otherwise it waits again |
| `Mutex.Lockable.Release` | common/photonlib/co.cpp:755-763 | only the owner releases, and the front waiter is resumed |
| `Semaphore.CountIsConserved` | common/photonlib/co.cpp:826-853 | over every run the count is the initial one plus all signals minus all successful waits, and never below zero |
| `Semaphore.NoLostWakeup` | common/photonlib/co.cpp:826-853 | if only signal() resumes with ECANCELED: once no failed waiter still owes its signal(0), the front waiter asks for more than there is |
| `Semaphore.InterruptLosesIff` | common/photonlib/co.cpp:710-720 | exactly which interrupts break that: ECANCELED from outside to the front waiter, when nobody owes a signal and the next one would be content |
| `Semaphore.OutsideCancelStrands` | common/photonlib/co.cpp:826-853 | after such an interrupt the interrupted waiter queues again behind one whose demand is covered and whom nobody wakes |
| `Semaphore.StrandedIsReached` | common/photonlib/co.cpp:826-853 | a run from an empty semaphore gets there with two threads |
| `Semaphore.StepLosesNone` | common/photonlib/co.cpp:826-853 | every other event keeps the no-lost-wakeup property |
| `Semaphore.WakeAllKeeps` | common/photonlib/co.cpp:843-853 | signal's loop ends with a front waiter that asks for more than there is, and takes nothing off the count |
| `Semaphore.Counter.SignalAll` | common/photonlib/co.cpp:843-853 | adds to the count and wakes waiters from the front as long as the count covers each of them |
| `Semaphore.Counter.WaitFor` | common/photonlib/co.cpp:826-840 | succeeds at once exactly when the count suffices, taking that much off; zero always succeeds |
| `Semaphore.Counter.AfterWait` | common/photonlib/co.cpp:828-839 | a woken waiter succeeds exactly when it was resumed and the count suffices; a failed one signals zero first |
| `RwLock.ReadersOrWriter` | common/photonlib/co.cpp:857-902 | over every run in which whoever is let in, or sent on its way, goes with those who are in or on their way: one writer or any readers, the state counts them, and a free lock with a queue is on its way to somebody who will have it |
| `RwLock.CarefulIsExact` | common/photonlib/co.cpp:857-902 | and nothing less will do: a step is safe exactly when it keeps to that, and otherwise some careful continuation has a writer and somebody else in the lock |
| `RwLock.TurnsBreakExclusion` | common/photonlib/co.cpp:857-902 | a run with nobody barging in and nobody interrupted that ends with a reader and a writer in the lock, and the state of a free one |
| `RwLock.StepKeeps` | common/photonlib/co.cpp:857-902 | every careful step keeps the invariant, and the assertion of unlock holds |
| `RwLock.RunKeeps` | common/photonlib/co.cpp:857-902 | every careful run keeps it |
| `RwLock.Lockable.LockFrom` | common/photonlib/co.cpp:875-885 | succeeds at once exactly without a queue and with a state that admits it; otherwise the thread is last in the queue |
| `RwLock.Lockable.AfterWait` | common/photonlib/co.cpp:879-885 | a thread resumed with ECANCELED has the lock, any other fails |
| `RwLock.Lockable.Release` | common/photonlib/co.cpp:887-902 | a free lock is handed to the writer in front, or to all the readers in front; the assertion holds as long as everybody has been careful |
| `OooTheorems.AtMostOneReader` | common/photonlib/rpc/out-of-order-execution.cpp:97-171 | over all interleavings in which a caller queues for one operation only when that is answered or its others are collected: at most one thread is between do_completion and do_collect; it holds the read lock, and reads a header only with no body left on the stream |
| `OooTheorems.OwnResult` | common/photonlib/rpc/out-of-order-execution.cpp:97-171 | a successful wait_completion returns the body that was read behind a header with the tag its operation was issued under, whichever thread read it |
| `OooTheorems.UnlockedEntryIsServed` | common/photonlib/rpc/out-of-order-execution.cpp:97-126 | a thread that an interrupt lets in without the lock finds its own result collected, returns it, and erases its tag |
| `OooTheorems.LookupFindsOwnContext` | common/photonlib/rpc/out-of-order-execution.cpp:108-117 | a caller that waits on its own operation never sees EINVAL, although the active reader's tag field is overwritten |
| `OooTheorems.DrainIsFinal` | common/photonlib/rpc/out-of-order-execution.cpp:43-53 | when shutdown has returned 0 the map is empty and stays empty in every later run |
| `OooTheorems.NoLostNotification` | common/photonlib/rpc/out-of-order-execution.cpp:43-53 | a drain asleep with an empty map has a thread ahead of it whose leaving will wake it |
| `OooTheorems.QueuedReaderIsWoken` | common/photonlib/rpc/out-of-order-execution.cpp:97-101 | a free read lock with readers queued has been handed to one of them: it is READY, and takes the lock, or leaves with its result and wakes the next |
| `OooTheorems.RunClaims` | common/photonlib/rpc/out-of-order-execution.cpp:97-171 | every run keeps that a free lock is on its way to a waiter |
| `OooDiscipline.QueueingIsSafeIff` | common/photonlib/rpc/out-of-order-execution.cpp:97-126 | with the lock taken, joining the queue for an operation is safe exactly when that operation is answered or all others of the thread are collected: otherwise some continuation has two readers; for any owner of the lock while the engine takes operations, and for a reader at work always |
| `OooDiscipline.ReceivingRun` | common/photonlib/rpc/out-of-order-execution.cpp:97-165 | in any state at all, a thread queued for one operation, another of its own sent and unanswered, and a reader at work have a continuation with two readers |
| `OooDiscipline.TwoOperationsPerThreadBreakExclusion` | common/photonlib/rpc/out-of-order-execution.cpp:97-171 | from the start: a run with two operations outstanding for one thread reaches two readers |
| `OooWaiting.FallsAsleepIff` | common/photonlib/rpc/out-of-order-execution.cpp:97-126 | a thread falls asleep with its result there exactly when it asks for the lock then, for the first time or again, and the lock is taken |
| `OooWaiting.SleepsOnIff` | common/photonlib/rpc/out-of-order-execution.cpp:97-164 | and sleeps until the lock is given back while it is first in the queue, or until the result of another operation of its own comes |
| `OooWaiting.ServedThreadQueues` | common/photonlib/rpc/out-of-order-execution.cpp:97-164 | a run to it: its result is collected before it asks, and it queues behind a reader that waits for its own |
| `OooTheorems.StepKeeps` | common/photonlib/rpc/out-of-order-execution.cpp:43-171 | every event keeps the protocol invariant |
| `OooTheorems.RunKeeps` | common/photonlib/rpc/out-of-order-execution.cpp:43-171 | every run in which callers queue by that rule keeps it |
| `OooProtocol.NextFree` | common/photonlib/rpc/out-of-order-execution.cpp:67-85 | the automatic tag loop ends at the first tag after the last one that is not in use |
| `OooEngine.Engine.IssueOperation` | common/photonlib/rpc/out-of-order-execution.cpp:60-93 | refuses while shutting down or on a user tag in use; otherwise registers under a free tag; the retry loop ends against any set of user tags |
| `OooEngine.Engine.constructor` | common/photonlib/rpc/out-of-order-execution.cpp:27-35 | an engine with nothing registered |
| `OooEngine.Engine.WaitCompletion` | common/photonlib/rpc/out-of-order-execution.cpp:97-126 | with the lock taken the caller queues behind the others; with it free it leaves with its own collected result, or becomes the only reader |
| `OooEngine.Engine.Resume` | common/photonlib/rpc/out-of-order-execution.cpp:97-126 | the same for one that comes back from its wait; an interrupted one always leaves with its own result, without the lock |
| `OooEngine.Engine.Received` | common/photonlib/rpc/out-of-order-execution.cpp:128-160 | own tag: it is off the map, and the only reader collects; another's: the only reader collects for it, and its own entry stays findable under its own tag; unknown: it fails, nobody reads, and its tag is off the map |
| `OooEngine.Engine.Collected` | common/photonlib/rpc/out-of-order-execution.cpp:162-164 | the other operation has the body read for its own tag, its thread, if it was queued, is READY with a collected result, and there is still one reader with nothing left on the stream |
| `OooEngine.Engine.Leave` | common/photonlib/rpc/out-of-order-execution.cpp:97-106 | it leaves with its own result; a lock it held goes to the front waiter, and a sleeping drain is notified |
| `OooEngine.Engine.DrainCheck` | common/photonlib/rpc/out-of-order-execution.cpp:46-52 | the drain returns exactly when the map is empty; otherwise it sleeps, and some request that is out is still registered |
| `CacheTheorems.CountsAndList` | common/photonlib/common/expirecontainer.cpp:80-150 | in every reachable state the reference count is the number of holders, and an item is on the list exactly when it is in the key set, unheld and not recycling |
| `CacheTheorems.HeldIsAlive` | common/photonlib/common/expirecontainer.cpp:53-63 | no held item is ever expired or freed, and a finished acquire holds an item with its object |
| `CacheTheorems.RecycleFreesUnusedOnce` | common/photonlib/common/expirecontainer.cpp:139-148 | past the semaphore the assertion on the reference count holds, nobody holds the item, and this frees it for the first time |
| `CacheTheorems.RecyclerIsSignalled` | common/photonlib/common/expirecontainer.cpp:126-140 | a recycler has been let through exactly when the last holder is gone |
| `CacheTheorems.BlockedWillBeNotified` | common/photonlib/common/expirecontainer.cpp:97-100 | whoever is blocked on a key has a recycler ahead that is still to notify |
| `CacheTheorems.ObjectIsForLife` | common/photonlib/common/expirecontainer.cpp:105-112 | a constructed object stays the item's object as long as the item lives, so it is constructed at most once |
| `CacheTheorems.FreedStaysFreed` | common/photonlib/common/expirecontainer.cpp:146-146 | what was freed is never back in the cache |
| `CacheTheorems.RunKeeps` | common/photonlib/common/expirecontainer.cpp:53-150 | every run of acquires, releases, recycles and expiries keeps the cache invariant |
| `CacheCooldown.FailureIsRememberedIff` | common/photonlib/common/expirecontainer.cpp:105-134 | a construction that fails now is remembered exactly if somebody else holds the item |
| `CacheCooldown.CooldownEndsIff` | common/photonlib/common/expirecontainer.cpp:86-134 | and for as long as somebody does: only the last holder to leave, or another construction, changes what is remembered |
| `CacheCooldown.ForgottenIsConstructed` | common/photonlib/common/expirecontainer.cpp:107-112 | the next one to lock the item constructs exactly when it has no object, and no failure is remembered or the cooldown is over |
| `CacheCooldown.CooldownIsForgotten` | common/photonlib/common/expirecontainer.cpp:86-134 | a run in which a construction fails and the next one to ask, at the same time, constructs again, whatever the cooldown |
| `CacheSafety.CutIsDue` | common/photonlib/common/expirecontainer.cpp:53-63 | because the idle list is sorted by expiry, the walk that stops at the first item in time cuts off exactly the items that are due |
| `CacheSafety.ExpireIsExact` | common/photonlib/common/expirecontainer.cpp:53-63 | expire removes the due items from list, key set and memory, and nothing else from any of them |
| `CacheSafety.SignalledMeansUnused` | common/photonlib/common/expirecontainer.cpp:139-144 | with the semaphore passed nobody holds the item |
| `ObjectCache.Cache.WalkExpired` | common/photonlib/common/expirecontainer.cpp:53-61 | the predicate walk erases from the key set exactly the cut prefix |
| `ObjectCache.Cache.Expire` | common/photonlib/common/expirecontainer.cpp:53-63 | exactly the listed items past their time are deleted, off the list and without a key; every other stays what and where it was |
| `ObjectCache.Cache.AcquireTurn` | common/photonlib/common/expirecontainer.cpp:86-104 | the agent waits, with a recycler that will notify it, or has been counted in at the one item of the key, which is off the list and alive; the count is the number of holders |
| `ObjectCache.Cache.Enqueue` | common/photonlib/common/expirecontainer.h:117-121 | the item is last with a full term ahead, and the list stays in the order of expiry |
| `ObjectCache.Cache.RefRelease` | common/photonlib/common/expirecontainer.cpp:120-138 | the agent is a holder no more; an item nobody holds is last on the idle list with a full term, or its one recycler has its signal |
| `ObjectCache.Cache.AfterMutex` | common/photonlib/common/expirecontainer.cpp:105-118 | the agent holds an item with an object, built once, or has given its reference back to an item without one |
| `ObjectCache.Cache.EraseAndDelete` | common/photonlib/common/expirecontainer.cpp:140-147 | the assertion of the code holds, and afterwards the item is freed for the first time, and in no list, key set or hand |
| `Iov.CutFrontConserves` | common/photonlib/common/iovector.cpp:107-141 | whether it succeeds or runs out of slots: what is out followed by what is left are the very addresses that were there |
| `Iov.CutBackConserves` | common/photonlib/common/iovector.cpp:143-175 | the same from the back |
| `Iov.CutFrontEnds` | common/photonlib/common/iovector.cpp:107-141 | it stops with every byte found, or nothing left, or no slot left |
| `Iov.CutBackEnds` | common/photonlib/common/iovector.cpp:143-175 | the same from the back |
| `Iov.CutFrontFailsIff` | common/photonlib/common/iovector.cpp:193-205 | the view form fails exactly when the pieces outnumber the slots, with as many handed out as there are slots |
| `Iov.CutBackFailsIff` | common/photonlib/common/iovector.cpp:223-240 | the same from the back |
| `Iov.FrontBytes` | common/photonlib/common/iovector.cpp:107-141 | in bytes: output is the first min(bytes, sum) of the flattening and the remainder the rest, whatever the segmentation |
| `Iov.BackBytes` | common/photonlib/common/iovector.cpp:143-175 | the same from the back |
| `Iov.ShrunkIsPrefix` | common/photonlib/common/iovector.cpp:31-49 | shrinking leaves the prefix of that size, or everything |
| `IovView.View.SumUp` | common/photonlib/common/iovector.cpp:23-29 | the number of bytes |
| `IovView.View.ExtractFront` | common/photonlib/common/iovector.cpp:178-181 | in place: cuts min(bytes, sum) off the front |
| `IovView.View.ExtractBack` | common/photonlib/common/iovector.cpp:207-210 | in place: cuts min(bytes, sum) off the back |
| `IovView.View.ExtractFrontInto` | common/photonlib/common/iovector.cpp:193-205 | in place, handing the segments over: exactly the cut for that many slots, and -1 exactly when they run out |
| `IovView.View.ExtractBackInto` | common/photonlib/common/iovector.cpp:223-240 | the same from the back, filling the slots from the last one down |
| `IovView.View.ExtractFrontContinuous` | common/photonlib/common/iovector.h:112-125 | succeeds exactly when the front segment holds that many bytes; pointer and remainder are the old addresses |
| `IovView.View.ExtractBackContinuous` | common/photonlib/common/iovector.h:141-152 | the same for the back segment |
| `IovView.View.ShrinkTo` | common/photonlib/common/iovector.cpp:31-49 | in place, and returns min(size, sum) |
| `IovCopy.ExtractFrontTo` | common/photonlib/common/iovector.cpp:183-191 | the buffer holds what was extracted, in order, nothing else in memory changes, and the addresses left are those not taken |
| `IovCopy.ExtractBackTo` | common/photonlib/common/iovector.cpp:212-221 | the same from the back; short of bytes, it is the end of the buffer that is written |
| `IovTransfer.MemcpyIov` | common/photonlib/common/iovector.cpp:278-293 | whenever its loop ends: copies exactly min(size, both sums) bytes in order across both segmentations, and changes no other byte |
| `IovTransfer.TransferMeaning` | common/photonlib/common/iovector.cpp:278-293 | the target's flattening now starts with the source's, and the source reads as before |
| `IovTransfer.EndsIff` | common/photonlib/common/iovector.cpp:278-293 | a call ends exactly when no empty segment comes to the front while there are bytes to copy and segments on both sides |
| `IovTransfer.TurnStep` | common/photonlib/common/iovector.cpp:280-291 | a turn of the loop makes no progress exactly when a front segment is empty |
| `IoVector.Vector.constructor` | common/photonlib/common/iovector.h:847-853 | an empty window behind the preserved slots |
| `IoVector.Vector.PushBack` | common/photonlib/common/iovector.h:368-374 | appends, or refuses at the end of the array and says that nothing was pushed |
| `IoVector.Vector.PushFront` | common/photonlib/common/iovector.h:343-349 | prepends, or refuses at its beginning |
| `IoVector.Vector.PopFront` | common/photonlib/common/iovector.h:392-397 | drops the first segment and returns its length |
| `IoVector.Vector.PopBack` | common/photonlib/common/iovector.h:398-403 | drops the last segment and returns its length |
| `IoVector.Vector.ShrinkTo` | common/photonlib/common/iovector.h:415-426 | shrinks when there are enough bytes, and changes nothing otherwise |
| `IoVector.Vector.ExtractFrontContinuous` | common/photonlib/common/iovector.h:509-526 | succeeds exactly when there are enough bytes, in whatever segments: the pointer reads as the front of the old flattening, and the vector as the rest; on failure the vector is drained |
| `IoVector.Vector.ExtractBackContinuous` | common/photonlib/common/iovector.h:600-617 | the same at the back |
| `IoVector.Vector.ExtractFrontSegs` | common/photonlib/common/iovector.h:460-480 | into a new array with as many slots as segments, it never fails; output and rest split the flattening |
| `Layout.RoundTrip` | common/photonlib/rpc/serialize.h:239-363 | serialize then deserialize is the identity on field contents, for any message in memory, of any buffers and arrays, aligned or not, and any re-segmentation: the sums that serialize writes into the message are what the receiver reads, and all it takes is that iovfull stayed false |
| `Layout.StoredSizes` | common/photonlib/rpc/serialize.h:286-311 | with the sums written into it, the body that is sent tells the receiver the size of every field |
| `Layout.SumReads` | common/photonlib/rpc/serialize.h:286-295 | a sum in its eight bytes is read back exactly below 2 to the 64 |
| `Layout.StoredOnly` | common/photonlib/rpc/serialize.h:286-295 | writing the sums changes no other byte |
| `Serialize.DecodeEncoded` | common/photonlib/rpc/serialize.h:239-363 | decoding what was encoded gives every field its contents back |
| `Serialize.PushedUnlessFull` | common/photonlib/rpc/serialize.h:276-284 | unless the flag is up, every non-empty buffer is in the vector, in order |
| `Serialize.FullIff` | common/photonlib/rpc/serialize.h:276-284 | iovfull is set exactly when some buffer, the empty ones too, came after the room was gone |
| `Serialize.BufsArePart` | common/photonlib/rpc/serialize.h:239-311 | the buffers of one pass flatten to the contents of its fields, in order |
| `Archive.SerializerIov.ProcessBuffer` | common/photonlib/rpc/serialize.h:276-284 | pushes a non-empty buffer if there is room, and raises the flag if there is none |
| `Archive.SerializerIov.ProcessArray` | common/photonlib/rpc/serialize.h:286-295 | pushes the segments one by one and returns their sum |
| `Archive.SerializerIov.Pass` | common/photonlib/rpc/serialize.h:239-261 | one filtered pass pushes the fields of that pass and sets their sums |
| `Archive.SerializerIov.Serialize` | common/photonlib/rpc/serialize.h:297-311 | the vector ends up with aligned fields, other fields and body, and every array field with its sum |
| `Archive.Send` | common/photonlib/rpc/serialize.h:297-311 | serialize() of a message in memory: its sums are in its bytes, no other byte changes, and its fields have the contents they had; the flag is up exactly when the buffers of the fields fill the vector; otherwise the bytes in the vector decode to those contents |
| `Archive.DeserializerIov.ProcessField` | common/photonlib/rpc/serialize.h:322-340 | the field points at the next bytes of its size, or the flag goes up exactly when there are not enough |
| `Archive.DeserializerIov.Deserialize` | common/photonlib/rpc/serialize.h:342-363 | fails exactly when decoding the bytes fails, and otherwise every field points at its decoded contents: the segmentation has no say |
| `Archive.Exchange` | common/photonlib/rpc/serialize.h:239-363 | end to end: a message is serialized, its bytes come in elsewhere, cut up anyhow, and are deserialized; unless the flag went up, every field of the new message points at the contents the sender's field had |
| `Archive.OneArrayStands` | common/photonlib/rpc/serialize.h:286-311 | such a message: one array of two segments |
| `Generator.TraceIsFlat` | common/stdgen.hpp:332-483 | iterating any generator, nested to any depth, with parts that throw or catch, yields its recursive flattening and ends as it does |
| `Generator.ResumeIsFlat` | common/stdgen.hpp:477-479 | one resumption yields the next value of the flattening, or ends as it does |
| `Generator.TurnIsFlat` | common/stdgen.hpp:377-460 | no hand-over between parent and leaf changes what is still to be yielded |
| `Generator.TurnShrinks` | common/stdgen.hpp:377-460 | every step shrinks the work left, so every resumption ends |
| `Generator.NestedIsFlat` | common/stdgen.hpp:418-460 | a nested generator is its flattening in place, and its exception is thrown on in the parent |
| `GeneratorLoops.SameTraces` | hanoi-test/hanoi.cpp:18-40 | co_yield elements_of and the loop that yields every value again have the same traces, exceptions included |
| `GeneratorLoops.TowersAgree` | hanoi-test/hanoi.cpp:18-40 | both Hanoi programs yield a one for every move, and then end |
| `GeneratorLoops.LoopTraceIsFlat` | hanoi-test/hanoi.cpp:18-28 | the re-yielding form computes the flattening too |
| `GeneratorPromises.Promise.YieldSequence` | common/stdgen.hpp:433-452 | the nested generator becomes the leaf of a well-linked chain |
| `GeneratorPromises.Promise.FinalSuspend` | common/stdgen.hpp:377-393 | the parent becomes the leaf; null exactly at the root |
| `GeneratorPromises.Promise.UnhandledException` | common/stdgen.hpp:368-374 | kept for the parent exactly when there is one |
| `GeneratorPromises.Promise.YieldValue` | common/stdgen.hpp:402-406 | the value goes into the root, where no other is constructed |
| `GeneratorPromises.Return` | common/stdgen.hpp:377-460 | the finished leaf leaves the chain, and its parent rethrows its exception |
| `GeneratorPromises.TakeTurn` | common/stdgen.hpp:368-460 | one statement of the leaf does to the promises what it does to the machine, and keeps the chain from leaf to root |
| `GeneratorPromises.ResumeRoot` | common/stdgen.hpp:477-479 | resuming through the leaf pointer has the outcome of the machine; the value is constructed exactly if there is one |
| `GeneratorPromises.Iterate` | common/stdgen.hpp:620-624 | a consumer's loop over the promises returns the flattening |
| `HeaderOrder.IcmpFlips` | common/photonlib/net/http/headers.cpp:36-39 | the key order is antisymmetric |
| `HeaderOrder.IcmpTransitive` | common/photonlib/net/http/headers.cpp:36-39 | and transitive, strictly so if either step is strict |
| `HeaderOrder.IcmpZeroIff` | common/photonlib/net/http/headers.cpp:36-39 | two keys are equal exactly when they have the same length and the same letters up to case, and up to a NUL |
| `HeaderOrder.CutIsScan` | common/photonlib/net/http/headers.cpp:61-65 | in a sorted index the lower bound is where a linear scan stops, or there is nothing to find |
| `HeaderOrder.CutKeepsSorted` | common/photonlib/net/http/headers.cpp:149-158 | a key put in at its lower bound keeps the order |
| `HeaderText.EntryReads` | common/photonlib/net/http/headers.cpp:96-98 | an index entry names its own line's key and value and lies within that line |
| `HeaderIndex.IndexInsert` | common/photonlib/net/http/headers.cpp:149-158 | the index stays complete: each line has exactly one entry, and each entry names its own text |
| `HeaderIndex.IndexGrows` | common/photonlib/net/http/headers.cpp:102-114 | more value on the last line changes the entry of that line only |
| `HeaderIndex.Rehosts` | common/photonlib/net/http/headers.cpp:116-136 | a new Host line shifts all other entries by the difference and keeps the index sorted |
| `HeaderStore.Store.LowerBound` | common/photonlib/net/http/headers.cpp:154-154 | halving finds the first entry whose key is not less |
| `HeaderStore.Store.Find` | common/photonlib/net/http/headers.cpp:61-65 | binary search agrees with a linear scan |
| `HeaderStore.Store.Insert` | common/photonlib/net/http/headers.cpp:82-100 | -EEXIST exactly for a forbidden duplicate, -1 exactly without room and then nothing changes; otherwise the line is last in the text and its entry before all equal keys, and text and index do not overlap |
| `HeaderStore.Store.KvAddSort` | common/photonlib/net/http/headers.cpp:149-158 | fails exactly when the next entry would touch the text |
| `HeaderStore.Store.ValueAppend` | common/photonlib/net/http/headers.cpp:102-114 | true exactly when there is a line and room; only the last inserted value changes |
| `HeaderStore.Store.ResetHost` | common/photonlib/net/http/headers.cpp:116-147 | -1 exactly when it does not fit, and then nothing changes; otherwise only Host has a new value, and the end of the buffer stays |
| `HeaderStore.Store.Reset` | common/photonlib/net/http/headers.h:62-64 | an empty store |
| `HeaderStore.Store.ValueAt` | common/photonlib/net/http/headers.h:53-55 | an iterator reads the value of its own line |
| `HeaderParse.Parser.ExtractUntilChar` | common/photonlib/net/http/parser.h:61-68 | a span up to the first such character, or to the end |
| `HeaderParse.Parser.SkipChars` | common/photonlib/net/http/parser.h:35-42 | past one such character, or past all in a row |
| `HeaderParse.Parser.SkipString` | common/photonlib/net/http/parser.h:31-34 | past the string if it is there |
| `HeaderParse.Parser.ParseLine` | common/photonlib/net/http/headers.cpp:169-179 | a line, with any number of spaces behind its colon, gives its key, and its value without leading spaces |
| `HeaderParse.Parse` | common/photonlib/net/http/headers.cpp:169-182 | on lines with any number of spaces behind the colon: -1 exactly when the entries would reach down to the text; otherwise a sorted index with one entry for each line, naming its key and its value without leading spaces, whatever follows the empty line |
| `HeaderParse.ParsedIsIndex` | common/photonlib/net/http/headers.cpp:169-182 | without leading spaces in the values, parsing recovers the inserted keys and values |
| `HeaderParse.LeadingSpaceIsLost` | common/photonlib/net/http/headers.cpp:174-175 | and an entry is recovered exactly when its value has no leading space |
| `HeaderParse.SameAnswers` | common/photonlib/net/http/headers.cpp:61-65 | with distinct keys, the index that grew by inserts and the parsed one answer every look-up alike |
| `HeaderEnd.SearchTheSeam` | common/photonlib/net/http/message.cpp:92-98 | searching the new bytes and three old ones finds what a search of everything would |
| `HeaderEnd.LinesEndIff` | common/photonlib/net/http/headers.cpp:169-182 | the parsed header lines end where the body begins exactly when no key holds a CRLFCRLF |
| `HeaderEnd.KeySwallowsBody` | common/photonlib/net/http/parser.h:61-68 | a header line without a colon, and a body with one: the key goes on into the body |
| `HeaderEnd.Message.AppendBytes` | common/photonlib/net/http/message.cpp:87-118 | 2 while there is no header end; 0 with the body behind the first one and the header lines in a sorted index, which end where the body begins exactly when no key holds a header end; -1 exactly for a second parse, no room, a start line that does not parse, or no room for the index |
| `HeaderEnd.Receive` | common/photonlib/net/http/message.cpp:49-85 | for any fragmentation: complete with the first piece that completes it, the body behind the first CRLFCRLF; otherwise the peer has closed before that, the room has run out, or what is complete does not parse |
| `ChunkedReader.RoundTrip` | common/photonlib/net/http/body.cpp:154-360 | any writes and a close, any initial part, any pieces, any reads: the payload in order, as much as asked for, and finish once more is asked for, unless a used-up line was taken for the next one, for which a piece has to end at the end of a chunk-size line; the socket stays open unless a piece ends inside the last two bytes |
| `ChunkedTheorems.ReadsGive` | common/photonlib/net/http/body.cpp:154-290 | the same of the reads alone, with the end of the body |
| `ChunkedTheorems.ReadMid` | common/photonlib/net/http/body.cpp:269-288 | one read, from any place in the body: as many bytes as asked for or all that are left, and the socket is closed exactly when more is asked for than there is and a pass starts with the end of the last line cut off |
| `ChunkedTheorems.TurnMid` | common/photonlib/net/http/body.cpp:270-286 | one pass loses and adds nothing, and closes the socket exactly when the end of the last line is cut off and more is asked for than there is |
| `ChunkedTheorems.CutTailCloses` | common/photonlib/net/http/body.cpp:183-193 | with that end cut off, a read of more than there is has all of it and closes the socket; a smaller one does not |
| `ChunkedTheorems.LineLoopEndsIff` | common/photonlib/net/http/body.cpp:198-221 | read_from_line_buf finds the end of the body exactly when at most two bytes are still to come and more is asked for than there is |
| `ChunkedPhases.GetNewMid` | common/photonlib/net/http/body.cpp:239-264 | get_new_chunk leaves the reader at what follows the line that is due exactly when it does not find a used-up line in front of the buffer, that is, one with nothing behind it |
| `ChunkedPhases.GetNewEnded` | common/photonlib/net/http/body.cpp:171-193 | asked once more behind the end, it takes the end of the last line off the socket once more, and closes it exactly if that end was not all in the buffer |
| `ChunkedPhases.FoundMid` | common/photonlib/net/http/body.cpp:171-182 | past a line that is found: the size it gives is that of the data that follows, and nothing is behind a chunk-size line only where a piece has ended |
| `ChunkedRuns.UsedUpLineIsReadAgain` | common/photonlib/net/http/body.cpp:250-263 | a run of the reader that goes wrong: one chunk 'a', a first piece that ends at the end of its size line, and two reads of one byte return 'a' and a carriage return |
| `ChunkedRuns.FirstLineIsCleared` | common/photonlib/net/http/body.cpp:216-219 | an initial part that ends at the end of the first size line does no harm: read_from_line_buf finds that line and empties the buffer |
| `ChunkedReader.Reader.Read` | common/photonlib/net/http/body.cpp:269-288 | the loop carries out that read, with its bytes and its closed socket |
| `ChunkedReader.Reader.ReadFromLineBuf` | common/photonlib/net/http/body.cpp:198-221 | data in order, until all that was asked for is read or the buffer has no more; the bytes out and the payload left make up the payload there was |
| `ChunkedReader.Reader.GetNewChunk` | common/photonlib/net/http/body.cpp:239-264 | past the line that is due exactly when not misled; fails for a closed peer or a full line buffer |
| `ChunkedCode.HexRoundTrip` | common/photonlib/common/estring.cpp:67-82 | a printed size is read back |
| `ChunkedCode.AdvancePending` | common/photonlib/net/http/body.cpp:171-182 | what a line is, what is behind it, and that its value is the size of the data that follows |
| `Chunked.SizeLineIff` | common/photonlib/net/http/body.cpp:352-357 | the line that write() prints is the size and a line end exactly below 2 to the 28 |
| `Chunked.Writer.Write` | common/photonlib/net/http/body.cpp:352-360 | below that limit, one chunk goes on the wire |
| `Chunked.Writer.Close` | common/photonlib/net/http/body.cpp:340-347 | the last chunk, once |
| `Chunked.WriteAll` | common/photonlib/net/http/body.cpp:340-360 | writes and a close put the coding of the writes on the wire |

## Left out

- context-switch assembly, stacks and thread memory: a switch is a change of CURRENT
- `condition_variable` without a mutex, and `locker`: thin layers over the wait queue and the mutex
- `thread_shutdown` and `Timer`: an interrupt and a flag, and a loop over `thread_usleep`
- the links of the run ring and the wait queues: sequences in `Scheduler`; `Ring` proves the operations on links
- `push_front(intrusive_list&&)`: it calls a member that does not exist
- `iovector_view::slice` and `shrink_less_than`: the first advances its position only inside a branch
- `iovector::truncate`, `push_back_more`, `push_front_more`: allocation in several pieces
- `memcpy_to` and `memcpy_from` with a plain buffer: the loops of `extract_front` without the cutting
- `ExpireContainerBase::keep_alive` and `clear`: one insert and one enqueue; one move of the whole set
- `do_collect` erasing through an iterator after a switch: the map is a value in the model
- nested messages, fixed buffers and typed arrays in `serialize.h`: they reduce to buffers
- allocator-aware promise creation, iterators' categories and generators of ranges in `stdgen.hpp`
- `HeadersBase::merge`, `range`, `content_length`: one insert per header, and number parsing
- `value_append` after `parse`: `m_last_kv` no longer names the last line then
- start lines, cookies, the client's retry loop, sockets and RPC plumbing: input and output
- a failing `recv` in the chunked reader: like a closed peer, it ends the read with an error
- failing allocations, wrapping 64-bit counters and several processors
- header text without a colon, or a line end, behind its last line: the parser expects both
- HeaderParse.Parse: std::sort is modelled by its contract only, with an insertion sort in its place
- Chunked.Writer.Write: says nothing of what goes on the wire from 2 to the 28 bytes on, where it is no chunk
