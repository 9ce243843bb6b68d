# Verification model of the piorun runtime

A Dafny model of the parts of piorun where most can go wrong: the per-thread timing wheel and the
dispatch loop over it, the synchronisation primitives of the stackful fibers, the worker threads'
decision when to leave, the stackless scheduler with its emitters, the byte buffer with the vectored
send of the HTTP server, and the merging of descriptors in the hooked `poll`. `dafny verify dfyconfig.toml`
checks everything.

## How the modules fit together

**Timers.** `TimeoutList` is the intrusive list, as heap objects with their raw pointers; its methods are
proved to act as sequence operations. `WheelArithmetic` relates the unsigned 64-bit slot computation and the
`int` sweep count to plain integers. `TimingWheel` is the wheel: every pending item sits in the slot that its
deadline asks for, through normal sweeps, capped sweeps and re-insertions. `DispatchRound` is one turn of the
thread's loop: ready pollers leave the wheel, the wheel is swept, items swept a rotation too early go
back, the rest are fired, and the fired fibers may go to sleep on the same wheel while the loop is still running.
`DispatchRound.Round` states what a turn does to the set of pending deadlines. `WheelRuns.Run` carries out any
sequence of additions and turns on the heap and says what it amounts to: what is pending at the end is what the
steps leave of a plain set, and the run is a run of `TimerRuns`, where nothing fires early, nothing is lost and
nothing fires twice.

**Fibers.** `Primitives` gives each spin-locked section of `mutex`, `shared_mutex`, `semaphore` and
`condition_variable` as a function on values, with the ownership that a lock hands from one fiber to the next;
`SyncObjects` holds the same sections as methods of objects updated in place, which carry their owners as a ghost
field, keep exclusion as their invariant and say to whom each call gives the lock.
`FiberRuntime` is the step machine in which they run. Locking, pushing a popped waiter on its thread's signal
queue, and yielding are separate steps, and steps of different threads interleave in any way, so that a fiber
can be signalled before it has yielded. Resuming checks nothing: a fiber that is resumed while it is not suspended is
`Broken`, and this is proved not to happen. `WakeUps` follows a wake-up through that machine to the point where its
fiber runs. `Channel` and `ConditionWait` are client programs on it. `ChannelProgress` shows that a channel does not
deadlock and how many acts its calls take, `ChannelValues` relates the values that `read` returns to those that `write` was
given, and `ConditionCalls` says what the calls of the wait protocol get done one after the other.

**Threads.** `WorkerLoop` is the loop of the worker threads: stealing, pooled fibers, and the vote by which
the threads agree to leave. The locked section of that loop is also a method on an object, proved equal to the
function that the step machine uses. `WorkerProgress` shows that the threads can always come to an end.

**Stackless coroutines.** `Emitters` has the three emitters as values and as objects, `StacklessScheduler` the
main loop with the tasks it hands control to. `StacklessProgress` shows that the loop polls every emitter and can
always get to the point where `Run` returns.

**I/O.** `ByteBuffer` is the growing buffer, `HttpSend` the partial-write loop over it, `PollMerge` the merge and
scatter loops of `poll`. `MachineInts` has the conversions to 64-bit and to `int`, `EventMasks` the masks of events,
`Common` what several modules share.

Protocols between fibers, threads and coroutines are state machines whose labels are the atomic steps of the
code; `After` runs a sequence of labels, and a statement "over every run" is about every sequence whose steps are
enabled. History fields (`owners`, `ticket`, `grants`, `scheduled`, `pushed`, ...) record what happened and influence
nothing; where a result depends on one, a lemma says of it what the labels of the run say.

## Assumptions

- A spin-locked section is atomic. Callers keep to the lock discipline (only an owner unlocks) and are not main
  fibers. A fiber blocks by sleeping, polling, or on the primitives.
- Clocks, ready descriptors, the lengths of transfers and what the kernel reports are inputs, arbitrary within
  what the operating system promises. The clock is positive, below 2^63 ms, and does not go back between two rounds of a
  thread.
- `wannaQuitThreadCount` starts at 0: no constructor sets it, but the scheduler is a static object
  (`src/piorun/fiber/fiber.cc:968-971`).
- `isaccept` is false: the loop of `threadRoutine` steals whenever it gets the lock and there are tasks.
- Tasks are scheduled by fibers, by the main thread before it enters its loop, and by threads outside the pool at
  any time. A task that a thread outside schedules after one of the workers has left may find nobody to run it:
  `WorkerLoop.ExitsAreSoundExactly` says that this is the only way in which leaving can be wrong.
- Emitters are registered with the stackless scheduler before `Run`, any of the three kinds or none of them, and
  `Run` is called once. An await whose condition holds already does not suspend, and is no step.
- The wait that the hooked `poll` calls returns for how many descriptors it found something, and finds nothing for
  the others.
- At most one live event per file descriptor in the stackless scheduler; what goes wrong otherwise is
  `Emitters.SharedDescriptorLosesTheFirst`.

## Where code, comments and documentation differ

The model follows the code.

- The comment on the wheel gives its default size as 60*1000 (`src/piorun/fiber/fiber.cc:166`), and another calls
  one turn 60 seconds; the code passes 65536 (`src/piorun/fiber/fiber.cc:420`). The proofs hold for any size below 2^31.
- `docs/stackful_coroutine.md:54-56` describes new tasks batched in `raisedTasks` and a token `turn` that says which thread
  steals next. The code schedules directly under the lock, the code for the batch is commented out, and whichever
  thread gets the lock steals everything.
- A sweep is not complete for every gap between two sweeps: the gap is converted to `int`
  (`src/piorun/fiber/fiber.cc:241`). `WheelArithmetic.SweepIsComplete` gives the exact condition on the gap, and
  `WheelArithmetic.HugeGapMisses` an input that violates it; `TimingWheel.SweepForgets` runs that input on a wheel.
- `ToWriteBytes()` does not always count what is left to send: it converts a `size_t` to `int`, and `process()` does not
  reset the second iovec for a response without a file. `HttpSend.HttpConn.ToWriteBytesCounts` says exactly when it
  does, and `HttpSend.HttpConn.AllIsSent` when 0 means that everything is sent; `HttpSend.CountsWhatIsNotThere` and
  `HttpSend.FileLooksSent` are responses for which they fail. `write` makes the same sum in 64 bits, and sends
  bytes twice when that wraps around to 0 (`HttpSend.HttpConn.Write`).
- With duplicate descriptors the hooked `poll` returns the number of descriptors for which it found something, not the
  number of entries with something in `revents` (`src/piorun/fiber/syshook.cc:668-684`), and it leaves `revents` as it
  was when it found nothing. `PollMerge.NumberIsRightExactly` says exactly when the number is right,
  `PollMerge.TwoReadersCountOnce` and `PollMerge.ErrorIsMaskedAway` are calls for which it is not.
- `Run` returns although tasks still wait if no registered emitter takes note of what they wait for:
  `StacklessScheduler.RunReturnsWhenDone` gives the exact condition, `StacklessScheduler.ReturnsWhileWaiting` an input.

## Model

| member | source | states |
|---|---|---|
| TimeoutList.TimeoutItemLink.AddTail | src/piorun/fiber/fiber.cc:90-106 | appends the item to the list and keeps the list well-formed; does nothing to an item that has an owner |
| TimeoutList.TimeoutItemLink.PopHead | src/piorun/fiber/fiber.cc:111-126 | drops the first item, whose three pointers become null; an empty list stays empty |
| TimeoutList.TimeoutItemLink.Join | src/piorun/fiber/fiber.cc:133-161 | this list becomes the concatenation, the other one empty, both well-formed, every moved item points to its new list |
| TimeoutList.TimeoutItemLink.Adopt | src/piorun/fiber/fiber.cc:139-144 | the loop of Join re-parents exactly the chain it starts from |
| TimeoutList.TimeoutItem.RemoveFromLink | src/piorun/fiber/fiber.cc:265-292 | from any position: the list loses exactly this item and is well-formed, the item's pointers are null |
| WheelArithmetic.MachineSlotExact | src/piorun/fiber/fiber.cc:199-220 | the unsigned 64-bit slot of every accepted deadline, UINT64_MAX included, is the mathematical one for every wheel size, because the start index never exceeds the start time |
| WheelArithmetic.MachineSlotWraps | src/piorun/fiber/fiber.cc:199-220 | if the wheel size divides 2^64 the slot is right even when the sum wraps around |
| WheelArithmetic.SameSlot | src/piorun/fiber/fiber.cc:218-219 | two distances from the start index share a slot exactly when they agree modulo the wheel size |
| WheelArithmetic.SweepIsComplete | src/piorun/fiber/fiber.cc:241-257 | the sweep count reaches every deadline that has passed if and only if the gap survives the conversion to int well enough |
| WheelArithmetic.SmallGapIsOk | src/piorun/fiber/fiber.cc:241-246 | every gap below 2^31-1 ms is fine, and the count is then the gap plus one, capped at the wheel size |
| WheelArithmetic.HugeGapMisses | src/piorun/fiber/fiber.cc:241-246 | a gap of 2^32 ms on the wheel of 65536 slots: one slot is swept and an item due 1 ms after the last sweep is missed |
| TimingWheel.StTimeout.constructor | src/piorun/fiber/fiber.cc:172-182 | an empty wheel in order |
| TimingWheel.StTimeout.AddTimeout | src/piorun/fiber/fiber.cc:192-222 | accepted exactly if the clock is not before the start time and the deadline not before the clock; then it is pending, in the slot of its deadline; the long-timer flag says that it is at least a turn away |
| TimingWheel.StTimeout.Insert | src/piorun/fiber/fiber.cc:218-220 | the slot invariant survives an insertion, first or repeated |
| TimingWheel.StTimeout.Cancel | src/piorun/fiber/fiber.cc:265-292 | the slot invariant survives removing any pending item, and nothing else leaves |
| TimingWheel.StTimeout.TakeOffset | src/piorun/fiber/fiber.cc:253-257 | one turn of the sweep takes exactly the pending items whose offset from the start index is i, however many rotations away |
| TimingWheel.StTimeout.Sweep | src/piorun/fiber/fiber.cc:253-257 | after the loop exactly the items less than cnt slots away are on the result, nearest slot first, the rest pending |
| TimingWheel.StTimeout.StartMovedOn | src/piorun/fiber/fiber.cc:259-260 | moving start time and start index by the same amount, or an empty wheel by different amounts, keeps the slot invariant |
| TimingWheel.StTimeout.TakeAllTimeout | src/piorun/fiber/fiber.cc:230-261 | for all clocks: no sweep and no change when the clock is behind or the count overflowed; otherwise exactly the items in the slots counted are taken, nearest slot first, and every other item stays in its list; and for every gap that is ok, everything due is among them and the wheel is in order |
| TimingWheel.StTimeout.TakeInTime | src/piorun/fiber/fiber.cc:230-261 | the sweep of a running wheel whose clock neither went back nor jumped: the wheel starts now and everything due was taken |
| TimingWheel.SweepForgets | src/piorun/fiber/fiber.cc:230-261 | on a wheel of 65536 slots, an item due 1 ms after the start is still pending, in its list, after a sweep 2^32 ms later, and the sweep took nothing |
| TimingWheel.StTimeout.SlotIsOffset | src/piorun/fiber/fiber.cc:199-220 | a slot holds exactly the pending items as far past the start index, modulo the size, as the slot is |
| TimingWheel.SweepTakesDue | src/piorun/fiber/fiber.cc:241-261 | an item left by the sweep is not due; after a capped sweep nothing is left, which is why the start index may then lag behind |
| TimingWheel.SweepOneMore | src/piorun/fiber/fiber.cc:253-257 | slot by slot the swept items stay ordered by offset and none is taken twice |
| DispatchRound.OnPollPrepare | src/piorun/fiber/fiber.cc:367-380 | counts the event; only the first event of a poller takes it out of the wheel and puts it on the active list |
| DispatchRound.Arrive | src/piorun/fiber/fiber.cc:875-882 | the active list holds each ready poller once, in order of first events; each poller has counted its own events; exactly those left the wheel |
| DispatchRound.PopOne | src/piorun/fiber/fiber.cc:899-908 | the head of the active list is either put back, unmarked, because it timed out before its deadline, or released to be fired |
| DispatchRound.Dispatch | src/piorun/fiber/fiber.cc:897-912 | everything on the active list is fired in order, once, except the items swept too early, which are pending again, with the fibers that went to sleep meanwhile |
| DispatchRound.RoundAccounts | src/piorun/fiber/fiber.cc:875-912 | fired are exactly the ready and the due; pending are the others; within one turn of the wheel the timeouts fire in the order of deadlines |
| DispatchRound.Round | src/piorun/fiber/fiber.cc:869-912 | one turn of the loop at time now fires each pending item that is ready or due, once, and no other, however long its timer; the rest stay pending; a poller's count is the number of its events, so it is 0 exactly if the timer fired it; the wheel is then as the next turn wants it |
| WheelRuns.RoundRefinesTimers | src/piorun/fiber/fiber.cc:869-912 | what Round promises of the wheel is a round of the plain set of deadlines that fires exactly what is ready or due |
| WheelRuns.FiredIsDue | src/piorun/fiber/fiber.cc:897-912 | as a set, and in number, what a turn fires is what is ready or due |
| WheelRuns.DoTurn | src/piorun/fiber/fiber.cc:869-912 | a turn of the loop on the heap and a round of the timers keep saying the same of what is pending, and items not yet used stay untouched |
| WheelRuns.DoAdd | src/piorun/fiber/fiber.cc:192-222 | likewise an addition between two turns, accepted or refused |
| WheelRuns.Run | src/piorun/fiber/fiber.cc:836-952 | any sequence of additions and turns on the wheel, with a clock that does not go back between turns: the wheel stays in order, what is pending at the end is what the steps leave of the plain set, and everything ever added is pending or was fired, once, no timeout before its deadline nor later than the first turn after it; all firings are returned in order |
| WheelRuns.RunFromStart | src/piorun/fiber/fiber.cc:172-262 | the same from a new, empty wheel on |
| WheelRuns.AddRefinesTimers | src/piorun/fiber/fiber.cc:192-222 | AddTimeout is an addition to the plain set of deadlines, or changes nothing when the deadline or the clock is behind |
| TimerRuns.RunsArePunctual | src/piorun/fiber/fiber.cc:192-262 | the consequence, for the plain set of deadlines alone, of rounds that fire exactly what is ready or due; WheelRuns.Run applies it to the wheel |
| Primitives.QueueConservation | src/piorun/fiber/fiber.cc:544-767 | no operation of any primitive loses, duplicates or invents a waiter |
| Primitives.OwnershipPreserved | src/piorun/fiber/fiber.cc:584-767 | every operation keeps: at most one writer, no reader beside a writer, state equal to the number of readers or -1, nobody queued on a free primitive, readers wait without a writer inside only behind a writer |
| Primitives.OwnersExclude | src/piorun/fiber/fiber.cc:584-727 | two owners of a mutex are the same fiber; state is -1 exactly if a writer owns the lock |
| Primitives.GrantsExactlyWhenFree | src/piorun/fiber/fiber.cc:584-605 | a lock call is granted if and only if no owner, and for a reader no queued writer, is in the way; refused, the caller is queued, or with try_ nothing changes |
| Primitives.GrantMeansOwning | src/piorun/fiber/fiber.cc:624-707 | a granted caller joins the owners, a refused one leaves them as they were |
| Primitives.TryAgrees | src/piorun/fiber/fiber.cc:741-750 | a try_ operation does what the blocking one does when that does not block, and nothing otherwise |
| Primitives.CallsAreOrderly | src/piorun/fiber/fiber.cc:607-727 | while somebody is queued nobody is let past them, no reader gets a shared lock behind a queued writer, and each release brings them strictly closer; when popped they own the lock |
| Primitives.BoundedBypass | src/piorun/fiber/fiber.cc:624-727 | over any sequence of calls: while a waiter stays in line there are no more releases than waiters in front of it plus readers inside but one, so the next release pops it; and no new reader is admitted meanwhile |
| FiberRuntime.ServedInTime | src/piorun/fiber/fiber.cc:584-767 | in every run of any number of fibers and threads: while a fiber with i others in front stays in line for a primitive, that is released at most i times plus once for each reader inside but one; and meanwhile no new reader gets in |
| SyncObjects.FiberMutex.Lock | src/piorun/fiber/fiber.cc:584-594 | the caller becomes the owner exactly if nobody owns the mutex, and is queued last otherwise; exclusion holds |
| SyncObjects.FiberMutex.TryLock | src/piorun/fiber/fiber.cc:596-605 | the caller becomes the owner exactly if nobody owns the mutex; otherwise nothing changes |
| SyncObjects.FiberMutex.Unlock | src/piorun/fiber/fiber.cc:607-622 | called by the owner: the first waiter, if there is one, is the owner now and is returned to be woken |
| SyncObjects.SharedMutex.Lock | src/piorun/fiber/fiber.cc:624-636 | the caller becomes the writer exactly if the lock has no owner at all, and is queued behind the other writers otherwise |
| SyncObjects.SharedMutex.TryLock | src/piorun/fiber/fiber.cc:638-647 | the caller becomes the writer exactly if the lock has no owner; otherwise nothing changes |
| SyncObjects.SharedMutex.Unlock | src/piorun/fiber/fiber.cc:649-678 | the first waiting writer is the owner now, or all waiting readers are if no writer waits, and they are returned to be woken |
| SyncObjects.SharedMutex.LockShared | src/piorun/fiber/fiber.cc:680-696 | the caller becomes a reader exactly if no writer owns the lock or waits for it, and is queued otherwise |
| SyncObjects.SharedMutex.TryLockShared | src/piorun/fiber/fiber.cc:698-707 | the caller becomes a reader exactly if no writer owns the lock or waits for it; otherwise nothing changes |
| SyncObjects.SharedMutex.UnlockShared | src/piorun/fiber/fiber.cc:709-727 | one reader fewer; the first waiting writer is the owner now exactly if this was the last reader |
| SyncObjects.FiberSemaphore.Wait | src/piorun/fiber/fiber.cc:729-739 | tokens less waiters fall by one, nobody waits while there are tokens, and mustYield says which of the two it was |
| SyncObjects.FiberSemaphore.TryWait | src/piorun/fiber/fiber.cc:741-750 | takes a token if there is one, otherwise nothing changes |
| SyncObjects.FiberSemaphore.Signal | src/piorun/fiber/fiber.cc:752-767 | tokens less waiters rise by one: the token goes to the first waiter if there is one |
| SyncObjects.ConditionVariable.Register | src/piorun/fiber/fiber.cc:544-547 | the first section of wait() queues the caller last |
| SyncObjects.ConditionVariable.NotifyOne | src/piorun/fiber/fiber.cc:553-567 | the first waiter, if there is one, leaves the queue and is returned to be woken |
| SyncObjects.ConditionVariable.NotifyAll | src/piorun/fiber/fiber.cc:569-582 | all waiters leave the queue and are returned in order |
| FiberRuntime.InvPreserved | src/piorun/fiber/fiber.cc:508-767 | every step of every fiber and every loop keeps the invariant: each blocked or blocking fiber is in exactly one queue once, its mode agrees with its thread's call stack, and a popped one owns what it waited for |
| FiberRuntime.ResumeHitsSuspended | src/piorun/fiber/fiber.cc:928-939 | what the loop takes from its signal queue is a suspended fiber of that thread, although it may have been signalled before it yielded |
| FiberRuntime.TimerHitsSuspended | src/piorun/fiber/fiber.cc:355-365 | what a fired timer resumes is a suspended fiber of that thread |
| FiberRuntime.WakeSafety | src/piorun/fiber/fiber.cc:508-522 | over every run: no fiber is resumed while running, no fiber is in two queues or twice in one, and resumes follow grants, with at most one grant of a fiber still on its way; that it arrives is WakeUps.SignalledIsResumed |
| FiberRuntime.LocksExclude | src/piorun/fiber/fiber.cc:584-727 | over every run, with any number of fibers and threads: mutual exclusion and reader-writer exclusion, and state says who is inside |
| FiberRuntime.NobodyIsStranded | src/piorun/fiber/fiber.cc:584-767 | over every run: nobody waits for a free primitive |
| FiberRuntime.BlockedLockReturnsOwning | src/piorun/fiber/fiber.cc:584-622 | a lock() or lock_shared() that blocked returns to a fiber that owns the lock |
| FiberRuntime.PoppedWaiterIsPassedOn | src/piorun/fiber/fiber.cc:607-622 | a popped waiter is held by a running fiber whose next step pushes it on, or is already with its own thread |
| FiberRuntime.OthersOnlyResume | src/piorun/fiber/fiber.cc:514-522 | all that others can do to a fiber's mode is to resume it |
| WakeUps.ControlPasses | src/piorun/fiber/fiber.cc:508-522 | what every step does to what each thread executes and to the mode of each fiber: starting, resuming and firing give control to one fiber, yielding and ending give it back to its thread, and nobody else is touched |
| WakeUps.HandMovesOn | src/piorun/fiber/fiber.cc:607-622 | a popped waiter comes exactly one closer with each push of its holder, who is able to push; the last push puts it at the end of its own thread's signal queue, and no other step changes its place |
| WakeUps.OneCloser | src/piorun/fiber/fiber.cc:928-939 | each step of its thread's loop over the signalled fibers brings a signalled fiber exactly one closer, and the one at which it is next makes it run; no other step of any fiber or thread changes its place |
| WakeUps.LoopGoesOn | src/piorun/fiber/fiber.cc:928-939 | while a fiber is signalled, its thread's loop can swap or resume whenever it has control |
| WakeUps.SignalledIsResumed | src/piorun/fiber/fiber.cc:928-939 | in every run: a signalled fiber has been running by the time its thread's loop has made one step more than were in front of it, whatever happens in between |
| WakeUps.TimerResumes | src/piorun/fiber/fiber.cc:355-365 | a fired timer makes its sleeper run on its thread, and leaves the others asleep in their order |
| Channel.StepKeepsInv | include/fiber/fiber.h:144-168 | every step of readers, writers and everybody else keeps: free tokens, writers before their push, items, and readers after their pop sum to the capacity, and likewise for full tokens and items |
| Channel.ChannelSafety | include/fiber/fiber.h:144-168 | over every run with any number of readers and writers: at most cap items, front() never on an empty queue, what was pushed is what was popped followed by what is there, readers and writers past mtx.lock exclude each other; the values themselves are followed in ChannelValues |
| Channel.ReaderFindsItem | include/fiber/fiber.h:160-164 | a reader past full.wait finds an item, whatever other readers did in between |
| Channel.ItemsFit | include/fiber/fiber.h:144-150 | the items never exceed the capacity |
| ChannelValues.FirstInFirstOut | include/fiber/fiber.h:144-168 | over every run, told from the acts: the values pushed are, in order, the values that readers have in their hands after popping, followed by those in the channel |
| ChannelValues.WritersPushWhatTheyPass | include/fiber/fiber.h:144-150 | over every run, for every fiber: it pushes the values it called write with, in that order, but for one it has yet to push |
| ChannelValues.ReadersReturnWhatTheyPop | include/fiber/fiber.h:160-168 | over every run, for every fiber: read returns to it the values it popped, in that order, but for one still in its hands |
| ChannelValues.ValuesAreConserved | include/fiber/fiber.h:144-168 | over every run, for every value: it was passed to write as often as it was returned by read, is in the channel, or is in the hands of a fiber |
| ChannelValues.OneReader | include/fiber/fiber.h:160-168 | with one reader and any writers: what read returned is a prefix of what was pushed, and the rest is in its hands and in the channel |
| ChannelValues.OneWriter | include/fiber/fiber.h:144-150 | with one writer and any readers: what was popped is a prefix of what write was called with, and the rest is in the channel and in its hands |
| ChannelProgress.NobodyBetween | include/fiber/fiber.h:144-168 | with no fiber between its first token and its last signal, only a full channel makes a writer wait, and only an empty one a reader |
| ChannelProgress.StepKeepsGoing | include/fiber/fiber.h:144-168 | a fiber in the middle of a read or a write never sleeps nor waits for anything but the channel's own semaphores and mutex |
| ChannelProgress.OwnerGoesOn | include/fiber/fiber.h:144-168 | whoever is queued on the channel's mutex waits for a fiber that is running or about to be resumed |
| ChannelProgress.ChannelProgress | include/fiber/fiber.h:144-168 | over every run: whenever a reader and a writer are both queued on the semaphores, some fiber between its first token and its last signal is executed by its thread or has its wake-up on the way, so the channel does not deadlock |
| ChannelProgress.NextCall | include/fiber/fiber.h:144-168 | a fiber that has control in the middle of a read or a write has exactly one act to go on with |
| ChannelProgress.CallsTakeTheirActs | include/fiber/fiber.h:144-168 | over every run, for every fiber: a write takes it four acts after the first and a read five, and it has made them all but those left of the call it is in |
| ConditionWait.StepKeepsInv | src/piorun/fiber/fiber.cc:544-582 | every step of waiters, notifiers and everybody else keeps the protocol's invariant, spurious notifications included |
| ConditionWait.WaitReturnsOwningAndTrue | include/fiber/fiber.h:83-89 | over every run: the predicate form of wait returns to the sole owner of the mutex with the predicate true |
| ConditionWait.UnnotifiedIsRegistered | src/piorun/fiber/fiber.cc:544-551 | over every run: a fiber that unlocked inside wait and was not resumed is in the waiters, or popped and on its way, in exactly one place, once |
| ConditionWait.NoLostWakeup | src/piorun/fiber/fiber.cc:544-582 | over every run: while the flag is set and a fiber is still queued on the condition variable, some changer is about to notify |
| ConditionCalls.FlagIsLastChange | include/fiber/fiber.h:85-89 | over every run: the flag that the predicate reads is what the last change made it |
| ConditionCalls.LockIsTaken | src/piorun/fiber/fiber.cc:584-594 | whoever starts, or goes on after being woken inside wait, owns the mutex alone if it was free, and is queued last for it otherwise |
| ConditionCalls.WaiterGetsThrough | include/fiber/fiber.h:85-89 | with the flag set, the owner of the mutex passes the predicate form of wait without waiting, and unlocks |
| ConditionCalls.WaiterGoesToSleep | src/piorun/fiber/fiber.cc:544-551 | with the flag unset, the owner of the mutex fails the test, is queued last on the condition variable and has given up the mutex |
| ConditionCalls.ChangerNotifies | src/piorun/fiber/fiber.cc:569-582 | setting the flag and notifying leaves nobody queued on the condition variable: all of them are in the notifier's hand, in order, and it still owns the mutex |
| ConditionCalls.Unlocks | src/piorun/fiber/fiber.cc:607-622 | unlocking at the end gives up the mutex and takes exactly the first fiber in line for it in hand |
| WorkerLoop.Scheduler.Schedule | src/piorun/fiber/fiber.cc:973-983 | appends the task to the common queue |
| WorkerLoop.Scheduler.LockedSection | src/piorun/fiber/fiber.cc:842-867 | the in-place section under the lock has the effect of the specification function: steal, withdraw the vote, vote, decide to leave |
| WorkerLoop.StartsTheTask | src/piorun/fiber/fiber.cc:454-483 | Reset on a pool fiber is never ignored: the thread begins exactly the front task of its batch, on a fiber nobody else uses, and counts it |
| WorkerLoop.TakenBatch | src/piorun/fiber/fiber.cc:843-850 | stealing gives the whole batch to the thief, in order, and nothing to anybody else |
| WorkerLoop.StepKeepsInv | src/piorun/fiber/fiber.cc:836-952 | every step of every thread keeps the votes equal to the number of threads that want to quit, and such threads idle; and every fiber of a thread busy or in its pool |
| WorkerLoop.VotesAreCounted | src/piorun/fiber/fiber.cc:843-858 | over every run: wannaQuitThreadCount is the number of threads with wannaQuit set, and those have no live fiber and no stolen task; each thread's count of live fibers is the number of begun and unfinished ones |
| WorkerLoop.ExitsAreSoundExactly | src/piorun/fiber/fiber.cc:843-867 | over every run: whenever a thread has left, every task named by the schedule calls so far was taken and begun by one thread and every fiber has finished, at every point of the run, if and only if no thread outside schedules after a thread has left |
| WorkerLoop.ExitIsSound | src/piorun/fiber/fiber.cc:860-866 | over every run without such a late schedule: when a thread has left, the tasks named by the schedule calls of the run have been divided among the threads, each has begun its own once each and in order, and every fiber has finished |
| WorkerLoop.QuietForEver | src/piorun/fiber/fiber.cc:843-867 | once the vote is full and nothing is left, and as long as no thread outside schedules, it stays so and no task is scheduled, begun or resumed any more |
| WorkerLoop.QuietStep | src/piorun/fiber/fiber.cc:860-866 | from then on a thread leaves at its next successful TryLock |
| WorkerLoop.IdleThreadVotes | src/piorun/fiber/fiber.cc:852-866 | an idle thread that gets the lock and finds nothing has voted, and leaves exactly if everybody has |
| WorkerLoop.TasksAreConserved | src/piorun/fiber/fiber.cc:914-920 | over every run: of the tasks named by its schedule calls the last are pending, the others divided among the threads; each thread has begun its own once each in the order of scheduling, but for those it still holds |
| WorkerLoop.BegunAsScheduled | src/piorun/fiber/fiber.cc:973-983 | over every run, told from its acts: a task has been begun as often as it was scheduled, less what still waits; just as often when a thread has left in time |
| WorkerLoop.PoolHoldsTheIdle | src/piorun/fiber/fiber.cc:459-479 | over every run: a thread's pool holds exactly its fibers that run nothing, once each, so finished ones are back in it |
| WorkerLoop.BlockedIsResumed | src/piorun/fiber/fiber.cc:508-522 | a fiber that blocks can be resumed by its thread, and then all is as if it had not blocked |
| WorkerLoop.MissedLockIsRetried | src/piorun/fiber/fiber.cc:842-867 | a thread that does not get the lock changes nothing and may try again |
| WorkerProgress.SomebodyGoesOn | src/piorun/fiber/fiber.cc:836-952 | as long as a thread has not left, some thread can do something that brings the end nearer |
| WorkerProgress.EverybodyCanLeave | src/piorun/fiber/fiber.cc:836-952 | from every point of every run the threads can go on, with nothing more scheduled, until all have left; and then everything scheduled was begun and has finished, unless a thread outside scheduled too late |
| Emitters.ArrivalAgrees | src/piorun/coroutine/emitter/epoll.cc:72-75 | registering an event puts it with exactly those registered emitters that take note of it, if and only if no live event waits for its descriptor |
| Emitters.DepartureAgrees | include/coroutine/scheduler.h:41-50 | a live event leaves all registered emitters it is with, and no other event leaves any |
| Emitters.SharedDescriptorLosesTheFirst | src/piorun/coroutine/emitter/epoll.cc:72-80 | two live events on one descriptor: the second is never awaited, and its timeout makes the emitter forget the first |
| Emitters.EmptyMeansNoneHeard | src/piorun/coroutine/scheduler.cc:25-33 | the registered emitters are all empty exactly if none of them has taken note of a live event |
| Emitters.InsertMeans | src/piorun/coroutine/emitter/timeout.cc:19-21 | the queue of deadlines stays ordered and distinct and gains exactly the event |
| Emitters.EraseMeans | src/piorun/coroutine/emitter/timeout.cc:23-31 | the queue stays ordered and distinct and loses exactly the event |
| Emitters.ConditionEmitter.Emit | src/piorun/coroutine/emitter/condition.cc:8-16 | an awaited event whose condition holds, with the result WAKEUP and no error, or none if none holds |
| Emitters.EpollEmitter.Emit | src/piorun/coroutine/emitter/epoll.cc:41-70 | skips reports nobody awaits and emits the event of the first one that is awaited; its result is ERROR with the descriptor's errno if an error is reported, else HANGUP if either end hung up, else WAKEUP if it is readable or writable, else what it was |
| Emitters.EpollEmitter.NotifyArrival | src/piorun/coroutine/emitter/epoll.cc:72-75 | the map gains the descriptor of the event; an entry already there, for this descriptor or another, is not replaced |
| Emitters.EpollEmitter.NotifyDeparture | src/piorun/coroutine/emitter/epoll.cc:77-80 | the map loses exactly the entry of the event's descriptor, whoever made it |
| Emitters.TimeoutEmitter.NotifyArrival | src/piorun/coroutine/emitter/timeout.cc:19-21 | an event with a deadline goes behind all earlier and equal deadlines and before all later ones; the queue is otherwise unchanged |
| Emitters.TimeoutEmitter.NotifyDeparture | src/piorun/coroutine/emitter/timeout.cc:23-31 | among equal deadlines the event itself is erased, and the others keep their order |
| Emitters.TimeoutEmitter.Emit | src/piorun/coroutine/emitter/timeout.cc:6-17 | the first event of the queue, which has the earliest deadline, if that has passed, with the result TIMEOUT and ETIMEDOUT, else nothing has passed |
| StacklessScheduler.StepKeepsInv | src/piorun/coroutine/scheduler.cc:13-42 | every step of the loop and of the tasks keeps: each registered emitter has exactly those awaited events that it takes note of, and only the task in control runs |
| StacklessScheduler.AwaitsAreResumedOnce | include/coroutine/awaitable/universal.h:18-31 | over every run and for any registered emitters: a task is resumed only for the event it awaits, and once per await; each registered emitter has exactly those awaited events that it takes note of, no emitter has any other |
| StacklessScheduler.AwaitRegisters | include/coroutine/awaitable/universal.h:25-28 | awaiting makes one new event with the source and the deadline asked for; exactly the registered emitters that take note of it gain it, and nothing else there changes |
| StacklessScheduler.TasksDoAsTheyCalled | src/piorun/coroutine/scheduler.cc:54-68 | over every run, told from its acts: there are as many tasks as were scheduled; a waiting task waits for an event with the source and deadline of its last await; a task is done exactly when it has come to its end |
| StacklessScheduler.EmittersHoldWhatWasAsked | src/piorun/coroutine/scheduler.cc:54-58 | over every run: an event with an emitter has the source and deadline that some task asked for in its last await, and that task waits for it |
| StacklessScheduler.EmittedIsNowhere | include/coroutine/scheduler.h:41-50 | when any emitter emits an event it is in none of them before its continuation runs |
| StacklessScheduler.RunReturnsWhenDone | src/piorun/coroutine/scheduler.cc:15-33 | over every run: when Run returns nothing is scheduled and the registered emitters are empty; and then every task is done if and only if a registered emitter takes note of everything that was awaited, by its source or its deadline |
| StacklessScheduler.ReturnsExactlyWhenDone | src/piorun/coroutine/scheduler.cc:25-33 | with nothing scheduled, the loop returns if and only if every task is done or awaits what no registered emitter has taken note of |
| StacklessScheduler.StuckForEver | src/piorun/coroutine/scheduler.cc:35-40 | a task that awaits what no registered emitter takes note of is never resumed, in any run |
| StacklessScheduler.DeafExactly | src/piorun/coroutine/scheduler.cc:54-58 | over every run: such a task is left at the end if and only if such an event was awaited |
| StacklessScheduler.ReturnsWhileWaiting | src/piorun/coroutine/scheduler.cc:25-33 | with the emitter of descriptors alone, Run returns while a task waits for a condition |
| StacklessProgress.EveryEmitterIsPolled | src/piorun/coroutine/scheduler.cc:35-40 | over every run: when the loop is back at the top every registered emitter has been polled until it had nothing more, once each and in the order of registration |
| StacklessProgress.RunCanReturn | src/piorun/coroutine/scheduler.cc:13-42 | from every point of every run the loop can go on, with nothing more scheduled or awaited, until Run returns; and then every task is done if the registered emitters take note of everything awaited so far |
| ByteBuffer.Buffer.MakeSpace | src/piorun/http/buffer.cpp:112-122 | growing or moving to the front keeps the contents and makes room |
| ByteBuffer.Buffer.Append | src/piorun/http/buffer.cpp:55-60 | the contents are the old ones followed by the new bytes |
| ByteBuffer.Buffer.Retrieve | src/piorun/http/buffer.cpp:18-21 | the contents lose their first bytes |
| ByteBuffer.Buffer.RetrieveAllToStr | src/piorun/http/buffer.cpp:28-38 | returns the contents and leaves none |
| ByteBuffer.Buffer.ReadFd | src/piorun/http/buffer.cpp:75-95 | the contents grow by exactly the bytes that came, wherever the scattered read put them |
| ByteBuffer.Buffer.WriteFd | src/piorun/http/buffer.cpp:97-106 | what was sent followed by what is left is what was there |
| HttpSend.HttpConn.constructor | src/piorun/http/httpconn.cc:13-17 | an empty write buffer, and iovecs that hold whatever was in memory |
| HttpSend.HttpConn.Init | src/piorun/http/httpconn.cc:21-32 | a new client: the write buffer is empty, the iovecs are left as they were |
| HttpSend.HttpConn.Process | src/piorun/http/httpconn.cc:105-116 | whatever the iovecs were before, they point to the whole response now: the buffered header, then the mapped file; without a file the second iovec is left alone |
| HttpSend.HttpConn.Write | src/piorun/http/httpconn.cc:65-92 | for every length the kernel takes, across the border of header and file: accepted and pending make up the response, nothing is sent twice or skipped, if and only if the sum of the two lengths does not wrap around to 0 |
| HttpSend.HttpConn.PastHeader | src/piorun/http/httpconn.cc:78-84 | a write that ends in the file leaves exactly the unsent rest of the file |
| HttpSend.HttpConn.InsideHeader | src/piorun/http/httpconn.cc:85-89 | a write that ends in the header leaves the rest of the header and the whole file |
| HttpSend.HttpConn.ToWriteBytesCounts | include/http/httpconn.h:46 | ToWriteBytes() is the number of pending bytes if and only if that is below 2^31 and the second iovec is in use or its length is 0 modulo 2^32 |
| HttpSend.HttpConn.AllIsSent | include/http/httpconn.h:46 | when ToWriteBytes() is 0, the kernel has accepted the whole response if and only if less than 2^32 bytes are pending and the second iovec is in use or its length is 0 modulo 2^32 |
| HttpSend.CountsWhatIsNotThere | src/piorun/http/httpconn.cc:105-116 | a first response without a file on a connection whose second iovec came with a length below 2^31: the kernel has everything and ToWriteBytes() is still positive |
| HttpSend.FileLooksSent | include/http/httpconn.h:46 | a file of a multiple of 2^32 bytes whose header has just been sent: ToWriteBytes() is 0 and the whole file is pending |
| PollMerge.Merge | src/piorun/fiber/syshook.cc:653-665 | one slot per descriptor, in order of first occurrence, asking for the union of its entries' events; the map agrees with the slots |
| PollMerge.SlotCount | src/piorun/fiber/syshook.cc:668 | slots are distinct, and as many as entries if and only if no descriptor occurs twice |
| PollMerge.WantedCovers | src/piorun/fiber/syshook.cc:661-662 | what an entry asks for is part of what its slot asks for |
| PollMerge.Scatter | src/piorun/fiber/syshook.cc:673-679 | each entry gets its descriptor's merged answer masked by its own events; descriptor and events are untouched |
| PollMerge.Poll | src/piorun/fiber/syshook.cc:643-684 | the wait never sees a descriptor twice; returned is for how many of those it found something; entries get their own answer, or their slot's masked one if there were duplicates and something was found, and are untouched otherwise |
| PollMerge.AnswersAreDescriptors | src/piorun/fiber/syshook.cc:671-672 | as long as nothing is found that was not asked for, the number is that of descriptors with an entry that gets something |
| PollMerge.HitsAreDescriptors | src/piorun/fiber/syshook.cc:673-679 | entries that get something are no fewer than their descriptors, and as many exactly if no descriptor has two |
| PollMerge.NumberIsRightIf | src/piorun/fiber/syshook.cc:668-684 | for one set of answers: the number is that of entries with something in revents if and only if no descriptor has two entries that get something, or, when nothing is found, none came with something |
| PollMerge.NumberIsRightExactly | src/piorun/fiber/syshook.cc:668-684 | for a call with duplicates: the number is right whatever is found of what was asked for, if and only if each descriptor has at most one entry that asks for anything and no entry comes with something in revents |
| PollMerge.TwoReadersCountOnce | src/piorun/fiber/syshook.cc:668-684 | two entries that wait for input of one descriptor both get it, and 1 is returned |
| PollMerge.ErrorIsMaskedAway | src/piorun/fiber/syshook.cc:673-679 | an error nobody asked for is counted, and then masked away from both entries |

## Left out

- Context switching (`coctx_swap.S`, `coctx.cc`): Yield and Resume are control steps on a thread's call stack.
- The queue of fibers that called `yield()` (`src/piorun/fiber/fiber.cc:922-926`): it is cleared after an iteration during which resumed fibers may push to it, so a yielded fiber may be forgotten; nothing is claimed of it.
- Epoll, sockets, `fcntl`, the system clock, `dlsym` hooks: inputs.
- Weak memory and the spin lock itself: a locked section is one step.
- `revents` of descriptors that were not ready after `co_poll_inner`: the array they are copied from is never initialised.
- Calls from a main fiber, which block the thread, and sleeps of a negative duration, which yield without a timer.
- Integer widths of `state`, `count`, task counters and buffer positions: they are unbounded here; the arithmetic of the wheel and of the send count is in machine widths.
- `isaccept` set to true, where stealing is switched off.
- Tasks that create their own fibers beside the pool.
- C++20 coroutine frames: `destroy()`, nested tasks with continuations, generators. A task is in control, waiting, or done.
- Adding emitters after `Run`, and calling `Run` again.
- `http_conn.cc` and the request parser, loggers, configuration, the SQL pool, threads: input and output, or easier than what is modelled.
- HttpSend.HttpConn.Process: does not model parsing the request or composing the header, which is an argument here.
- ByteBuffer.Buffer.Append: does not model RetrieveUntil, HasWritten and the overloads, which are calls of the modelled methods.
- DispatchRound.Round, WheelRuns.Run: require that the gap to the last sweep is ok in the sense of WheelArithmetic.SweepIsComplete; what happens otherwise is WheelArithmetic.HugeGapMisses.
- DispatchRound.RunFiber: does not model that a fired fiber polls again within the round, because a poll adds to the wheel as a sleep does; a fiber that sleeps again after a refused sleep is not modelled either.
- TimingWheel.StTimeout.Cancel: does not model the removal as a wheel operation of the source, where it is RemoveFromLink called by a poller.
- TimeoutList.TimeoutItem: the fields that a poller adds to an item are part of the item, and its deadline is fixed when it is created.
- FiberRuntime, Channel, ConditionWait, WorkerLoop, StacklessScheduler: the interleaving of fibers and threads is a state machine on values; the objects of SyncObjects, WorkerLoop.Scheduler and the emitters carry the update in place.
- ConditionWait.NoLostWakeup: is about flags whose change is announced by `notify_all`; `notify_one` occurs as a spurious notification, and Primitives.CallsAreOrderly says whom it wakes.
- StacklessProgress.RunCanReturn: states that Run can return, not that it does, which depends on conditions and descriptors becoming ready.
- WorkerProgress.EverybodyCanLeave: states that the threads can all leave, not that they do: a fiber may block for ever, and TryLock fail for ever.
- WakeUps.SignalledIsResumed: counts the steps of the thread's loop; that a thread gets back to its loop depends on the fibers it runs.
