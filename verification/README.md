# RMARaceBench in Dafny

RMARaceBench is a suite of small concurrent programs for MPI RMA, OpenSHMEM and GASPI. Each program claims to
have a data race (`-yes`) or not to have one (`-no`), and `util/generate.py` stamps those claims into the texts.
This project models both: the programs as runs of a machine with one-sided communication, and the generator.
`dafny verify dfyconfig.toml` checks everything.

## What is modelled

**The step machine** (`Machine`). A program is a list of threads, each a list of calls in the order of the C code.
A put, a get or an accumulate only goes in flight; the access at its source and the access at its destination are
separate steps which the scheduler takes whenever it likes. What bounds them is the call that completes a side:

- MPI 3.1, chapter 11: fence (11.5.1), unlock (11.5.3) and flush (11.5.4) complete both sides, `flush_local` the
  origin only; PSCW (11.5.2) has a machine of its own, `Pscw`; accumulates (11.7.1) one of their own, `Accumulate`.
- OpenSHMEM 1.5: `shmem_quiet` and `shmem_barrier_all` complete both sides; `shmem_fence` puts two writes to one PE
  in order, no gets (9.11); a wait for a signal (9.8, 9.10) finds the data that the signal was sent with.
- GASPI, sections 8.2 and 8.3: `gaspi_wait` completes a write at the origin and a read altogether; a notification
  does not overtake earlier writes of its queue to its rank.

Barriers, messages, locks, notifications and OpenMP constructs give the order of calls. A race is a state in which
a thread is about to touch a cell that an operation not yet completed may still touch, unless both only read, both
accumulate, or a fence has ordered them.

**The theory.** `Refinement`: a program that is race free when operations take effect at issue cannot observe their
delays, and is race free with delays, too. `Ordering` and `Separation`: conflicting accesses that are kept apart by
completion and synchronisation never race, for any program. `Values`: what a load then returns. `Witness`: how a race is reached.
`Execution` is the machine as an object changed in place by the calls, proved to do exactly the steps of `Machine`.
`Progress`: which steps a run can take next and which operations it has completed, told without the machine's
bookkeeping. `Finishing`: runs that can always be brought to their end.

**The programs**, most of them in families with any number of ranks, threads, operations, values or turns. Where a
`-no` program has a `-yes` twin there is either one statement that says exactly which variants race, or a schedule
that reaches the race. A `printf` of a cell is a load of it.

**The generator.** `Tables` (conflict tables), `Text` and `Labels` (the pass that turns markers into line numbers),
`Paths` (file names), `Generator` (counters, loops, totals). A template is given by its model, its discipline and its
file name, as the paths in `util/generate.py` are.

## Where code and claims differ

- `MPIRMA/sync/025-MPI-sync-lock-flushlocal-sameorigin-remote-yes.c:9-10` calls the race local; the code has it at
  the target cell only (`Flush.FlushPrograms`).
- `MPIRMA/sync/001-MPI-sync-fence-local-yes.c:10-11` names a get and a load; the race is one of a put and a store
  (`Claims.OnlyPutAndStore`, `Claims.PutMeetsStore`).
- `GASPI/misc/002-GASPI-misc-read-load-deep-nesting-local-yes.c:45-47` loads before the read is posted, and
  `GASPI/misc/010-GASPI-misc-read-store-deep-nesting-remote-yes.c:85-90` has each rank touch its own remote segment
  only: both are said to race, and neither does (`Claims.NoRaceAtAll`).
- `MPIRMA/sync/018` puts 0 over 0, so its race cannot be seen in any value; races are stated as accesses that meet.
- The closing exchange of the GASPI programs waits for slots that are never reset. After `GASPI/sync/009` has used
  slot 0 of rank 1, its exchange tells rank 1 nothing about rank 0 (`UsedSlots.NineExactly`). That is harmless there
  (`UsedSlots.NineRaceFree`), but not in general (`UsedSlots.EarlyNotificationRaces`); `Exchange.InformedExactly`
  says when the exchange can be relied on.
- The label pass writes wrong text for `{race_loc{race_loc1}}` when the first marker is on the first line, and only
  then (`Labels.WritesTheTwoNumbersExactly`).
- The loop over the remote conflict table ignores the process count of its rows (util/generate.py:378-388).

## Model

| member | source | states |
|---|---|---|
| Refinement.DelaysUnobservable | MPIRMA/sync/022-MPI-sync-lock-barrier-remote-no.c:51-62 | any program that is race free with operations taking effect at issue: every delayed run has the loaded values, the calls and (once nothing is pending) the memory of the immediate run with the same synchronisation |
| Refinement.Simulates | MPIRMA/sync/022-MPI-sync-lock-barrier-remote-no.c:51-62 | the simulation behind it: delayed memory with the pending writes settled in issue order is the immediate memory, at every step |
| Refinement.RaceFreeEquivalence | MPIRMA/sync/020-MPI-sync-lock-barrier-nonconsistent-remote-yes.c:52-68 | a program is race free with delays if and only if it is race free without |
| Refinement.ImmediateIsDelayed | MPIRMA/sync/020-MPI-sync-lock-barrier-nonconsistent-remote-yes.c:52-68 | every run without delays is also a run of the delayed machine, with the same final state |
| Refinement.ControlSimulates | GASPI/sync/008-GASPI-sync-wait-write-barrier-remote-yes.c:64-90 | in a program without branches, racy or not, delays change neither the calls executed nor what has been completed |
| Separation.OrderedIsRaceFree | MPIRMA/sync/022-MPI-sync-lock-barrier-remote-no.c:51-62 | any program whose conflicting calls are kept apart by completion plus synchronisation, by notifications or by locks has no race in any schedule |
| Separation.RaceIsUnsafe | MPIRMA/sync/020-MPI-sync-lock-barrier-nonconsistent-remote-yes.c:52-68 | whatever the run, two calls that race are not kept apart in any of these ways |
| Separation.OrderedRefinesImmediate | MPIRMA/sync/022-MPI-sync-lock-barrier-remote-no.c:51-62 | such a program refines the one in which operations take effect at issue |
| Ordering.BarrierBefore | MPIRMA/sync/022-MPI-sync-lock-barrier-remote-no.c:58 | in every run, with or without delays: what a member executes before its k-th barrier is executed before anything another member does after its k-th |
| Ordering.MessageBefore | MPIRMA/sync/032-MPI-sync-lock-sendrecv-3procs-remote-no.c:51-72 | in every run, with or without delays: the same for the k-th message and its receipt |
| Ordering.NotifyBefore | GASPI/sync/004-GASPI-sync-notify-waitsome-local-no.c:61-73 | in every run, with or without delays: a wait that has returned orders whatever comes before every notification of its slot with its value |
| Ordering.ClosedByCall | MPIRMA/sync/022-MPI-sync-lock-barrier-remote-no.c:55 | in every run, with or without delays: an operation issued before a completing call that covers it is complete once that call is passed |
| Ordering.ClosedByNote | GASPI/sync/009-GASPI-sync-notify-waitsome-remote-no.c:62-68 | in every run, with or without delays: a write that every notification of a slot was posted after, on its queue and to its rank, is complete at both sides when the slot has been waited for |
| Ordering.ClosedByLock | MPIRMA/sync/028-MPI-sync-lock-exclusive-3procs-remote-no.c:51-64 | in every run, with or without delays: an operation issued and completed inside a critical section is complete whenever another thread is inside a conflicting one |
| Ordering.ClosedIsFinished | MPIRMA/sync/023-MPI-sync-lock-barrier-sameorigin-remote-no.c:51-58 | in every run of any program an operation whose destination has been completed has landed, and one whose source has been completed has read it |
| Ordering.LockExclusion | MPIRMA/sync/028-MPI-sync-lock-exclusive-3procs-remote-no.c:51-64 | in every reachable state of any program a lock has at most one exclusive holder, or only shared ones |
| Values.LoadSeesLastWrite | MPIRMA/sync/022-MPI-sync-lock-barrier-remote-no.c:51-62 | in a well synchronised program a load ordered after the last write of its cell returns that value in every delayed run |
| Values.LoadsSurviveDelays | MPIRMA/sync/027-MPI-sync-lock-exclusive-remote-no.c:51-63 | values a load can return without delays are all it can return with them, in race-free programs |
| Progress.StepExactly | MPIRMA/sync/029-MPI-sync-lock-exclusive-remote-yes.c:59-76 | any program whose branches only repeat or skip loads, after any schedule, with or without delays: a step is possible if and only if the program text, the counters, the log and the schedule so far allow it (lock held in an excluding mode, messages sent and received, notifications arrived, accesses made, fences between writes) |
| Progress.CompletionExactly | MPIRMA/sync/025-MPI-sync-lock-flushlocal-sameorigin-remote-yes.c:52-61 | in every such run an operation is complete at a side if and only if a completing call that covers this side has run after it, or a later notification of its queue to its rank has arrived |
| Finishing.CanFinish | MPIRMA/sync/032-MPI-sync-lock-sendrecv-3procs-remote-no.c:51-72 | if control is never stuck, every delayed run of a program without branches can be continued until all threads are at their end and nothing is under way |
| Execution.Cluster.Step | MPIRMA/sync/022-MPI-sync-lock-barrier-remote-no.c:51-62 | one step of the object changed in place is one step of the machine, and is refused exactly when the machine refuses it |
| Execution.Cluster.Complete | MPIRMA/sync/013-MPI-sync-lockall-flushall-remote-no.c:55 | a completing call in place: the covered operations lose their open sides, all others stay |
| Execution.Run | MPIRMA/sync/022-MPI-sync-lock-barrier-remote-no.c:51-62 | running a whole schedule on the object ends in the state the machine gives, or is refused with it |
| LockBarrier.UnlockThenBarrierOrders | MPIRMA/sync/022-MPI-sync-lock-barrier-remote-no.c:51-62 | put, unlock, barrier, load: race free, and the load returns the value put in every delayed run |
| LockBarrier.LateUnlockRaces | MPIRMA/sync/020-MPI-sync-lock-barrier-nonconsistent-remote-yes.c:52-68 | with the unlock after the barrier the race is reached, and the load can return the old value |
| Fences.FenceRaceFreeExactly | MPIRMA/sync/019-MPI-sync-fence-3procs-remote-no.c:49-62 | any number of ranks, fences and operations: race free if and only if no two conflicting calls share an epoch |
| Fences.EarlierEpochFinished | MPIRMA/sync/019-MPI-sync-fence-3procs-remote-no.c:49-62 | in every delayed run an operation has finished at both sides once any rank has come to a call of a later epoch |
| Fences.EpochOrders | MPIRMA/sync/019-MPI-sync-fence-3procs-remote-no.c:49-62 | in every run, with or without delays: an operation is issued and completed before any call of a later epoch |
| FencePrograms.SeparateEpochs | MPIRMA/sync/019-MPI-sync-fence-3procs-remote-no.c:49-62 | the get returns exactly what the put wrote, for every value |
| FencePrograms.SharedEpochRaces | MPIRMA/sync/018-MPI-sync-fence-3procs-remote-yes.c:50-64 | put and get in one epoch reach their race |
| Claims.NoRaceAtAll | GASPI/misc/010-GASPI-misc-read-store-deep-nesting-remote-yes.c:85-93 | 010, and GASPI/misc/002, have no race in any schedule |
| Claims.OnlyPutAndStore | MPIRMA/sync/001-MPI-sync-fence-local-yes.c:53-60 | in every run a race of 001 is one of the put and the store, never one of a get or a load |
| Claims.PutMeetsStore | MPIRMA/sync/001-MPI-sync-fence-local-yes.c:53-60 | and this race is reached |
| LockAll.FlushAndBarrierExactly | MPIRMA/sync/014-MPI-sync-lockall-flushall-remote-yes.c:50-66 | in one lock_all epoch the load is race free if and only if the put is flushed and followed by the barrier |
| LockAll.FlushedPutIsSeen | MPIRMA/sync/013-MPI-sync-lockall-flushall-remote-no.c:49-65 | with both, the load returns the value put |
| Flush.FlushExactly | MPIRMA/sync/024-MPI-sync-lock-barrier-sameorigin-remote-yes.c:52-60 | any two operations of one origin, with nothing, flush_local or flush between them: exactly when they race |
| Flush.FlushDrains | MPIRMA/sync/023-MPI-sync-lock-barrier-sameorigin-remote-no.c:51-58 | in any program and run, after a flush no covered access is ever pending again on either side, after a flush_local none at the origin |
| Flush.FlushLocalLeavesTarget | MPIRMA/sync/025-MPI-sync-lock-flushlocal-sameorigin-remote-yes.c:52-61 | flush_local can leave the target access of a put pending |
| Flush.FlushPrograms | MPIRMA/sync/026-MPI-sync-lock-flushlocal-sameorigin-remote-no.c:51-57 | the verdicts of 023, 024, 025 and 026; in 025 only the target cell is left to race on |
| Locks.CriticalSectionsNeverMeet | MPIRMA/sync/028-MPI-sync-lock-exclusive-3procs-remote-no.c:51-64 | any number of ranks putting, getting or loading one cell under its lock, in every delayed run: no race; a get or guarded load returns the value of the last writer that was given the lock before it, or the initial 0; and whenever nobody is inside, the cell holds the value of the last writer that was given the lock |
| Locks.InFlightMeansLocked | MPIRMA/sync/027-MPI-sync-lock-exclusive-remote-no.c:51-63 | in every delayed run an operation in flight belongs to the one rank that holds the lock |
| Locks.SectionsFinish | MPIRMA/sync/028-MPI-sync-lock-exclusive-3procs-remote-no.c:51-66 | any number of ranks: every run, whatever its delays and whoever came first, can be continued until all ranks are at their end |
| LockOrder.PutOrderedExactly | MPIRMA/sync/029-MPI-sync-lock-exclusive-remote-yes.c:59-76 | in every run that has executed the load, the put happens before it if and only if rank 0 entered the empty section first |
| LockOrder.EnteredFirstMeansComplete | MPIRMA/sync/029-MPI-sync-lock-exclusive-remote-yes.c:59-76 | then the put is complete and the cell holds its value |
| LockOrder.BothOrdersReachable | MPIRMA/sync/029-MPI-sync-lock-exclusive-remote-yes.c:65-73 | complete runs of both orders exist, whatever the sleep |
| LockOrder.Rank1FirstRaces | MPIRMA/sync/029-MPI-sync-lock-exclusive-remote-yes.c:59-76 | the race is reached |
| LockOrder.WindowsLockApart | MPIRMA/sync/029-MPI-sync-lock-exclusive-remote-yes.c:59-76 | the two windows have locks of their own: both ranks can be in their sections at once |
| Chain.ChainSerialises | MPIRMA/sync/032-MPI-sync-lock-sendrecv-3procs-remote-no.c:51-72 | a token chain of any length, in every delayed run: an origin that comes to its put finds every earlier put landed at the target; no race; the last value stays |
| Chain.ChainFinishes | MPIRMA/sync/032-MPI-sync-lock-sendrecv-3procs-remote-no.c:51-72 | a chain of any length: every delayed run can be continued until all ranks are at their end, and then the load has returned the last value and the target holds it |
| Chain.PutOrder | MPIRMA/sync/032-MPI-sync-lock-sendrecv-3procs-remote-no.c:51-72 | in every run, with or without delays, each put is issued before every later one of the chain |
| Chain.WrongTokenRaces | MPIRMA/sync/033-MPI-sync-lock-sendrecv-3procs-remote-yes.c:52-70 | a token from a rank outside the chain orders nothing: the race is reached |
| Polling.ExitMeansLanded | MPIRMA/sync/036-MPI-sync-polling-remote-yes.c:54-71 | in every delayed run, after any number of turns, the loop ends only after the put has reached the cell; it can end exactly when the value put is 1 |
| Polling.NoNewTurn | MPIRMA/sync/036-MPI-sync-polling-remote-yes.c:61-70 | once the put has reached the cell the loop looks at most once more, and that look ends it |
| Polling.PollingRaces | MPIRMA/sync/036-MPI-sync-polling-remote-yes.c:54-71 | the load of the loop meets the put in flight |
| Pscw.GroupsSerialised | MPIRMA/sync/034-MPI-sync-pscw-remote-no.c:58-91 | any groups and access epochs: before an operation of a later group may touch the target, every call of every earlier group has been issued and has finished at both sides |
| Pscw.CompletesEarlyExactly | MPIRMA/sync/034-MPI-sync-pscw-remote-no.c:63-66 | an access epoch can be completed before its group is posted, with all its operations still to reach the target, if and only if it has no gets |
| Pscw.NoDeadlock | MPIRMA/sync/034-MPI-sync-pscw-remote-no.c:58-91 | any groups, where every post finds its access epochs: while a group is still to be served some step is possible, whatever has been done so far |
| Pscw.TogetherMeansSameGroup | MPIRMA/sync/034-MPI-sync-pscw-remote-no.c:58-91 | two operations that may touch the target at the same time are served by one group |
| Pscw.MeetExactly | MPIRMA/sync/034-MPI-sync-pscw-remote-no.c:58-91 | any groups, where every post finds its access epochs: some run has two given calls in flight at the target together if and only if one group serves the epochs of both |
| Pscw.RaceExactly | MPIRMA/sync/035-MPI-sync-pscw-remote-yes.c:59-87 | hence such a program has a race if and only if one group serves two conflicting calls |
| Pscw.OneByOneIsSerial | MPIRMA/sync/034-MPI-sync-pscw-remote-no.c:58-91 | one group per origin, any number of them: completed gets and the final window are those of the serial run |
| Pscw.GetReturnsPut | MPIRMA/sync/034-MPI-sync-pscw-remote-no.c:58-91 | the get returns the value put, in every run and for every value |
| Pscw.OnePostRaces | MPIRMA/sync/035-MPI-sync-pscw-remote-yes.c:59-87 | with one post for both origins put and get are in flight together, and the get can return either value |
| Exchange.ExchangeCompletes | GASPI/sync/008-GASPI-sync-wait-write-barrier-remote-yes.c:84-90 | any number of ranks, any own calls, every run with or without delays: when rank i has left the waiting loop and no own call had set its slot j, rank j has sent its notification and every write it posted to i earlier on that queue has landed |
| Exchange.LastReadIsSafe | GASPI/sync/008-GASPI-sync-wait-write-barrier-remote-yes.c:84-96 | hence the final read meets no operation in flight, if those who write to the segment use that queue and their slots were unused |
| Exchange.InformedExactly | GASPI/sync/008-GASPI-sync-wait-write-barrier-remote-yes.c:84-96 | any own calls that do not wait: at its last read rank i can be sure of the notification of rank j if and only if i is j or no own call has set slot j of rank i |
| UsedSlots.NineExactly | GASPI/sync/009-GASPI-sync-notify-waitsome-remote-no.c:59-85 | for the calls of 009 itself: the exchange tells every rank about every other, except rank 1 about rank 0 |
| UsedSlots.NineRaceFree | GASPI/sync/009-GASPI-sync-notify-waitsome-remote-no.c:59-92 | 009 is race free all the same, the final reads included |
| UsedSlots.EarlyNotificationRaces | GASPI/sync/009-GASPI-sync-notify-waitsome-remote-no.c:75-92 | a slot used before a write makes the last read of the exchange race |
| GaspiWait.RaceFreeExactly | GASPI/sync/005-GASPI-sync-wait-barrier-remote-no.c:59-73 | of the eight programs with read or write, with or without wait, with or without barrier, exactly read, wait, barrier is race free |
| GaspiWait.WriteStaysOpen | GASPI/sync/008-GASPI-sync-wait-write-barrier-remote-yes.c:62-78 | wait and barrier do not complete a write at its target |
| GaspiWait.NotWaitedFor | GASPI/sync/006-GASPI-sync-wait-barrier-remote-nonconsistent-yes.c:60-76 | without the wait or without the barrier the race is reached |
| NotifiedWrite.NotificationExactly | GASPI/sync/010-GASPI-sync-notify-waitsome-remote-yes.c:60-73 | the load after a notified write is race free if and only if the notification is waited for |
| NotifiedWrite.NotificationCarriesWrite | GASPI/sync/009-GASPI-sync-notify-waitsome-remote-no.c:59-71 | then it returns what was written |
| PingPong.ReplyCompletesBuffer | GASPI/sync/004-GASPI-sync-notify-waitsome-local-no.c:61-73 | the overwrite of the origin buffer never meets the put: the target ends with the value put, in GASPI and in OpenSHMEM |
| PingPong.Causality | SHMEM/sync/005-shmem-sync-waituntil-local-no.c:43-58 | in every run, with or without delays, at the overwrite: the put has been sent, its target has waited for it and answered, and the put has read its origin buffer and written its target |
| PingPong.EarlyReplyRaces | GASPI/sync/003-GASPI-sync-notify-waitsome-local-yes.c:62-74 | without the wait on rank 1 the overwrite can meet the put (also SHMEM/sync/006) |
| ShmemFence.LastBatchWins | SHMEM/sync/011-shmem-sync-fence-put-put-remote-no.c:41-47 | any puts split by fences: after quiet a cell holds a value of the last batch that wrote it |
| ShmemFence.FencedPutsExactly | SHMEM/sync/011-shmem-sync-fence-put-put-remote-no.c:41-47 | they race if and only if two puts of one batch go to one cell |
| ShmemQuiet.FenceIgnoresGets | SHMEM/sync/012-shmem-sync-fence-getnbi-put-remote-yes.c:42-51 | a fence does not order a get before a later put: the race is reached |
| ShmemQuiet.GetReadsLaterPut | SHMEM/sync/012-shmem-sync-fence-getnbi-put-remote-yes.c:42-51 | the get can read the value of the put that follows the fence |
| ShmemQuiet.QuietThenSync | SHMEM/sync/009-shmem-sync-quiet-sync-remote-no.c:41-51 | quiet and sync: race free, and the other PE's get returns the value put |
| ShmemQuiet.QuietAlone | SHMEM/sync/010-shmem-sync-quiet-sync-remote-yes.c:42-53 | quiet alone does not order the other PE's get |
| Hybrid.MasterBarrierOrdersAll | MPIRMA/hybrid/012-MPI-hybrid-master-remote-no.c:55-73 | any team size: a process barrier by one thread and one team barrier let every thread's load see the finished put |
| Hybrid.OrderedLoopOrdersAll | MPIRMA/hybrid/019-MPI-hybrid-ordered-remote-no.c:55-78 | any team size, iteration count and schedule: the process barrier in iteration 0 of the ordered loop lets every later iteration's load see the finished put |
| LoopEnds.LoopFinishes | MPIRMA/hybrid/019-MPI-hybrid-ordered-remote-no.c:55-78 | any team size, iteration count and schedule: every delayed run can be continued until all threads are at their end, and then the load of every later iteration has returned the value put |
| Hybrid.OtherThreadRaces | MPIRMA/hybrid/021-MPI-hybrid-section-barrier-origin-remote-yes.c:57-84 | a barrier run by another thread than the putting one orders nothing |
| Tasks.WaitMeansSignals | MPIRMA/hybrid/010-MPI-hybrid-task-local-no.c:22-36 | any v and any signallers: my_wait returns only after v signals, and can return exactly when there are v signallers |
| Tasks.TaskwaitCompletesGet | MPIRMA/hybrid/010-MPI-hybrid-task-local-no.c:72-94 | after taskwait the load returns what the task's get fetched |
| Tasks.SignalIsNotCompletion | MPIRMA/hybrid/009-MPI-hybrid-task-local-yes.c:74-96 | the signal does not mean that the get has finished: the race is reached |
| Accumulate.AccumulatesAddUp | MPIRMA/atomic/004-MPI-atomic-disp-remote-no.c:44-63 | any updates in any interleaving: an element touched whole or not at all ends as its start plus all contributions, modulo its width |
| WindowBytes.ReadWritten | MPIRMA/atomic/004-MPI-atomic-disp-remote-no.c:44-63 | an element written into the bytes of the window is read back modulo its width |
| Accumulate.AlignedIsCompatible | MPIRMA/atomic/004-MPI-atomic-disp-remote-no.c:56-61 | elements of one type at multiples of its size never overlap in part |
| AccumulateExact.CompatibleIsSerial | MPIRMA/atomic/004-MPI-atomic-disp-remote-no.c:44-63 | updates of elements that are the same (address and type) or disjoint end in one window, that of any serial order |
| AccumulateExact.SerialisableExactly | MPIRMA/atomic/006-MPI-atomic-float-int-remote-yes.c:52-65 | interleaving is like some serial order for all values and windows if and only if any two elements have the same address and type, or disjoint bytes; two types of one size are two types |
| AccumulateExact.DisplacementExactly | MPIRMA/atomic/003-MPI-atomic-disp-remote-yes.c:45-63 | two calls of n and m elements of any two types, displaced by d bytes: serialisable if and only if the second is empty or lies past the first, or both have one type and d is a multiple of its size |
| AccumulateExact.AtomicPrograms | MPIRMA/atomic/005-MPI-atomic-short-int-remote-yes.c:52-65 | the verdicts of the ten programs 001 to 010 |
| AccumulateExact.LostUpdate | MPIRMA/atomic/003-MPI-atomic-disp-remote-yes.c:45-63 | overlapping elements: an interleaving that loses an update |
| AccumulateCalls.ContiguousIsPlain | MPIRMA/atomic/001-MPI-atomic-customdatatype-remote-no.c:51-64 | k items of contiguous(n) are k*n plain elements |
| AccumulateCalls.TwoCallsAddUp | MPIRMA/atomic/004-MPI-atomic-disp-remote-no.c:51-61 | two calls displaced by whole elements: every element ends as its start plus the share of each call |
| AccumulateCalls.InPlaceIsEveryOutcome | MPIRMA/atomic/001-MPI-atomic-customdatatype-remote-no.c:51-64 | two calls applied in place one after the other end like every interleaving of them |
| AccumulateCalls.TwoCallsInPlace | MPIRMA/atomic/009-MPI-atomic-int-int-remote-no.c:51-63 | two calls of one type, any counts, values and displacement by whole elements: every interleaving ends as the first call applied in place, and then the second |
| AccumulateCalls.AccumulateInPlace | MPIRMA/atomic/004-MPI-atomic-disp-remote-no.c:51-61 | the target's side of one call on an array of bytes: exactly the updates of its elements |
| Tables.RaceMeansOrderMatters | util/generate.py:234-242 | two kinds of access race if and only if they are not both atomic and the order of some accesses of these kinds changes the cell or a result |
| Tables.FirstSwapWins | util/generate.py:244-323 | of any number of compare-and-swaps for one value, in any order, exactly the first takes effect, and the others get back what it has left |
| Tables.SumsAddUp | util/generate.py:244-323 | any list of atomic additions, fetching or not: the cell ends as its start plus all of them, and each fetching one returns what was there before it |
| Tables.SwapsPassOn | util/generate.py:244-323 | a swap leaves its value and returns the one that the access before it left |
| Tables.KindsOf | util/generate.py:244-323 | which accesses a kind has; those of reading kinds leave every cell alone |
| Tables.ChangesExactly | util/generate.py:244-323 | which accesses change the cell: a compare-and-swap only if it gets back what it expects and brings in something else |
| Tables.TablesExact | util/generate.py:326-345 | every row of every conflict table is exact in that sense, the additional rows of lines 244-323 included |
| Tables.ClashFollowsTables | util/generate.py:234-345 | the race rule of the step machine is the rule of the tables on the cells two calls touch |
| Labels.Locate | util/generate.py:423-432 | the scanning loop finds the lines after the first two markers, and tells whether there are more |
| Labels.WriteLabels | util/generate.py:421-433 | the pass computes its specification |
| Labels.NumbersFitOutput | util/generate.py:421-433 | the numbers written fit the rewritten text, whose lines and markers are those of the text |
| Labels.SecondPassIsIdentity | util/generate.py:421-433 | a second pass changes nothing, for every text |
| Labels.NoTokenLeft | util/generate.py:433 | no token is left |
| Labels.WritesTheTwoNumbersExactly | util/generate.py:433 | the text is the one with both tokens replaced in one go, if and only if not (first marker on the first line and one token nested in another) |
| Labels.HeaderWritten | util/generate.py:421-433 | a text with the two tokens: unchanged without a race; with one, the tokens are written over by the two numbers and nothing else changes, but for the case of the row above |
| Labels.PassByRace | util/generate.py:421-433 | for every text: no change without a race; with one no token is left, and the numbers fit the text written |
| Labels.NumbersAreLines | util/generate.py:423-432 | in a file of printable lines the numbers are those of the lines after the first two with the comment, counted from one |
| Labels.CommentMarks | util/generate.py:424 | a line is marked if and only if "// CONFLICT" stands somewhere in it |
| Text.SplitJoined | util/generate.py:423 | splitting a file gives back its lines, and a last one without newline |
| Text.ReplaceByLines | util/generate.py:425-433 | replacing in a text is replacing in each of its lines |
| Text.ContainsSame | util/generate.py:426-433 | replacing makes and breaks no occurrence of a text of other characters |
| Paths.PathInjective | util/generate.py:397-406 | one path means one directory, one number and one name, for all templates and numbers |
| Paths.CaseIsCalled | util/generate.py:400-404 | a template `<q>-op1-op2-<k>-race.c.j2` gives the name `<q>-<first>-<second>-<k>-yes.c` for a race and `...-no.c` without one, for all parts and operations in which no placeholder arises by accident |
| Paths.PlainCaseIsCalled | util/generate.py:400-404 | the same for the templates without operations, whose name has the verdict or the placeholder for it |
| Paths.VerdictTold | util/generate.py:401 | two cases that differ in the race alone have different names |
| Paths.PathIs | util/generate.py:397-406 | the path is the directory, the padded number, a dash and the name |
| Paths.PadWidth | util/generate.py:400 | a number is padded to three digits, and not padded from 100 on |
| Paths.DirectoryOf | util/generate.py:398-399 | the cases of a template in `templates/<a>/<b>` go to the directory `<a>/<b>` |
| Paths.PadReadsBack | util/generate.py:400 | a number padded to three digits can be read back, however long |
| Generator.EachPairOnce | util/generate.py:359-369 | any operation lists: every unordered name pair of a row is rendered, only such pairs are, and none twice |
| Generator.SortedIsUnordered | util/generate.py:364-366 | the sorted tuple of two names stands for the unordered pair |
| Generator.CrossInOrder | util/generate.py:362-363 | the pairs of a row come in the order of the two loops |
| Generator.ModelsInOrder | util/generate.py:359-361 | a row is rendered for MPI, then OpenSHMEM, then GASPI |
| Generator.DedupeKeepsFirst | util/generate.py:361-367 | what is rendered is the first pair with its names, and the order of the loops is kept |
| Generator.Suite.RenderRow | util/generate.py:361-369 | the two inner loops render exactly the first pair of every key |
| Generator.Suite.RenderTable | util/generate.py:359-369 | the cases added are exactly those of the rows: row by row, model by model, each unordered name pair once, in this order, and no other case |
| Generator.Suite.RenderList | util/generate.py:371-375 | every additional row is rendered, in order |
| Generator.Suite.Render | util/generate.py:35-39 | a case gets the next number of its discipline and model, and the counters keep telling what has been rendered |
| Generator.CaseCounter.IncGet | util/generate.py:35-39 | the counter of the model grows by one, the race counter with it for a race, nothing else changes |
| Generator.CaseCounter.Set | util/generate.py:41-42 | sets one counter and nothing else |
| Generator.CaseCounter.SetRaces | util/generate.py:44-45 | sets one race counter and nothing else |
| Generator.NumbersDiffer | util/generate.py:35-39 | no number is used twice in a discipline of a model |
| Generator.PathsDiffer | util/generate.py:397-406 | no two cases of a run have one path, whatever the names of the templates and operations |
| Generator.DirectoriesSpelled | util/generate.py:14-18 | the directories of models and disciplines, name by name |
| Generator.CaseGoesTo | util/generate.py:397-406 | a case goes to the directory of its model and discipline, under its number and its name |
| Generator.AddUp | util/generate.py:734-737 | the counts of the disciplines add up to the rendered cases, with and without race |
| Generator.Suite.Totals | util/generate.py:727-739 | the totals printed are the numbers of rendered cases with a race, without one, and together |

## Left out

- The C programs are lists of calls run by the step machine, not C code on arrays and pointers: `Execution` changes memory in place, but window arrays, address arithmetic and aliasing of buffers are not modelled beyond cells.
- Start-up and shutdown, process-count checks, sleeps, window allocation and loops that clear a window: the cleared window is the initial memory.
- What follows the accesses in question in each program (closing barriers and the final `printf`) is modelled only where a result is about it.
- The insides of MPI, OpenSHMEM, GASPI and OpenMP, and fairness: only the completion and ordering rules are modelled. What is said is about reached states and finished runs, and for the lock, token and loop programs that every run can be finished, not that a scheduler will finish it.
- Progress.StepExactly: branches that repeat or skip other calls than loads, as the polling loop of `MPIRMA/sync/036` has, are outside; `Polling` treats that program by itself.
- A thread's own conflicting local access with its own operation counts as a race like any other; private variables that no operation touches are not modelled.
- Pscw: one target and its origins; an origin's start may or may not wait for the post, and what it does between epochs is not modelled.
- Accumulate: `MPI_SUM` of integers in two's complement. Floating-point sums are added as integers of the same size: what is modelled of the types is which accumulates are atomic against each other, not their arithmetic. The ordering that MPI gives the accumulates of one origin is not used, so 007 and 010 are treated like calls of two origins.
- Machine: a delivered OpenSHMEM signal completes all earlier writes of its queue, while the standard promises only the data sent with it; the programs with signals have no other write under way.
- `MPIRMA/sync/009` and `010`: they use `MPI_Rget` inside a fence epoch, which section 11.3.5 of MPI 3.1 limits to passive target epochs.
- The remaining `conflict` programs are instances of the tables; the remaining `sync` and `hybrid` programs repeat the rules above with other calls; but for the two named above the `misc` programs are the same races behind plain indirection.
- Jinja rendering, `clang-format`, file writes and directory creation: the formatted text is an input. The choice of `access_kind` and the printed messages are left out.
- Text: `splitlines` for texts read with universal newlines, which have no carriage return; `os.path.split` without runs of slashes.
- Generator: the loops over sync, atomic, hybrid and misc templates only call the same counter and renderer; they are covered by `Suite.Render` and `Suite.RenderList`. The tables are given by the kinds of their operations, not by the call texts.
- `util/parse_results.py`: ratios over data frames.
